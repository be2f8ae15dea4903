/** Stages and their items (game.js "Stage" and "Item"): a stage owns the
    maps and the items of one screen, numbers them as they are created, and
    puts them back in their starting state when it is reset. */
module Stages {
  import opened Outcomes
  import opened Maps

  /** An item's settings after the defaults are merged with its parameters:
      the values every reset returns it to. `kind` is the source's `type`. */
  datatype ItemParams = ItemParams(
    x: real, y: real, kind: int, status: int, orientation: int,
    frames: Positive, times: int, timeout: int,
    location: Option<GridMap>, coord: Option<CellCoord>)

  /** An item bound to a map must say on which cell it stands. */
  predicate Placeable(p: ItemParams)
  {
    p.location.Some? ==> p.coord.Some?
  }

  /** Where an item starts: the centre of its cell when it is bound to a map,
      otherwise its own x and y. */
  function Home(p: ItemParams): (r: Point)
    requires Placeable(p)
    ensures p.location.Some? ==>
      p.location.value.Position2Coord(r.x, r.y) == CellCoord(p.coord.value.x, p.coord.value.y, 0.0, 0.0)
    ensures p.location.None? ==> r == Point(p.x, p.y)
  {
    if p.location.Some? then p.location.value.Coord2Position(p.coord.value.x, p.coord.value.y)
    else Point(p.x, p.y)
  }

  /** The tick's timeout step: a nonzero timeout goes down by one. A negative
      timeout is nonzero too. */
  function Countdown(t: int): (r: int)
    ensures t != 0 ==> r == t - 1
    ensures t == 0 ==> r == 0
  {
    if t != 0 then t - 1 else t
  }

  /** The timeout after n gated ticks. */
  function Countdowns(t: int, n: nat): int
    decreases n
  {
    if n == 0 then t else Countdowns(Countdown(t), n - 1)
  }

  /** A non-negative timeout counts down to 0 and stays there; a negative one
      keeps going down. */
  lemma {:induction false} CountdownsValue(t: int, n: nat)
    ensures t >= 0 ==> Countdowns(t, n) == if n >= t then 0 else t - n
    ensures t < 0 ==> Countdowns(t, n) == t - n
    decreases n
  {
    if n > 0 {
      CountdownsValue(Countdown(t), n - 1);
    }
  }

  /** An item of a stage. Its type, frames and map never change after it is
      created, so they are read from `params`. */
  class Item {
    const params: ItemParams
    const id: nat
    var x: real
    var y: real
    var status: int
    var orientation: int
    var times: int
    var timeout: int
    var coord: Option<CellCoord>

    /** The state createItem leaves and resetItems restores. */
    ghost predicate Pristine()
      reads this
    {
      && Placeable(params)
      && Point(x, y) == Home(params)
      && status == params.status && orientation == params.orientation
      && times == params.times && timeout == params.timeout && coord == params.coord
    }

    /** new Item(options), placed on its map as createItem does, numbered id. */
    constructor (p: ItemParams, id: nat)
      requires Placeable(p)
      ensures params == p && this.id == id && Pristine()
    {
      params := p;
      this.id := id;
      var h := Home(p);
      x, y := h.x, h.y;
      status, orientation := p.status, p.orientation;
      times, timeout, coord := p.times, p.timeout, p.coord;
    }

    /** What one tick on frame f does to the item: its cycle counter follows
        the frame; when it is active (its stage runs and it is not paused) its
        map cell is read back from its position and its timeout counts down.
        Position and status change only through the item's own update, which
        is not part of this model. */
    twostate predicate Advanced(f: nat, active: bool)
      reads this
    {
      && x == old(x) && y == old(y) && status == old(status) && orientation == old(orientation)
      && times == Cycles(f, params.frames, old(times))
      && timeout == (if active then Countdown(old(timeout)) else old(timeout))
      && coord == (if active && params.location.Some? then Some(params.location.value.Position2Coord(x, y)) else old(coord))
    }

    /** The tick body for one item. */
    method Advance(f: nat, active: bool)
      modifies this`times, this`timeout, this`coord
      ensures Advanced(f, active)
    {
      if f % params.frames == 0 {
        times := f / params.frames;
      }
      if active {
        if params.location.Some? {
          coord := Some(params.location.value.Position2Coord(x, y));
        }
        if timeout != 0 {
          timeout := timeout - 1;
        }
      }
    }

    /** resetItems for one item: settings and parameters again, then back to
        the centre of its cell. */
    method Reset()
      requires Placeable(params)
      modifies this
      ensures Pristine()
    {
      var h := Home(params);
      x, y := h.x, h.y;
      status, orientation := params.status, params.orientation;
      times, timeout, coord := params.times, params.timeout, params.coord;
    }
  }

  /** A stage's settings after the defaults are merged with its parameters. */
  datatype StageParams = StageParams(index: int, status: int, timeout: int)

  /** The items of `items` whose type is `kind`, in order. */
  function OfKind(items: seq<Item>, kind: int): (r: seq<Item>)
    ensures |r| <= |items|
    ensures forall it :: it in r ==> it in items && it.params.kind == kind
    ensures forall i :: 0 <= i < |items| && items[i].params.kind == kind ==> items[i] in r
  {
    if items == [] then []
    else if items[0].params.kind == kind then [items[0]] + OfKind(items[1..], kind)
    else OfKind(items[1..], kind)
  }

  /** Filtering twice by the same type changes nothing more. */
  lemma {:induction false} OfKindIdempotent(items: seq<Item>, kind: int)
    ensures OfKind(OfKind(items, kind), kind) == OfKind(items, kind)
  {
    if items != [] {
      OfKindIdempotent(items[1..], kind);
      if items[0].params.kind == kind {
        assert ([items[0]] + OfKind(items[1..], kind))[1..] == OfKind(items[1..], kind);
      }
    }
  }

  /** Filtering a concatenation filters each part. */
  lemma {:induction false} OfKindAppend(a: seq<Item>, b: seq<Item>, kind: int)
    ensures OfKind(a + b, kind) == OfKind(a, kind) + OfKind(b, kind)
  {
    if a == [] {
      assert a + b == b;
    } else {
      assert (a + b)[1..] == a[1..] + b;
      OfKindAppend(a[1..], b, kind);
    }
  }

  /** A stage: its maps and items, numbered by position. The maps and items
      lists are never replaced, only appended to. */
  class Stage {
    const params: StageParams
    var index: int
    var status: int
    var timeout: int
    var maps: seq<GridMap>
    var items: seq<Item>

    /** Each map and item carries its position as its id; an item bound to a
        map has a cell. */
    ghost predicate Valid()
      reads this`maps, this`items
    {
      && (forall i :: 0 <= i < |maps| ==> maps[i].id == i && |maps[i].params.data| > 0)
      && (forall i :: 0 <= i < |items| ==> items[i].id == i && Placeable(items[i].params))
    }

    /** The state reset leaves: settings and parameters again, status 1, every
        item and map back in its starting state. */
    ghost predicate Restarted()
      reads this, maps, items
    {
      && index == params.index && status == 1 && timeout == params.timeout
      && (forall i :: 0 <= i < |maps| ==> maps[i].Pristine())
      && (forall i :: 0 <= i < |items| ==> items[i].Pristine())
    }

    /** new Stage(options). */
    constructor (p: StageParams)
      ensures Valid() && params == p && maps == [] && items == []
      ensures index == p.index && status == p.status && timeout == p.timeout
    {
      params := p;
      index, status, timeout := p.index, p.status, p.timeout;
      maps, items := [], [];
    }

    /** createItem: an item bound to a map without a cell throws a TypeError
        (reading `coord.x` of null); otherwise the item is numbered by the
        count so far, placed, and appended. */
    method CreateItem(p: ItemParams) returns (r: Outcome<Item>)
      requires Valid()
      modifies this`items
      ensures Valid()
      ensures r.Thrown? <==> !Placeable(p)
      ensures r.Thrown? ==> r.error == TypeError && items == old(items)
      ensures r.Ok? ==> fresh(r.value) && items == old(items) + [r.value]
      ensures r.Ok? ==> r.value.id == |old(items)| && r.value.params == p && r.value.Pristine()
    {
      if !Placeable(p) {
        return Thrown(TypeError);
      }
      var item := new Item(p, |items|);
      items := items + [item];
      r := Ok(item);
    }

    /** getItemsByType. */
    function ItemsByType(kind: int): (r: seq<Item>)
      reads this
      ensures forall it :: it in r ==> it in items && it.params.kind == kind
      ensures forall i :: 0 <= i < |items| && items[i].params.kind == kind ==> items[i] in r
    {
      OfKind(items, kind)
    }

    /** createMap: a map whose cells have no first row throws a TypeError
        (reading `data[0].length`); otherwise the map gets a copy of the cells
        and their dimensions, is numbered by the count so far, and appended. */
    method CreateMap(p: MapParams) returns (r: Outcome<GridMap>)
      requires Valid()
      modifies this`maps
      ensures Valid()
      ensures r.Thrown? <==> |p.data| == 0
      ensures r.Thrown? ==> r.error == TypeError && maps == old(maps)
      ensures r.Ok? ==> fresh(r.value) && maps == old(maps) + [r.value]
      ensures r.Ok? ==> r.value.id == |old(maps)| && r.value.params == p && r.value.Valid() && r.value.Pristine()
    {
      if |p.data| == 0 {
        return Thrown(TypeError);
      }
      var grid := new GridMap(p, |maps|);
      maps := maps + [grid];
      r := Ok(grid);
    }

    /** resetItems: status 1, and every item back to its starting state. */
    method ResetItems()
      requires Valid()
      modifies this`status, items
      ensures Valid() && status == 1
      ensures forall i :: 0 <= i < |items| ==> items[i].Pristine()
    {
      status := 1;
      var i := 0;
      while i < |items|
        invariant 0 <= i <= |items|
        invariant status == 1
        invariant forall j :: 0 <= j < i ==> items[j].Pristine()
      {
        items[i].Reset();
        i := i + 1;
      }
    }

    /** resetMaps: status 1, and every map back to a copy of its construction
        cells with matching dimensions, whatever was set since. */
    method ResetMaps()
      requires Valid()
      modifies this`status, maps
      ensures Valid() && status == 1
      ensures forall i :: 0 <= i < |maps| ==> maps[i].Pristine()
    {
      status := 1;
      var i := 0;
      while i < |maps|
        invariant 0 <= i <= |maps|
        invariant status == 1
        invariant forall j :: 0 <= j < i ==> maps[j].Pristine()
      {
        maps[i].Reset();
        i := i + 1;
      }
    }

    /** What one tick on frame f does to the stage: its timeout counts down;
        while it runs, the map after map number `index` follows the frame; every
        item advances, active when the stage runs and the item is not paused. */
    twostate predicate Advanced(f: nat)
      reads this, maps, items
    {
      && index == old(index) && status == old(status) && maps == old(maps) && items == old(items)
      && timeout == Countdown(old(timeout))
      && (forall j :: 0 <= j < |maps| ==>
            && maps[j].data == old(maps[j].data)
            && maps[j].xLength == old(maps[j].xLength) && maps[j].yLength == old(maps[j].yLength)
            && maps[j].times == if status == 1 && j == index + 1 then Cycles(f, maps[j].params.frames, old(maps[j].times)) else old(maps[j].times))
      && (forall j :: 0 <= j < |items| ==> items[j].Advanced(f, status == 1 && old(items[j].status) != 2))
    }

    /** The tick body for one stage, on frame f. */
    method Advance(f: nat)
      requires Valid()
      modifies this`timeout, maps, items
      ensures Valid() && Advanced(f)
    {
      if timeout != 0 {
        timeout := timeout - 1;
      }
      CountNext(f);
      AdvanceItems(f);
    }

    /** The tick's update of the map after map number `index`, while the stage runs. */
    method CountNext(f: nat)
      requires Valid()
      modifies maps
      ensures forall j :: 0 <= j < |maps| ==>
        && maps[j].data == old(maps[j].data)
        && maps[j].xLength == old(maps[j].xLength) && maps[j].yLength == old(maps[j].yLength)
        && maps[j].times == if status == 1 && j == index + 1 then Cycles(f, maps[j].params.frames, old(maps[j].times)) else old(maps[j].times)
    {
      if status == 1 && 0 <= index + 1 < |maps| {
        maps[index + 1].Count(f);
      }
    }

    /** The `items.forEach` of the tick. */
    method AdvanceItems(f: nat)
      requires Valid()
      modifies items
      ensures forall j :: 0 <= j < |items| ==> items[j].Advanced(f, status == 1 && old(items[j].status) != 2)
    {
      var i := 0;
      while i < |items|
        invariant 0 <= i <= |items|
        invariant forall j :: 0 <= j < i ==> items[j].Advanced(f, status == 1 && old(items[j].status) != 2)
        invariant forall j :: i <= j < |items| ==> unchanged(items[j])
      {
        items[i].Advance(f, status == 1 && items[i].status != 2);
        i := i + 1;
      }
    }

    /** reset: settings and parameters again (the maps and items lists stay the
        same lists), then resetItems and resetMaps. */
    method Reset()
      requires Valid()
      modifies this`index, this`status, this`timeout, maps, items
      ensures Valid() && Restarted()
      ensures maps == old(maps) && items == old(items)
    {
      index, status, timeout := params.index, params.status, params.timeout;
      ResetItems();
      ResetMaps();
    }
  }
}
