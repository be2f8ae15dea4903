/** The grid map (game.js "Map"): a 2-D grid of cell codes, the cell <-> pixel
    transforms, and the map objects a stage owns. */
module Maps {

  /** The cells as the source stores them: rows of integer cell codes. */
  type Cells = seq<seq<int>>

  /** A cell coordinate: column x, row y. */
  datatype Pos = Pos(x: int, y: int)

  /** A cell width in pixels. */
  type Size = r: real | r > 0.0 witness 1.0

  /** A cycle length in frames. */
  type Positive = n: int | n > 0 witness 1

  /** A non-empty rectangular grid: the shape every maze has. */
  predicate WellFormed(data: Cells)
  {
    |data| > 0 && |data[0]| > 0 && forall r :: 0 <= r < |data| ==> |data[r]| == |data[0]|
  }

  /** Cell p exists in the grid (columns counted on the first row). */
  predicate Inside(data: Cells, p: Pos)
  {
    |data| > 0 && 0 <= p.y < |data| && 0 <= p.x < |data[0]|
  }

  /** The finder's _getValue, and Map.get on a map's data: the code of cell
      (x, y), or -1 when the row or the column is missing. */
  function Value(data: Cells, x: int, y: int): (v: int)
    ensures 0 <= y < |data| && 0 <= x < |data[y]| ==> v == data[y][x]
    ensures !(0 <= y < |data| && 0 <= x < |data[y]|) ==> v == -1
  {
    if 0 <= y < |data| && 0 <= x < |data[y]| then data[y][x] else -1
  }

  /** Map.set on the cells: cell (x, y) takes value v when it exists; every
      other cell, and every row length, is unchanged. */
  function Write(data: Cells, x: int, y: int, v: int): (r: Cells)
    ensures |r| == |data|
    ensures forall j :: 0 <= j < |r| ==> |r[j]| == |data[j]|
    ensures forall cx, cy ::
      Value(r, cx, cy) == (if cx == x && cy == y && 0 <= y < |data| && 0 <= x < |data[y]| then v else Value(data, cx, cy))
  {
    if 0 <= y < |data| && 0 <= x < |data[y]| then data[y := data[y][x := v]] else data
  }

  /** JavaScript's % on integers: the remainder takes the sign of the dividend. */
  function JsRem(a: int, b: int): (r: int)
    requires b > 0
    ensures a >= 0 ==> 0 <= r < b && r == a % b
  {
    if a >= 0 then a % b else -((-a) % b)
  }

  /** Rounding toward zero. */
  function Trunc(q: real): int
  {
    if q >= 0.0 then q.Floor else -((-q).Floor)
  }

  /** JavaScript's % on numbers, for a positive divisor. */
  function RealRem(a: real, b: real): (r: real)
    requires b > 0.0
    ensures a >= 0.0 ==> 0.0 <= r < b && r == a - b * (a / b).Floor as real
  {
    FloorBounds(a, b);
    a - b * Trunc(a / b) as real
  }

  lemma FloorBounds(a: real, b: real)
    requires b > 0.0
    ensures b * (a / b).Floor as real <= a < b * (a / b).Floor as real + b
  {
    var q := a / b;
    var f := q.Floor as real;
    assert a == b * q;
    MulOrder(f, q, b);
    MulOrder(q, f + 1.0, b);
    assert b * (f + 1.0) == b * f + b;
  }

  /** Multiplying by a positive number keeps the order. */
  lemma MulOrder(p: real, q: real, s: real)
    requires s > 0.0
    ensures p <= q ==> s * p <= s * q
    ensures p < q ==> s * p < s * q
  {
  }

  /** Dividing by a positive number keeps the order. */
  lemma DivBounds(d: real, s: real, lo: real, hi: real)
    requires s > 0.0 && s * lo <= d < s * hi
    ensures lo <= d / s < hi
  {
    var q := d / s;
    assert d == s * q;
    MulOrder(q, lo, s);
    MulOrder(hi, q, s);
  }

  lemma SquareOfNegation(a: real)
    ensures (-a) * (-a) == a * a
  {
  }

  function Abs(r: real): real
  {
    if r < 0.0 then -r else r
  }

  /** A pixel position on the canvas. */
  datatype Point = Point(x: real, y: real)

  /** What position2coord returns: the cell holding a pixel, and the signed
      per-axis distances fx, fy from that cell's centre (their squared sum is the
      square of the source's offset). */
  datatype CellCoord = CellCoord(x: int, y: int, fx: real, fy: real)

  /** The construction parameters of a map that the core reads. */
  datatype MapParams = MapParams(x: real, y: real, size: Size, data: Cells, frames: Positive, cache: bool)

  /** The pixel centre of cell c on an axis whose origin is o and whose cells are s wide. */
  function Centre(o: real, s: real, c: int): real
  {
    o + c as real * s + s / 2.0
  }

  /** position2coord on one axis: the cell holding pixel p, and the residual
      |p - o| % s - s/2, which is plus or minus p's distance from that cell's centre. */
  function AxisCell(o: real, s: real, p: real): (r: (int, real))
    requires s > 0.0
    ensures InCell(o, s, p, r.0, r.1)
  {
    var d := p - o;
    FloorBounds(d, s);
    if d >= 0.0 then
      AxisNonNegative(o, s, p);
      ((d / s).Floor, RealRem(Abs(d), s) - s / 2.0)
    else
      AxisNegative(o, s, p);
      ((d / s).Floor, RealRem(Abs(d), s) - s / 2.0)
  }

  lemma AxisNonNegative(o: real, s: real, p: real)
    requires s > 0.0 && p - o >= 0.0
    ensures RealRem(Abs(p - o), s) - s / 2.0 == p - Centre(o, s, ((p - o) / s).Floor)
  {
    var d := p - o;
    var c := (d / s).Floor;
    assert Abs(d) == d;
    assert RealRem(d, s) == d - s * c as real;
    assert c as real * s == s * c as real;
  }

  lemma AxisNegative(o: real, s: real, p: real)
    requires s > 0.0 && p - o < 0.0
    ensures var c := ((p - o) / s).Floor;
      var fx := RealRem(Abs(p - o), s) - s / 2.0;
      fx == p - Centre(o, s, c) || fx == Centre(o, s, c) - p
  {
    var d := p - o;
    var a := -d;
    assert Abs(d) == a;
    var g := (a / s).Floor;
    FloorBounds(a, s);
    var r := a - s * g as real;
    assert RealRem(a, s) == r;
    if r == 0.0 {
      NegativeExact(d, s, g);
      assert (d / s).Floor == -g;
      assert Centre(o, s, -g) == o - g as real * s + s / 2.0;
      assert g as real * s == s * g as real;
    } else {
      NegativeInexact(d, s, g);
      assert (d / s).Floor == -g - 1;
      assert Centre(o, s, -g - 1) == o - g as real * s - s / 2.0;
      assert g as real * s == s * g as real;
    }
  }

  lemma NegativeExact(d: real, s: real, g: int)
    requires s > 0.0 && d == -(s * g as real)
    ensures (d / s).Floor == -g
  {
    assert d / s == -(g as real);
  }

  lemma NegativeInexact(d: real, s: real, g: int)
    requires s > 0.0
    requires -(s * g as real) - s < d < -(s * g as real)
    ensures (d / s).Floor == -g - 1
  {
    assert s * (-g - 1) as real == -(s * g as real) - s;
    assert s * (-g) as real == -(s * g as real);
    DivBounds(d, s, (-g - 1) as real, (-g) as real);
  }

  /** The centre of cell c maps back to c with a zero residual. */
  lemma CentreRoundTrip(o: real, s: real, c: int)
    requires s > 0.0
    ensures AxisCell(o, s, Centre(o, s, c)) == (c, 0.0)
  {
    var p := Centre(o, s, c);
    assert p - o == s * (c as real + 0.5);
    DivBounds(p - o, s, c as real, c as real + 1.0);
    var r := AxisCell(o, s, p);
    assert r.0 == c;
  }

  /** Pixel p lies in cell c, and f is plus or minus its distance from the cell's centre. */
  ghost predicate InCell(o: real, s: real, p: real, c: int, f: real)
    requires s > 0.0
  {
    && o + c as real * s <= p < o + c as real * s + s
    && -(s / 2.0) <= f < s / 2.0
    && (f == p - Centre(o, s, c) || f == Centre(o, s, c) - p)
  }

  /** The residual squared is the squared distance from the cell's centre. */
  lemma AxisSquare(o: real, s: real, p: real)
    requires s > 0.0
    ensures var r := AxisCell(o, s, p);
      r.1 * r.1 == (p - Centre(o, s, r.0)) * (p - Centre(o, s, r.0))
  {
    var r := AxisCell(o, s, p);
    SquareOfNegation(p - Centre(o, s, r.0));
  }

  /** The tick's cycle counter: on a frame f that completes a cycle of
      `frames` frames, `times` becomes the number of cycles completed;
      otherwise it keeps its value. */
  function Cycles(f: nat, frames: Positive, times: int): (r: int)
    ensures f % frames == 0 ==> r * frames == f
    ensures f % frames != 0 ==> r == times
  {
    if f % frames == 0 then f / frames else times
  }

  /** A counter that held the number of completed cycles still does one frame later. */
  lemma CyclesTrack(f: nat, frames: Positive, times: int)
    requires times == f / frames
    ensures Cycles(f + 1, frames, times) == (f + 1) / frames
  {
    var q, r := (f + 1) / frames, (f + 1) % frames;
    if r != 0 {
      assert f == q * frames + (r - 1);
      DivUnique(f, frames, q, r - 1);
    }
  }

  lemma DivUnique(a: int, b: Positive, q: int, r: int)
    requires a == q * b + r && 0 <= r < b
    ensures a / b == q
  {
    var q', r' := a / b, a % b;
    assert a == q' * b + r';
    if q' < q {
      MulAtLeast(q - q', b);
    } else if q' > q {
      MulAtLeast(q' - q, b);
    }
  }

  lemma {:induction false} MulAtLeast(n: int, b: int)
    requires n >= 1 && b >= 1
    ensures n * b >= b
  {
    if n > 1 {
      MulAtLeast(n - 1, b);
      assert n * b == (n - 1) * b + b;
    }
  }

  /** A map object of a stage. x, y, size, frames and cache only ever take
      their construction values, so they are read from `params`. */
  class GridMap {
    const params: MapParams
    const id: nat
    var data: Cells
    var xLength: int
    var yLength: int
    var times: int

    ghost predicate Valid()
      reads this
    {
      |params.data| > 0 && |data| > 0 && yLength == |data| && xLength == |data[0]|
    }

    /** new Map(options) followed by createMap's deep copy of options.data. */
    constructor (p: MapParams, id: nat)
      requires |p.data| > 0
      ensures Valid() && Pristine() && params == p && this.id == id
    {
      params := p;
      this.id := id;
      data := p.data;
      yLength := |p.data|;
      xLength := |p.data[0]|;
      times := 0;
    }

    /** The state createMap leaves and resetMaps restores: the construction-time
        cells, their dimensions, no cycle counted. */
    ghost predicate Pristine()
      reads this
    {
      |params.data| > 0 && data == params.data && yLength == |params.data| && xLength == |params.data[0]| && times == 0
    }

    /** resetMaps for one map: defaults and parameters again, and a fresh copy of
        the construction-time cells, whatever Set did since. */
    method Reset()
      requires |params.data| > 0
      modifies this
      ensures Valid() && Pristine()
    {
      data := params.data;
      yLength := |data|;
      xLength := |data[0]|;
      times := 0;
    }

    /** The tick's update of `times` for this map on frame f. */
    method Count(f: nat)
      modifies this`times
      ensures times == Cycles(f, params.frames, old(times))
    {
      if f % params.frames == 0 {
        times := f / params.frames;
      }
    }

    /** Map.get. */
    function Get(cx: int, cy: int): (v: int)
      reads this
      ensures 0 <= cy < |data| && 0 <= cx < |data[cy]| ==> v == data[cy][cx]
      ensures !(0 <= cy < |data| && 0 <= cx < |data[cy]|) ==> v == -1
    {
      Value(data, cx, cy)
    }

    /** Map.set: writes cell (cx, cy) when it exists and changes nothing else. */
    method Set(cx: int, cy: int, v: int)
      requires Valid()
      modifies this`data
      ensures Valid()
      ensures forall x, y ::
        Get(x, y) == (if x == cx && y == cy && 0 <= cy < |old(data)| && 0 <= cx < |old(data)[cy]| then v else old(Get(x, y)))
      ensures data == Write(old(data), cx, cy, v)
    {
      data := Write(data, cx, cy, v);
    }

    /** Map.coord2position: the pixel centre of cell (cx, cy). */
    function Coord2Position(cx: int, cy: int): (r: Point)
      ensures Position2Coord(r.x, r.y) == CellCoord(cx, cy, 0.0, 0.0)
    {
      CentreRoundTrip(params.x, params.size as real, cx);
      CentreRoundTrip(params.y, params.size as real, cy);
      Point(Centre(params.x, params.size as real, cx), Centre(params.y, params.size as real, cy))
    }

    /** Map.position2coord, with the offset kept as its two components: the
        cell that holds the pixel, and residuals that are plus or minus the
        pixel's distance from that cell's centre on each axis. */
    function Position2Coord(px: real, py: real): (r: CellCoord)
      ensures InCell(params.x, params.size as real, px, r.x, r.fx)
      ensures InCell(params.y, params.size as real, py, r.y, r.fy)
    {
      var ax := AxisCell(params.x, params.size as real, px);
      var ay := AxisCell(params.y, params.size as real, py);
      CellCoord(ax.0, ay.0, ax.1, ay.1)
    }
  }
}
