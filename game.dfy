/** The game (game.js "Game"): the queue of stages, the index of the current
    one, moving between stages, and the counters of the frame callback. */
module Game {
  import opened Outcomes
  import opened Maps
  import opened Stages

  class Game {
    var stages: seq<Stage>
    var index: int
    var frame: nat

    /** The stages are distinct objects, each consistent. */
    ghost predicate Valid()
      reads this, stages
    {
      && (forall i, j :: 0 <= i < j < |stages| ==> stages[i] != stages[j])
      && (forall i :: 0 <= i < |stages| ==> stages[i].Valid())
    }

    /** The maps of stage number i; none for a missing stage. */
    ghost function MapsOf(i: int): seq<GridMap>
      reads this, stages
    {
      if 0 <= i < |stages| then stages[i].maps else []
    }

    /** The items of stage number i; none for a missing stage. */
    ghost function ItemsOf(i: int): seq<Item>
      reads this, stages
    {
      if 0 <= i < |stages| then stages[i].items else []
    }

    /** Stage number i alone; nothing for a missing stage. */
    ghost function StageAt(i: int): set<object>
      reads this
    {
      if 0 <= i < |stages| then {stages[i] as object} else {}
    }

    constructor ()
      ensures Valid() && stages == [] && index == 0 && frame == 0
    {
      stages, index, frame := [], 0, 0;
    }

    /** init: back to the first stage, with the frame counter of a fresh start. */
    method Init()
      modifies this`index, this`frame
      ensures index == 0 && frame == 0
    {
      index, frame := 0, 0;
    }

    /** createStage: the new stage is numbered by the count so far and appended. */
    method CreateStage(p: StageParams) returns (s: Stage)
      requires Valid()
      modifies this`stages
      ensures Valid() && fresh(s) && stages == old(stages) + [s]
      ensures s.index == |old(stages)| && s.params == p && s.status == p.status && s.timeout == p.timeout
      ensures s.maps == [] && s.items == []
    {
      s := new Stage(p);
      s.index := |stages|;
      stages := stages + [s];
    }

    /** setStage(i): the current stage gets status 0 (a TypeError when there is
        none); then stage i becomes current, gets status 1 and is reset (a
        TypeError, after the switch, when there is no stage i). */
    method SetStage(i: int) returns (r: Outcome<Stage>)
      requires Valid()
      modifies this`index, StageAt(index), StageAt(i), MapsOf(i), ItemsOf(i)
      ensures Valid() && stages == old(stages)
      ensures !(0 <= old(index) < |stages|) ==> r == Thrown(TypeError) && index == old(index)
      ensures !(0 <= old(index) < |stages|) ==>
        && unchanged(StageAt(i))
        && (forall j :: 0 <= j < |MapsOf(i)| ==> unchanged(MapsOf(i)[j]))
        && (forall j :: 0 <= j < |ItemsOf(i)| ==> unchanged(ItemsOf(i)[j]))
      ensures 0 <= old(index) < |stages| ==> index == i
      ensures 0 <= old(index) < |stages| && old(index) != i ==>
        var s := stages[old(index)];
        s.index == old(s.index) && s.timeout == old(s.timeout) && s.maps == old(s.maps) && s.items == old(s.items)
      ensures 0 <= old(index) < |stages| && !(0 <= i < |stages|) ==>
        r == Thrown(TypeError) && stages[old(index)].status == 0
      ensures 0 <= old(index) < |stages| && 0 <= i < |stages| ==>
        r == Ok(stages[i]) && stages[i].Restarted()
        && stages[i].maps == old(stages[i].maps) && stages[i].items == old(stages[i].items)
        && (old(index) != i ==> stages[old(index)].status == 0)
    {
      if !(0 <= index < |stages|) {
        return Thrown(TypeError);
      }
      stages[index].status := 0;
      index := i;
      if !(0 <= i < |stages|) {
        return Thrown(TypeError);
      }
      Activate(i);
      r := Ok(stages[i]);
    }

    /** The end of setStage: stage i gets status 1 and is reset. */
    method Activate(i: int)
      requires Valid() && 0 <= i < |stages|
      modifies StageAt(i), MapsOf(i), ItemsOf(i)
      ensures Valid() && stages[i].Restarted()
      ensures stages[i].maps == old(stages[i].maps) && stages[i].items == old(stages[i].items)
      ensures forall j :: 0 <= j < |stages| && j != i ==> stages[j].status == old(stages[j].status)
    {
      var s := stages[i];
      s.status := 1;
      s.Reset();
    }

    /** nextStage: past the last stage it throws; otherwise it moves the index
        on first and then calls setStage, so it is the new stage whose status is
        zeroed before the reset, and the stage left behind keeps its status. */
    method NextStage() returns (r: Outcome<Stage>)
      requires Valid()
      modifies this`index, StageAt(index + 1), MapsOf(index + 1), ItemsOf(index + 1)
      ensures Valid() && stages == old(stages)
      ensures old(index) >= |stages| - 1 ==> r == Thrown(UnfoundStage) && index == old(index)
      ensures old(index) < |stages| - 1 ==> index == old(index) + 1
      ensures -1 <= old(index) < |stages| - 1 ==> r == Ok(stages[index]) && stages[index].Restarted()
      ensures -1 <= old(index) < |stages| - 1 ==>
        stages[index].maps == old(stages[index + 1].maps) && stages[index].items == old(stages[index + 1].items)
      ensures old(index) < -1 ==> r == Thrown(TypeError)
      ensures 0 <= old(index) < |stages| ==> stages[old(index)].status == old(stages[index].status)
      ensures 0 <= old(index) < |stages| ==> unchanged(stages[old(index)])
    {
      if index < |stages| - 1 {
        index := index + 1;
        r := SetStage(index);
      } else {
        r := Thrown(UnfoundStage);
      }
    }

    /** One run of the frame callback: a TypeError when there is no current
        stage; otherwise, when the stage's update gate lets the tick through,
        the frame counter moves on and the current stage advances on that
        frame. */
    method Tick(gate: bool) returns (r: Outcome<()>)
      requires Valid()
      modifies this`frame, StageAt(index), MapsOf(index), ItemsOf(index)
      ensures Valid() && stages == old(stages) && index == old(index)
      ensures !(0 <= index < |stages|) ==> r == Thrown(TypeError) && frame == old(frame)
      ensures 0 <= index < |stages| && !gate ==> r == Ok(()) && frame == old(frame)
      ensures 0 <= index < |stages| && !gate ==>
        && unchanged(stages[index])
        && (forall j :: 0 <= j < |stages[index].maps| ==> unchanged(stages[index].maps[j]))
        && (forall j :: 0 <= j < |stages[index].items| ==> unchanged(stages[index].items[j]))
      ensures 0 <= index < |stages| && gate ==> r == Ok(()) && frame == old(frame) + 1 && stages[index].Advanced(frame)
    {
      if !(0 <= index < |stages|) {
        return Thrown(TypeError);
      }
      r := Ok(());
      if gate {
        var f := frame + 1;
        stages[index].Advance(f);
        frame := f;
      }
      assert forall j :: 0 <= j < |stages| ==> stages[j].maps == old(stages[j].maps) && stages[j].items == old(stages[j].items);
    }
  }
}
