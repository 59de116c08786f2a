/** Where the zone believes the monsters are: GameServer/Monster/MonsterManager.cpp:245-257 reports a
    move only when it is large enough, and a respawn (line 153) not at all.
 */
module MonsterSectors {
  import opened Wrappers
  import opened Geometry
  import opened ZoneIndex
  import opened MonsterAI
  import opened MonsterRuns
  import opened GameServer

  /** The monster is listed in the sector of its position and in no other. */
  ghost predicate Located(layout: Layout, placed: set<Placement>, id: nat, m: Mon)
    requires layout.Positive()
  {
    forall c: Cell :: (id, c) in placed <==> CellOfMonster(layout, m) == Some(c)
  }

  /** The sectors after one task of the monster. */
  function StepSectors(sqrt: real -> real, layout: Layout, placed: set<Placement>, id: nat, m: Mon, e: Event):
      set<Placement>
    requires layout.Positive()
  {
    if e.AiTurn? then Resettled(layout, placed, id, m, Step(sqrt, m, e)) else placed
  }

  /** The turn leaves the monster in its cell, or it is a step of a living monster by more than the
      tolerance on an axis, from a point of the map to another one. */
  predicate KeepsUp(layout: Layout, was: Mon, now: Mon)
    requires layout.Positive()
  {
    CellOfMonster(layout, was) == CellOfMonster(layout, now) ||
    (&& was.state != DEAD
     && (Abs(was.position.x - now.position.x) > 0.05 || Abs(was.position.y - now.position.y) > 0.05)
     && layout.InMap(was.position.x, was.position.y) && layout.InMap(now.position.x, now.position.y))
  }

  lemma OtherTasksStay(sqrt: real -> real, m: Mon, e: Event)
    requires !e.AiTurn?
    ensures Step(sqrt, m, e).position == m.position
  {
  }

  lemma StepKeepsLocatedIff(sqrt: real -> real, layout: Layout, placed: set<Placement>, id: nat, m: Mon, e: Event)
    requires layout.Positive() && Located(layout, placed, id, m)
    ensures Located(layout, StepSectors(sqrt, layout, placed, id, m, e), id, Step(sqrt, m, e))
       <==> KeepsUp(layout, m, Step(sqrt, m, e))
  {
    var next := Step(sqrt, m, e);
    var from, to := CellOfMonster(layout, m), CellOfMonster(layout, next);
    if !e.AiTurn? {
      OtherTasksStay(sqrt, m, e);
    }
    if from != to {
      var after := StepSectors(sqrt, layout, placed, id, m, e);
      if from.Some? {
        assert (id, from.value) in placed;
      }
      if to.Some? {
        assert (id, to.value) !in placed;
      }
      if KeepsUp(layout, m, next) {
        forall c: Cell ensures (id, c) in after <==> to == Some(c) {
          assert (id, c) in placed <==> from == Some(c);
        }
      } else {
        assert after == placed;
      }
    }
  }

  /** At every moment of the run the zone knows where the monster is. */
  ghost predicate AlwaysLocated(sqrt: real -> real, layout: Layout, placed: set<Placement>, id: nat, m: Mon,
                                events: seq<Event>)
    requires layout.Positive()
    decreases |events|
  {
    Located(layout, placed, id, m) &&
    (events == [] ||
     AlwaysLocated(sqrt, layout, StepSectors(sqrt, layout, placed, id, m, events[0]), id, Step(sqrt, m, events[0]),
                   events[1..]))
  }

  predicate AlwaysKeepsUp(sqrt: real -> real, layout: Layout, m: Mon, events: seq<Event>)
    requires layout.Positive()
    decreases |events|
  {
    events == [] ||
    (KeepsUp(layout, m, Step(sqrt, m, events[0])) &&
     AlwaysKeepsUp(sqrt, layout, Step(sqrt, m, events[0]), events[1..]))
  }

  /** On every run: the zone always knows the monster's sector if and only if no task takes the monster
      to another cell as a respawn, by a small move, or over the edge of the map. */
  lemma {:induction false} AlwaysLocatedIff(sqrt: real -> real, layout: Layout, placed: set<Placement>, id: nat, m: Mon,
                                            events: seq<Event>)
    requires layout.Positive() && Located(layout, placed, id, m)
    ensures AlwaysLocated(sqrt, layout, placed, id, m, events) <==> AlwaysKeepsUp(sqrt, layout, m, events)
    decreases |events|
  {
    if events != [] {
      var e := events[0];
      var next, after := Step(sqrt, m, e), StepSectors(sqrt, layout, placed, id, m, e);
      StepKeepsLocatedIff(sqrt, layout, placed, id, m, e);
      if Located(layout, after, id, next) {
        AlwaysLocatedIff(sqrt, layout, after, id, next, events[1..]);
      }
    }
  }

  /** A monster that died away from the cell of its spawn point is still listed where it died when it
      respawns, and not where it stands. */
  lemma RespawnIsNotReported(sqrt: real -> real, layout: Layout, placed: set<Placement>, id: nat, m: Mon, dt: real,
                             view: View)
    requires layout.Positive() && Located(layout, placed, id, m)
    requires m.state == DEAD && m.deadTimer + dt >= m.respawnSec as real
    requires CellOfMonster(layout, m) != layout.CellOf(m.spawn.x, m.spawn.y)
    ensures var next, after := Turn(sqrt, m, dt, view), StepSectors(sqrt, layout, placed, id, m, AiTurn(dt, view));
            && next.state == IDLE && next.position == m.spawn
            && (forall c :: CellOfMonster(layout, m) == Some(c) ==> (id, c) in after)
            && (forall c :: CellOfMonster(layout, next) == Some(c) ==> (id, c) !in after)
  {
  }

  lemma TurnSparesOthers(layout: Layout, placed: set<Placement>, id: nat, was: Mon, now: Mon, other: nat, c: Cell)
    requires layout.Positive() && other != id
    ensures (other, c) in Resettled(layout, placed, id, was, now) <==> (other, c) in placed
  {
  }

  ghost predicate DistinctIds(log: seq<TurnLog>) {
    forall i, k :: 0 <= i < k < |log| ==> log[i].id != log[k].id
  }

  /** In a tick with distinct monster ids, every monster is listed as after its own turn alone. */
  lemma {:induction false} SectorsOfTick(sqrt: real -> real, layout: Layout, dt: real, log: seq<TurnLog>,
                                         placed: set<Placement>, j: nat, c: Cell)
    requires layout.Positive() && j < |log| && DistinctIds(log)
    ensures (log[j].id, c) in SectorsAfter(sqrt, layout, dt, log, placed) <==>
            (log[j].id, c) in StepSectors(sqrt, layout, placed, log[j].id, log[j].mon, AiTurn(dt, log[j].view))
    decreases |log|
  {
    var n := |log| - 1;
    var init, t := log[..n], log[n];
    var before := SectorsAfter(sqrt, layout, dt, init, placed);
    if j < n {
      SectorsOfTick(sqrt, layout, dt, init, placed, j, c);
      TurnSparesOthers(layout, before, t.id, t.mon, Turn(sqrt, t.mon, dt, t.view), log[j].id, c);
    } else {
      forall d: Cell ensures (t.id, d) in before <==> (t.id, d) in placed {
        NotInTick(sqrt, layout, dt, init, placed, t.id, d);
      }
    }
  }

  lemma {:induction false} NotInTick(sqrt: real -> real, layout: Layout, dt: real, log: seq<TurnLog>,
                                     placed: set<Placement>, id: nat, c: Cell)
    requires layout.Positive() && forall i :: 0 <= i < |log| ==> log[i].id != id
    ensures (id, c) in SectorsAfter(sqrt, layout, dt, log, placed) <==> (id, c) in placed
    decreases |log|
  {
    if log != [] {
      var n := |log| - 1;
      var t := log[n];
      NotInTick(sqrt, layout, dt, log[..n], placed, id, c);
      TurnSparesOthers(layout, SectorsAfter(sqrt, layout, dt, log[..n], placed), t.id, t.mon,
                       Turn(sqrt, t.mon, dt, t.view), id, c);
    }
  }
}
