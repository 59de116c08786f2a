/** What whole lives of a monster keep, under any order of turns, path results and hits. */
module MonsterRuns {
  import opened Wrappers
  import opened Geometry
  import opened MonsterAI
  import ZoneIndex

  /** One task of the game strand, seen from one monster. */
  datatype Event =
    | AiTurn(dt: real, view: View)
    | PathDone(request: Request, waypoints: seq<Vec3>)
    | Struck(damage: int)
    | Buffed(add: int)

  /** Only a request in flight can finish; dead monsters are neither hit nor buffed. */
  function Step(sqrt: real -> real, m: Mon, e: Event): Mon {
    match e
    case AiTurn(dt, view) => Turn(sqrt, m, dt, view)
    case PathDone(r, waypoints) => if r in m.pending then PathResult(sqrt, m, r, waypoints) else m
    case Struck(damage) =>
      if m.state == DEAD then m
      else if TakeDamage(m, damage).hp <= 0 then Die(TakeDamage(m, damage))
      else TakeDamage(m, damage)
    case Buffed(add) => if m.state == DEAD then m else m.(hp := m.hp + add)
  }

  function Run(sqrt: real -> real, m: Mon, events: seq<Event>): Mon
    decreases |events|
  {
    if events == [] then m else Run(sqrt, Step(sqrt, m, events[0]), events[1..])
  }

  // ---- Freshness of paths ----

  /** Requests in flight have distinct issued versions and were made while hunting or going
      home; the newest one, if still in flight, leads to the current goal. */
  ghost predicate Fresh(m: Mon) {
    && (forall r :: r in m.pending ==>
          1 <= r.version <= m.version && (r.state == CHASE || r.state == ATTACK || r.state == RETURN))
    && (forall r, s :: r in m.pending && s in m.pending && r.version == s.version ==> r == s)
    && (forall r :: r in m.pending && r.version == m.version ==> r.end == m.goal)
    && (m.state == RETURN ==> m.goal == m.spawn)
  }

  /** No request in flight has the current version: whatever was requested so far is void. */
  ghost predicate Settled(m: Mon) {
    forall r :: r in m.pending ==> r.version != m.version
  }

  lemma RequestKeepsFresh(m: Mon, goal: Vec3, state: MonsterState, target: nat)
    requires Fresh(m)
    requires state == CHASE || state == ATTACK || state == RETURN
    requires state == RETURN ==> goal == m.spawn
    ensures Fresh(CalculatePath(m.(state := state, goal := goal, target := target)))
  {
  }

  lemma DecideKeepsFresh(sqrt: real -> real, m: Mon, view: View)
    requires Fresh(m)
    ensures Fresh(Decide(sqrt, m, view))
    ensures Decide(sqrt, m, view).version >= m.version
    ensures Decide(sqrt, m, view).version == m.version ==> Decide(sqrt, m, view).pending == m.pending
  {
    match m.state
    case IDLE =>
      if view.candidate.Some? {
        RequestKeepsFresh(m, view.candidate.value.1, CHASE, view.candidate.value.0);
      }
    case CHASE =>
      if Followed(sqrt, m, view) {
        RequestKeepsFresh(m, view.whereabouts.value, CHASE, m.target);
      } else {
        RequestKeepsFresh(m, m.spawn, RETURN, m.target);
      }
    case ATTACK =>
      if Followed(sqrt, m, view) {
        RequestKeepsFresh(m, view.whereabouts.value, ATTACK, m.target);
      } else {
        RequestKeepsFresh(m, m.spawn, RETURN, 0);
      }
    case _ =>
  }

  lemma UpdateKeepsFresh(sqrt: real -> real, m: Mon, dt: real)
    requires Fresh(m)
    ensures Fresh(Update(sqrt, m, dt))
    ensures Update(sqrt, m, dt).version >= m.version
    ensures Update(sqrt, m, dt).version == m.version ==> Update(sqrt, m, dt).pending == m.pending
  {
    if m.state == ATTACK && !InReach(sqrt, m) {
      RequestKeepsFresh(m, m.goal, CHASE, m.target);
    }
  }

  /** Versions never fall, and no request joins an existing version. */
  lemma StepKeepsFresh(sqrt: real -> real, m: Mon, e: Event)
    requires Fresh(m)
    ensures Fresh(Step(sqrt, m, e))
    ensures Step(sqrt, m, e).version >= m.version
    ensures Step(sqrt, m, e).version == m.version ==> Step(sqrt, m, e).pending <= m.pending
  {
    match e
    case AiTurn(dt, view) =>
      if m.state != DEAD {
        DecideKeepsFresh(sqrt, m, view);
        UpdateKeepsFresh(sqrt, Decide(sqrt, m, view), dt);
      }
    case PathDone(r, waypoints) =>
    case Struck(damage) =>
    case Buffed(add) =>
  }

  lemma {:induction false} RunKeepsFresh(sqrt: real -> real, m: Mon, events: seq<Event>)
    requires Fresh(m)
    ensures Fresh(Run(sqrt, m, events))
    decreases |events|
  {
    if events != [] {
      StepKeepsFresh(sqrt, m, events[0]);
      RunKeepsFresh(sqrt, Step(sqrt, m, events[0]), events[1..]);
    }
  }

  predicate InstallsAt(m: Mon, e: Event) {
    e.PathDone? && e.request in m.pending && Installs(m, e.request)
  }

  /** After any run of a new monster, a path result that is installed belongs to the newest
      request, leads to the current goal, which is home when returning, and finds the monster
      neither idle nor dead. */
  lemma InstalledPathIsCurrent(sqrt: real -> real, spawn: Vec3, maxHp: int, respawnSec: int, events: seq<Event>,
                               e: Event)
    requires InstallsAt(Run(sqrt, Newborn(spawn, maxHp, respawnSec), events), e)
    ensures var m := Run(sqrt, Newborn(spawn, maxHp, respawnSec), events);
            && e.request.version == m.version && e.request.end == m.goal
            && (m.state == CHASE || m.state == ATTACK || m.state == RETURN)
            && (m.state == RETURN ==> e.request.end == m.spawn)
            && Step(sqrt, m, e).path == e.waypoints
  {
    RunKeepsFresh(sqrt, Newborn(spawn, maxHp, respawnSec), events);
  }

  /** The versions of the paths installed during a run, in order. */
  function Installed(sqrt: real -> real, m: Mon, events: seq<Event>): seq<nat>
    decreases |events|
  {
    if events == [] then []
    else
      (if InstallsAt(m, events[0]) then [events[0].request.version] else []) +
      Installed(sqrt, Step(sqrt, m, events[0]), events[1..])
  }

  /** Whatever the completion order, installed versions strictly increase and never go back
      behind the version current at any earlier moment. */
  lemma {:induction false} InstalledVersionsIncrease(sqrt: real -> real, m: Mon, events: seq<Event>)
    requires Fresh(m)
    ensures forall i, j :: 0 <= i < j < |Installed(sqrt, m, events)| ==>
              Installed(sqrt, m, events)[i] < Installed(sqrt, m, events)[j]
    ensures forall i :: 0 <= i < |Installed(sqrt, m, events)| ==> m.version <= Installed(sqrt, m, events)[i]
    ensures Settled(m) ==>
              forall i :: 0 <= i < |Installed(sqrt, m, events)| ==> m.version < Installed(sqrt, m, events)[i]
    decreases |events|
  {
    if events != [] {
      var next := Step(sqrt, m, events[0]);
      StepKeepsFresh(sqrt, m, events[0]);
      InstalledVersionsIncrease(sqrt, next, events[1..]);
      if InstallsAt(m, events[0]) {
        assert next.version == m.version && Settled(next);
      }
    }
  }

  /** Nothing requested before a death or a respawn is installed after it. */
  lemma DeathAndRespawnVoidRequests(sqrt: real -> real, m: Mon, e: Event, later: seq<Event>)
    requires Fresh(m)
    requires (m.state != DEAD && Step(sqrt, m, e).state == DEAD) || (m.state == DEAD && Step(sqrt, m, e).state != DEAD)
    ensures var after := Step(sqrt, m, e);
            forall i :: 0 <= i < |Installed(sqrt, after, later)| ==> after.version < Installed(sqrt, after, later)[i]
  {
    StepKeepsFresh(sqrt, m, e);
    if e.AiTurn? && m.state != DEAD {
      TurnKeepsAlive(sqrt, m, e.dt, e.view);
    }
    assert Settled(Step(sqrt, m, e));
    InstalledVersionsIncrease(sqrt, Step(sqrt, m, e), later);
  }

  lemma TurnKeepsAlive(sqrt: real -> real, m: Mon, dt: real, view: View)
    requires m.state != DEAD
    ensures Turn(sqrt, m, dt, view).state != DEAD && Turn(sqrt, m, dt, view).hp == m.hp
    ensures Turn(sqrt, m, dt, view).deadTimer == m.deadTimer && Turn(sqrt, m, dt, view).maxHp == m.maxHp
  {
    var d := Decide(sqrt, m, view);
    assert d.state != DEAD && d.hp == m.hp && d.deadTimer == m.deadTimer && d.maxHp == m.maxHp;
  }

  // ---- Range of a hit ----

  /** Whenever a turn fires the attack callback, the target is online and within the attack
      range plus the retargeting tolerance of the monster. */
  lemma HitIsInRange(sqrt: real -> real, m: Mon, dt: real, view: View)
    requires IsSqrt(sqrt) && TurnFires(sqrt, m, dt, view)
    ensures m.state == ATTACK && view.whereabouts.Some?
    ensures Dist(sqrt, view.whereabouts.value, Turn(sqrt, m, dt, view).position) <= ATTACK_RANGE + RETARGET_EPSILON
    ensures Turn(sqrt, m, dt, view).position == m.position && Turn(sqrt, m, dt, view).target == m.target
  {
    var p, d := view.whereabouts.value, Decide(sqrt, m, view);
    DistSymmetric(sqrt, d.goal, p);
    if d.goal == p {
      Triangle(sqrt, p, d.goal, d.position);
      DistSquared(sqrt, p, p);
      EqualSquares(Dist(sqrt, p, p), 0.0);
    }
    Triangle(sqrt, p, d.goal, d.position);
  }

  // ---- Attack cadence ----

  /** The turn adds to the attack timer. */
  predicate Attacks(sqrt: real -> real, m: Mon, view: View) {
    m.state != DEAD && Decide(sqrt, m, view).state == ATTACK && InReach(sqrt, Decide(sqrt, m, view))
  }

  function Hits(sqrt: real -> real, m: Mon, events: seq<Event>): nat
    decreases |events|
  {
    if events == [] then 0
    else
      (if events[0].AiTurn? && TurnFires(sqrt, m, events[0].dt, events[0].view) then 1 else 0) +
      Hits(sqrt, Step(sqrt, m, events[0]), events[1..])
  }

  /** Total time of the turns spent attacking in range. */
  function AttackTime(sqrt: real -> real, m: Mon, events: seq<Event>): real
    decreases |events|
  {
    if events == [] then 0.0
    else
      (if events[0].AiTurn? && Attacks(sqrt, m, events[0].view) then events[0].dt else 0.0) +
      AttackTime(sqrt, Step(sqrt, m, events[0]), events[1..])
  }

  predicate TicksBelow(events: seq<Event>, limit: real) {
    forall i :: 0 <= i < |events| && events[i].AiTurn? ==> 0.0 <= events[i].dt < limit
  }

  ghost predicate TimeFlows(events: seq<Event>) {
    forall i :: 0 <= i < |events| && events[i].AiTurn? ==> 0.0 <= events[i].dt
  }

  lemma TimerStep(sqrt: real -> real, m: Mon, e: Event)
    ensures Step(sqrt, m, e).attackTimer == m.attackTimer
              + (if e.AiTurn? && Attacks(sqrt, m, e.view) then e.dt else 0.0)
              - (if e.AiTurn? && TurnFires(sqrt, m, e.dt, e.view) then ATTACK_COOLDOWN else 0.0)
    ensures e.AiTurn? && TurnFires(sqrt, m, e.dt, e.view) ==>
              Attacks(sqrt, m, e.view) && m.attackTimer + e.dt >= ATTACK_COOLDOWN
    ensures e.AiTurn? && Attacks(sqrt, m, e.view) && !TurnFires(sqrt, m, e.dt, e.view) ==>
              m.attackTimer + e.dt < ATTACK_COOLDOWN
  {
    if e.AiTurn? && m.state != DEAD {
      var d := Decide(sqrt, m, e.view);
      assert d.attackTimer == m.attackTimer;
    }
  }

  /** The timer is a ledger: attack time in, one cooldown out per hit, never negative. */
  lemma {:induction false} TimerLedger(sqrt: real -> real, m: Mon, events: seq<Event>)
    requires TimeFlows(events) && 0.0 <= m.attackTimer
    ensures Run(sqrt, m, events).attackTimer
         == m.attackTimer + AttackTime(sqrt, m, events) - ATTACK_COOLDOWN * Hits(sqrt, m, events) as real
    ensures 0.0 <= Run(sqrt, m, events).attackTimer && 0.0 <= AttackTime(sqrt, m, events)
    decreases |events|
  {
    if events != [] {
      TimerStep(sqrt, m, events[0]);
      TimerLedger(sqrt, Step(sqrt, m, events[0]), events[1..]);
    }
  }

  /** Across any state changes, hits come at most once per cooldown of attack time, plus the
      one the full initial timer allows. */
  lemma HitsBounded(sqrt: real -> real, spawn: Vec3, maxHp: int, respawnSec: int, events: seq<Event>)
    requires TimeFlows(events)
    ensures var m := Newborn(spawn, maxHp, respawnSec);
            Hits(sqrt, m, events) as real <= 1.0 + AttackTime(sqrt, m, events) / ATTACK_COOLDOWN
  {
    TimerLedger(sqrt, Newborn(spawn, maxHp, respawnSec), events);
  }

  lemma {:induction false} TimerStaysShort(sqrt: real -> real, m: Mon, events: seq<Event>)
    requires TicksBelow(events, ATTACK_COOLDOWN) && 0.0 <= m.attackTimer <= ATTACK_COOLDOWN
    ensures 0.0 <= Run(sqrt, m, events).attackTimer <= ATTACK_COOLDOWN
    ensures m.attackTimer < ATTACK_COOLDOWN || Hits(sqrt, m, events) > 0 ==>
              Run(sqrt, m, events).attackTimer < ATTACK_COOLDOWN
    decreases |events|
  {
    if events != [] {
      assert TicksBelow(events[1..], ATTACK_COOLDOWN) by {
        forall i | 0 <= i < |events[1..]| && events[1..][i].AiTurn? ensures 0.0 <= events[1..][i].dt < ATTACK_COOLDOWN {
          assert events[1..][i] == events[i + 1];
        }
      }
      TimerStep(sqrt, m, events[0]);
      TimerStaysShort(sqrt, Step(sqrt, m, events[0]), events[1..]);
    }
  }

  /** How many turns were spent attacking in range. */
  function AttackTurns(sqrt: real -> real, m: Mon, events: seq<Event>): nat
    decreases |events|
  {
    if events == [] then 0
    else
      (if events[0].AiTurn? && Attacks(sqrt, m, events[0].view) then 1 else 0) +
      AttackTurns(sqrt, Step(sqrt, m, events[0]), events[1..])
  }

  /** While the timer is full, the first turn spent attacking in range is a hit. */
  lemma {:induction false} FirstAttackTurnHits(sqrt: real -> real, m: Mon, events: seq<Event>)
    requires TimeFlows(events) && m.attackTimer == ATTACK_COOLDOWN
    ensures Hits(sqrt, m, events) == 0 <==> AttackTurns(sqrt, m, events) == 0
    decreases |events|
  {
    if events != [] {
      TimerStep(sqrt, m, events[0]);
      var next := Step(sqrt, m, events[0]);
      if next.attackTimer == ATTACK_COOLDOWN {
        FirstAttackTurnHits(sqrt, next, events[1..]);
      }
    }
  }

  /** If every tick is shorter than the cooldown the bound is exact from the first in-range attack
      turn on, and before it there is no hit. */
  lemma HitsExact(sqrt: real -> real, spawn: Vec3, maxHp: int, respawnSec: int, events: seq<Event>)
    requires TicksBelow(events, ATTACK_COOLDOWN)
    ensures var m := Newborn(spawn, maxHp, respawnSec);
            Hits(sqrt, m, events) == if AttackTurns(sqrt, m, events) == 0 then 0
                                     else 1 + (AttackTime(sqrt, m, events) / ATTACK_COOLDOWN).Floor
  {
    var m := Newborn(spawn, maxHp, respawnSec);
    TimerLedger(sqrt, m, events);
    TimerStaysShort(sqrt, m, events);
    FirstAttackTurnHits(sqrt, m, events);
  }

  // ---- Going home ----

  /** A finite stretch of other tasks, then the monster's turn. */
  datatype Round = Round(before: seq<Event>, dt: real, view: View)

  function PlayRound(sqrt: real -> real, m: Mon, round: Round): Mon {
    Turn(sqrt, Run(sqrt, m, round.before), round.dt, round.view)
  }

  /** `states` is the life of the monster at the round boundaries. */
  ghost predicate Plays(sqrt: real -> real, states: nat -> Mon, rounds: nat -> Round, i: nat) {
    states(i + 1) == PlayRound(sqrt, states(i), rounds(i))
  }

  /** One turn, after other tasks, with a step of at least delta. */
  predicate SteadyRound(round: Round, delta: real) {
    && 0.0 < delta <= MOVE_SPEED * round.dt
    && forall i :: 0 <= i < |round.before| ==> !round.before[i].AiTurn?
  }

  /** The step does not jump over the waypoint and out of its neighbourhood on the other side. */
  predicate Lands(sqrt: real -> real, m: Mon, dt: real) {
    PathFinished(m) ||
    var d := Dist(sqrt, m.path[m.index], m.position);
    d < WAYPOINT_EPSILON || MOVE_SPEED * dt - d < WAYPOINT_EPSILON
  }

  /** The turn of the round lands, if the monster is still on its way then. */
  predicate RoundLands(sqrt: real -> real, now: Mon, round: Round) {
    var mid := Run(sqrt, now, round.before);
    mid.state == RETURN ==> Lands(sqrt, mid, round.dt)
  }

  /** A step shorter than two neighbourhoods always lands. */
  lemma ShortStepLands(sqrt: real -> real, m: Mon, dt: real)
    requires MOVE_SPEED * dt < 2.0 * WAYPOINT_EPSILON
    ensures Lands(sqrt, m, dt)
  {
  }

  ghost predicate AwaitsPath(m: Mon) {
    exists r :: r in m.pending && Installs(m, r)
  }

  function WaypointsLeft(m: Mon): nat {
    if PathFinished(m) then 0 else |m.path| - m.index
  }

  function StepsLeft(sqrt: real -> real, m: Mon, delta: real): int
    requires delta != 0.0
  {
    if PathFinished(m) then 0
    else
      var d := Dist(sqrt, m.path[m.index], m.position);
      if d < WAYPOINT_EPSILON then 0 else 1 + (d / delta).Floor
  }

  /** One step turns the distance d to the waypoint into |d - MOVE_SPEED * dt|. */
  lemma WalkDistance(sqrt: real -> real, m: Mon, dt: real)
    requires IsSqrt(sqrt) && !PathFinished(m)
    requires Dist(sqrt, m.path[m.index], m.position) >= WAYPOINT_EPSILON
    ensures Dist(sqrt, m.path[m.index], Walk(sqrt, m, dt).position)
         == Abs(Dist(sqrt, m.path[m.index], m.position) - MOVE_SPEED * dt)
  {
    var w := m.path[m.index];
    DistSymmetric(sqrt, w, m.position);
    TowardDistance(sqrt, m.position, w, MOVE_SPEED * dt);
    DistSymmetric(sqrt, w, Walk(sqrt, m, dt).position);
  }

  lemma WalkProgress(sqrt: real -> real, m: Mon, dt: real, delta: real)
    requires IsSqrt(sqrt) && !PathFinished(m)
    requires 0.0 < delta <= MOVE_SPEED * dt && Lands(sqrt, m, dt)
    ensures 0 <= StepsLeft(sqrt, m, delta)
    ensures var m' := Walk(sqrt, m, dt);
            WaypointsLeft(m') < WaypointsLeft(m) ||
            (WaypointsLeft(m') == WaypointsLeft(m) && StepsLeft(sqrt, m', delta) < StepsLeft(sqrt, m, delta))
  {
    var w := m.path[m.index];
    var d := Dist(sqrt, w, m.position);
    DistSquared(sqrt, w, m.position);
    FloorNonNegative(d, delta);
    if d >= WAYPOINT_EPSILON {
      WalkDistance(sqrt, m, dt);
      var d' := Dist(sqrt, w, Walk(sqrt, m, dt).position);
      if d' >= WAYPOINT_EPSILON {
        assert d' <= d - delta;
        FloorDrops(d', d, delta);
      }
    }
  }

  lemma FloorNonNegative(d: real, delta: real)
    requires 0.0 <= d && 0.0 < delta
    ensures 0 <= (d / delta).Floor
  {
    ZoneIndex.DivMonotone(0.0, d, delta);
  }

  lemma FloorDrops(d': real, d: real, delta: real)
    requires 0.0 < delta && d' <= d - delta
    ensures (d' / delta).Floor < (d / delta).Floor
  {
    ZoneIndex.DivShift(d', delta);
    ZoneIndex.DivMonotone(d' + delta, d, delta);
  }

  /** While a monster goes home, tasks between its turns can kill it, install the one path
      still awaited, or change nothing that matters for the way. */
  lemma {:induction false} BetweenTurns(sqrt: real -> real, m: Mon, before: seq<Event>)
    requires Fresh(m) && (m.state == RETURN || m.state == DEAD)
    requires forall i :: 0 <= i < |before| ==> !before[i].AiTurn?
    ensures var m' := Run(sqrt, m, before);
            && m'.spawn == m.spawn
            && (m.state == DEAD ==> m'.state == DEAD)
            && (m'.state == DEAD
                || (&& m'.state == RETURN && m'.position == m.position
                    && (AwaitsPath(m') ==> AwaitsPath(m))
                    && ((AwaitsPath(m) && !AwaitsPath(m')) || (m'.path == m.path && m'.index == m.index))))
    decreases |before|
  {
    if before != [] {
      var e := before[0];
      var next := Step(sqrt, m, e);
      StepKeepsFresh(sqrt, m, e);
      if e.PathDone? && InstallsAt(m, e) {
        assert AwaitsPath(m) && !AwaitsPath(next);
      } else if AwaitsPath(next) {
        var r :| r in next.pending && Installs(next, r);
        assert next.state != DEAD ==> r in m.pending && Installs(m, r);
      }
      BetweenTurns(sqrt, next, before[1..]);
    }
  }

  /** The measure of the way home falls: path awaited, waypoints left, distance steps. */
  ghost predicate Closer(sqrt: real -> real, next: Mon, now: Mon, delta: real)
    requires delta != 0.0
  {
    || (!AwaitsPath(next) && AwaitsPath(now))
    || (AwaitsPath(next) == AwaitsPath(now) && WaypointsLeft(next) < WaypointsLeft(now))
    || (&& AwaitsPath(next) == AwaitsPath(now) && WaypointsLeft(next) == WaypointsLeft(now)
        && StepsLeft(sqrt, next, delta) < StepsLeft(sqrt, now, delta) && 0 <= StepsLeft(sqrt, now, delta))
  }

  /** One round of a returning monster: death, home, or closer to home. */
  ghost predicate HomewardStep(sqrt: real -> real, now: Mon, next: Mon, delta: real)
    requires delta != 0.0
  {
    || next.state == DEAD
    || (next.state == IDLE && next.position == now.spawn)
    || (next.state == RETURN && Fresh(next) && next.spawn == now.spawn && Closer(sqrt, next, now, delta))
  }

  lemma RoundBringsCloser(sqrt: real -> real, now: Mon, round: Round, delta: real)
    requires IsSqrt(sqrt) && Fresh(now) && now.state == RETURN
    requires delta != 0.0 && SteadyRound(round, delta) && RoundLands(sqrt, now, round)
    ensures HomewardStep(sqrt, now, PlayRound(sqrt, now, round), delta)
  {
    var mid := Run(sqrt, now, round.before);
    BetweenTurns(sqrt, now, round.before);
    RunKeepsFresh(sqrt, now, round.before);
    if mid.state == RETURN && !PathFinished(mid) {
      WalkProgress(sqrt, mid, round.dt, delta);
      StepKeepsFresh(sqrt, mid, AiTurn(round.dt, round.view));
      ReturnStep(sqrt, mid, round.dt, round.view);
    }
  }

  /** A chain of homeward steps cannot go on forever. */
  lemma {:induction false} Descend(sqrt: real -> real, states: nat -> Mon, n: nat, delta: real) returns (k: nat)
    requires delta != 0.0 && states(n).state == RETURN && Fresh(states(n))
    requires forall i: nat :: n <= i && states(i).state == RETURN && Fresh(states(i)) ==>
               HomewardStep(sqrt, states(i), states(i + 1), delta)
    ensures n < k
    ensures states(k).state == DEAD || (states(k).state == IDLE && states(k).position == states(n).spawn)
    decreases AwaitsPath(states(n)), WaypointsLeft(states(n)), StepsLeft(sqrt, states(n), delta)
  {
    k := n + 1;
    assert HomewardStep(sqrt, states(n), states(k), delta);
    if states(k).state == RETURN {
      k := Descend(sqrt, states, k, delta);
    }
  }

  /** If from round n on every turn takes a step of at least delta and lands, a returning monster
      becomes idle exactly at its spawn point, or dies on the way. */
  lemma ReturnEndsAtHome(sqrt: real -> real, states: nat -> Mon, rounds: nat -> Round, n: nat, delta: real)
      returns (k: nat)
    requires IsSqrt(sqrt) && forall i: nat :: Plays(sqrt, states, rounds, i)
    requires Fresh(states(n)) && states(n).state == RETURN
    requires 0.0 < delta
    requires forall i: nat :: n <= i ==> SteadyRound(rounds(i), delta) && RoundLands(sqrt, states(i), rounds(i))
    ensures n < k
    ensures states(k).state == DEAD || (states(k).state == IDLE && states(k).position == states(n).spawn)
  {
    forall i: nat | n <= i && states(i).state == RETURN && Fresh(states(i))
      ensures HomewardStep(sqrt, states(i), states(i + 1), delta)
    {
      RoundAt(sqrt, states, rounds, i, delta);
    }
    k := Descend(sqrt, states, n, delta);
  }

  lemma RoundAt(sqrt: real -> real, states: nat -> Mon, rounds: nat -> Round, i: nat, delta: real)
    requires IsSqrt(sqrt) && Plays(sqrt, states, rounds, i) && delta != 0.0 && SteadyRound(rounds(i), delta)
    requires RoundLands(sqrt, states(i), rounds(i))
    requires Fresh(states(i)) && states(i).state == RETURN
    ensures HomewardStep(sqrt, states(i), states(i + 1), delta)
  {
    RoundBringsCloser(sqrt, states(i), rounds(i), delta);
  }

  lemma ReturnStep(sqrt: real -> real, m: Mon, dt: real, view: View)
    requires m.state == RETURN && !PathFinished(m)
    ensures var next := Turn(sqrt, m, dt, view);
            next == Walk(sqrt, m, dt) && next.state == RETURN && next.spawn == m.spawn
            && (AwaitsPath(next) <==> AwaitsPath(m))
  {
    var next := Turn(sqrt, m, dt, view);
    if AwaitsPath(m) {
      var r :| r in m.pending && Installs(m, r);
      assert r in next.pending && Installs(next, r);
    }
    if AwaitsPath(next) {
      var r :| r in next.pending && Installs(next, r);
      assert r in m.pending && Installs(m, r);
    }
  }

  // ---- Life and death ----

  /** Dead exactly at 0 HP, and the dead timer runs only while dead. */
  ghost predicate LifeInv(m: Mon) {
    0 < m.maxHp && 0 <= m.hp && (m.state == DEAD <==> m.hp == 0) && (m.state != DEAD ==> m.deadTimer == 0.0)
  }

  /** Every task keeps this, except a buff that takes a living monster to 0 HP or below. */
  lemma StepKeepsLifeIff(sqrt: real -> real, m: Mon, e: Event)
    requires LifeInv(m)
    ensures LifeInv(Step(sqrt, m, e)) <==> (e.Buffed? && m.state != DEAD ==> m.hp + e.add > 0)
  {
    if e.AiTurn? && m.state != DEAD {
      TurnKeepsAlive(sqrt, m, e.dt, e.view);
    }
  }

  lemma {:induction false} RunKeepsLife(sqrt: real -> real, m: Mon, events: seq<Event>)
    requires LifeInv(m)
    requires forall i :: 0 <= i < |events| && events[i].Buffed? ==> 0 <= events[i].add
    ensures LifeInv(Run(sqrt, m, events))
    decreases |events|
  {
    if events != [] {
      StepKeepsLifeIff(sqrt, m, events[0]);
      RunKeepsLife(sqrt, Step(sqrt, m, events[0]), events[1..]);
    }
  }

  function TurnTime(events: seq<Event>): real {
    if events == [] then 0.0 else (if events[0].AiTurn? then events[0].dt else 0.0) + TurnTime(events[1..])
  }

  lemma {:induction false} TurnTimeNonNegative(events: seq<Event>)
    requires TimeFlows(events)
    ensures 0.0 <= TurnTime(events)
  {
    if events != [] {
      TurnTimeNonNegative(events[1..]);
    }
  }

  /** A dead monster stays dead, summing up turn times, as long as the sum is short of its
      respawn time; nothing else changes its HP, place or timer. */
  lemma {:induction false} DeadUntilRespawn(sqrt: real -> real, m: Mon, events: seq<Event>)
    requires m.state == DEAD && TimeFlows(events)
    requires m.deadTimer + TurnTime(events) < m.respawnSec as real
    ensures var m' := Run(sqrt, m, events);
            && m'.state == DEAD && m'.deadTimer == m.deadTimer + TurnTime(events)
            && m'.hp == m.hp && m'.position == m.position && m'.spawn == m.spawn
            && m'.maxHp == m.maxHp && m'.respawnSec == m.respawnSec
    decreases |events|
  {
    if events != [] {
      TurnTimeNonNegative(events[1..]);
      DeadUntilRespawn(sqrt, Step(sqrt, m, events[0]), events[1..]);
    }
  }

  /** The first turn that brings the sum to the respawn time revives it at home, at full HP. */
  lemma RevivesOnTime(sqrt: real -> real, m: Mon, events: seq<Event>, dt: real, view: View)
    requires m.state == DEAD && TimeFlows(events)
    requires m.deadTimer + TurnTime(events) < m.respawnSec as real <= m.deadTimer + TurnTime(events) + dt
    ensures var m' := Turn(sqrt, Run(sqrt, m, events), dt, view);
            m'.state == IDLE && m'.hp == m.maxHp && m'.position == m.spawn && m'.deadTimer == 0.0 && m'.path == []
            && m'.target == 0
  {
    DeadUntilRespawn(sqrt, m, events);
  }

  /** No buffs, and every hit does damage; turns and path results come as they may. */
  ghost predicate Fight(events: seq<Event>) {
    forall i :: 0 <= i < |events| ==> !events[i].Buffed? && (events[i].Struck? ==> 0 < events[i].damage)
  }

  /** The damage of all hits. */
  function Wounds(events: seq<Event>): int {
    if events == [] then 0 else (if events[0].Struck? then events[0].damage else 0) + Wounds(events[1..])
  }

  lemma {:induction false} WoundsNonNegative(events: seq<Event>)
    requires Fight(events)
    ensures 0 <= Wounds(events)
  {
    if events != [] {
      WoundsNonNegative(events[1..]);
    }
  }

  /** The monster is dead at some moment of the run. */
  predicate DiesDuring(sqrt: real -> real, m: Mon, events: seq<Event>)
    decreases |events|
  {
    m.state == DEAD || (events != [] && DiesDuring(sqrt, Step(sqrt, m, events[0]), events[1..]))
  }

  /** In a fight of any length a living monster dies if and only if the hits add up to its HP;
      until then they subtract exactly. */
  lemma {:induction false} DiesAfterEnoughHits(sqrt: real -> real, m: Mon, events: seq<Event>)
    requires m.state != DEAD && 0 < m.hp && Fight(events)
    ensures DiesDuring(sqrt, m, events) <==> Wounds(events) >= m.hp
    ensures Wounds(events) < m.hp ==>
              Run(sqrt, m, events).state != DEAD && Run(sqrt, m, events).hp == m.hp - Wounds(events)
    decreases |events|
  {
    if events != [] {
      var e, next := events[0], Step(sqrt, m, events[0]);
      WoundsNonNegative(events[1..]);
      if e.AiTurn? {
        TurnKeepsAlive(sqrt, m, e.dt, e.view);
      }
      if next.state != DEAD {
        DiesAfterEnoughHits(sqrt, next, events[1..]);
      }
    }
  }

  /** The HP of all buffs. */
  function Gains(events: seq<Event>): int {
    if events == [] then 0 else (if events[0].Buffed? then events[0].add else 0) + Gains(events[1..])
  }

  /** As long as a monster lives, on any run, every hit takes its damage and every buff adds its amount,
      and nothing else changes its HP. */
  lemma {:induction false} LifeLedger(sqrt: real -> real, m: Mon, events: seq<Event>)
    requires !DiesDuring(sqrt, m, events)
    ensures Run(sqrt, m, events).hp == m.hp + Gains(events) - Wounds(events)
    decreases |events|
  {
    if events != [] {
      var e := events[0];
      if e.AiTurn? {
        TurnKeepsAlive(sqrt, m, e.dt, e.view);
      }
      assert !DiesDuring(sqrt, Step(sqrt, m, e), events[1..]);
      LifeLedger(sqrt, Step(sqrt, m, e), events[1..]);
    }
  }
}
