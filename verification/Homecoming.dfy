/** Going home with equal ticks: exactly when a returning monster arrives.

    The AI timer waits at least 100 ms (GameServer/Monster/MonsterManager.cpp:296-307), so a step
    is at least 0.2, which is twice the neighbourhood of a waypoint
    (GameServer/Monster/Monster.cpp:136-146): it can jump over the waypoint, and back, for ever.
 */
module Homecoming {
  import opened Wrappers
  import opened Geometry
  import opened MonsterAI
  import opened MonsterRuns
  import ZoneIndex

  // ---- One waypoint ----

  /** What is left of the distance d after whole steps of length s. */
  function Remainder(d: real, s: real): real
    requires 0.0 < s
  {
    d - (d / s).Floor as real * s
  }

  /** The remainder is in the neighbourhood of the waypoint, or one more step is. */
  predicate Reaches(d: real, s: real)
    requires 0.0 < s
  {
    Remainder(d, s) < WAYPOINT_EPSILON || s - Remainder(d, s) < WAYPOINT_EPSILON
  }

  /** The distance to the waypoint after n turns; in the neighbourhood it stays. */
  function DistanceAfter(d: real, s: real, n: nat): real
    decreases n
  {
    if n == 0 || d < WAYPOINT_EPSILON then d else DistanceAfter(Abs(d - s), s, n - 1)
  }

  lemma RemainderBelow(d: real, s: real)
    requires 0.0 <= d < s
    ensures Remainder(d, s) == d
  {
    ZoneIndex.DivMonotone(0.0, d, s);
    ZoneIndex.DivMonotone(s, d, s);
    assert s / s == 1.0;
    assert (d / s).Floor == 0;
  }

  lemma RemainderStep(d: real, s: real)
    requires 0.0 < s <= d
    ensures Remainder(d, s) == Remainder(d - s, s)
    ensures 0 <= ((d - s) / s).Floor == (d / s).Floor - 1
  {
    ZoneIndex.DivShift(d - s, s);
    ZoneIndex.DivMonotone(0.0, d - s, s);
    SuccessorTimes(((d - s) / s).Floor as real, s);
  }

  lemma SuccessorTimes(q: real, s: real)
    ensures (q + 1.0) * s == q * s + s
  {
  }

  /** A turn outside the neighbourhood neither gains nor loses the waypoint. */
  lemma StepKeepsReaches(d: real, s: real)
    requires 0.0 < s && WAYPOINT_EPSILON <= d
    ensures Reaches(d, s) <==> Reaches(Abs(d - s), s)
    ensures d < s ==> (Reaches(d, s) <==> s - d < WAYPOINT_EPSILON)
  {
    if s <= d {
      RemainderStep(d, s);
    } else {
      RemainderBelow(d, s);
      RemainderBelow(s - d, s);
    }
  }

  lemma NearIsReached(d: real, s: real)
    requires 0.0 < s && 0.0 <= d < WAYPOINT_EPSILON
    ensures Reaches(d, s)
    decreases if 0.0 < s <= d then (d / s).Floor else 0
  {
    if s <= d {
      RemainderStep(d, s);
      NearIsReached(d - s, s);
    } else {
      RemainderBelow(d, s);
    }
  }

  /** How many steps lead into the neighbourhood, if any do. */
  function StepsTo(d: real, s: real): (n: nat)
    requires 0.0 < s
    decreases if 0.0 < s <= d then (d / s).Floor else 0
  {
    if d < WAYPOINT_EPSILON then 0
    else if d < s then 1
    else
      RemainderStep(d, s);
      1 + StepsTo(d - s, s)
  }

  lemma {:induction false} ReachedAfter(d: real, s: real)
    requires 0.0 < s && 0.0 <= d && Reaches(d, s)
    ensures DistanceAfter(d, s, StepsTo(d, s)) < WAYPOINT_EPSILON
    decreases StepsTo(d, s)
  {
    if d >= WAYPOINT_EPSILON {
      StepKeepsReaches(d, s);
      if s <= d {
        RemainderStep(d, s);
        ReachedAfter(d - s, s);
      } else {
        assert DistanceAfter(d, s, 1) == DistanceAfter(Abs(d - s), s, 0);
      }
    }
  }

  lemma {:induction false} NeverReached(d: real, s: real, n: nat)
    requires 0.0 < s && 0.0 <= d && !Reaches(d, s)
    ensures DistanceAfter(d, s, n) >= WAYPOINT_EPSILON
    decreases n
  {
    if d < WAYPOINT_EPSILON {
      NearIsReached(d, s);
    } else if n > 0 {
      StepKeepsReaches(d, s);
      NeverReached(Abs(d - s), s, n - 1);
    }
  }

  /** A waypoint at distance d is ever reached with steps of length s if and only if, r being the
      remainder of d, r or s - r is inside the neighbourhood. */
  lemma WaypointReachedIff(d: real, s: real)
    requires 0.0 < s && 0.0 <= d
    ensures (exists n: nat :: DistanceAfter(d, s, n) < WAYPOINT_EPSILON) <==> Reaches(d, s)
  {
    if Reaches(d, s) {
      ReachedAfter(d, s);
    } else {
      forall n: nat ensures DistanceAfter(d, s, n) >= WAYPOINT_EPSILON {
        NeverReached(d, s, n);
      }
    }
  }

  /** Every distance is reached if and only if the step is shorter than two neighbourhoods. */
  lemma EveryDistanceReachedIff(s: real)
    requires 0.0 < s
    ensures (forall d: real :: 0.0 <= d ==> Reaches(d, s)) <==> s < 2.0 * WAYPOINT_EPSILON
  {
    if s >= 2.0 * WAYPOINT_EPSILON {
      RemainderBelow(WAYPOINT_EPSILON, s);
      assert !Reaches(WAYPOINT_EPSILON, s);
    }
  }

  // ---- The whole way ----

  /** The way covered until then. */
  function Travelled(d: real, s: real): real
    requires 0.0 < s
  {
    StepsTo(d, s) as real * s
  }

  lemma TravelledStep(d: real, s: real)
    requires 0.0 < s && WAYPOINT_EPSILON <= d
    ensures s <= d && WAYPOINT_EPSILON <= d - s ==> Travelled(d, s) == s + Travelled(d - s, s)
    ensures Abs(d - s) < WAYPOINT_EPSILON ==> Travelled(d, s) == s
  {
    if s <= d {
      RemainderStep(d, s);
      SuccessorTimes(StepsTo(d - s, s) as real, s);
      assert d - s < WAYPOINT_EPSILON ==> StepsTo(d, s) == 1;
    } else {
      assert StepsTo(d, s) == 1;
    }
  }

  /** Where the monster stops for the waypoint. */
  function StopAt(sqrt: real -> real, p: Vec3, w: Vec3, s: real): Vec3
    requires 0.0 < s
  {
    var d := Dist(sqrt, w, p);
    if d < WAYPOINT_EPSILON then p else Toward(p, w, d, Travelled(d, s))
  }

  /** Every waypoint is reached from where the monster stopped for the one before it. */
  predicate Legs(sqrt: real -> real, p: Vec3, waypoints: seq<Vec3>, s: real)
    requires 0.0 < s
    decreases |waypoints|
  {
    waypoints == [] ||
    (Reaches(Dist(sqrt, waypoints[0], p), s) && Legs(sqrt, StopAt(sqrt, p, waypoints[0], s), waypoints[1..], s))
  }

  /** With short steps every way is one that ends. */
  lemma {:induction false} ShortStepsMakeAllLegs(sqrt: real -> real, p: Vec3, waypoints: seq<Vec3>, s: real)
    requires 0.0 < s < 2.0 * WAYPOINT_EPSILON
    ensures Legs(sqrt, p, waypoints, s)
    decreases |waypoints|
  {
    if waypoints != [] {
      ShortStepsMakeAllLegs(sqrt, StopAt(sqrt, p, waypoints[0], s), waypoints[1..], s);
    }
  }

  function Ahead(m: Mon): seq<Vec3> {
    if PathFinished(m) then [] else m.path[m.index..]
  }

  predicate HomeBound(sqrt: real -> real, m: Mon, dt: real)
    requires 0.0 < dt
  {
    Legs(sqrt, m.position, Ahead(m), MOVE_SPEED * dt)
  }

  lemma TowardTwice(p: real, w: real, d: real, a: real, b: real, q: real)
    requires 0.0 < d && 0.0 < d - a
    requires q == p + (w - p) / d * a
    ensures q + (w - q) / (d - a) * b == p + (w - p) / d * (a + b)
  {
    var u, v, e := (w - p) / d, (w - q) / (d - a), d - a;
    assert u * d == w - p;
    RemainingOffset(p, w, d, u, a, q);
    assert v * e == w - q;
    SameFactor(u, v, e, w - q);
    assert u * a + u * b == u * (a + b);
  }

  lemma SameFactor(u: real, v: real, e: real, x: real)
    requires 0.0 < e && x == u * e && x == v * e
    ensures u == v
  {
    assert (u - v) * e == 0.0;
  }

  lemma TowardAgain(p: Vec3, w: Vec3, d: real, a: real, b: real)
    requires 0.0 < d && 0.0 < d - a
    ensures Toward(Toward(p, w, d, a), w, d - a, b) == Toward(p, w, d, a + b)
  {
    var q := Toward(p, w, d, a);
    TowardTwice(p.x, w.x, d, a, b, q.x);
    TowardTwice(p.y, w.y, d, a, b, q.y);
  }

  lemma DistanceAfterStep(sqrt: real -> real, p: Vec3, w: Vec3, s: real)
    requires IsSqrt(sqrt) && 0.0 < Dist(sqrt, w, p)
    ensures Dist(sqrt, w, Toward(p, w, Dist(sqrt, w, p), s)) == Abs(Dist(sqrt, w, p) - s)
  {
    DistSymmetric(sqrt, w, p);
    TowardDistance(sqrt, p, w, s);
    DistSymmetric(sqrt, w, Toward(p, w, Dist(sqrt, w, p), s));
  }

  /** One step towards a waypoint that will be reached leads to the same stop. */
  lemma SameStop(sqrt: real -> real, p: Vec3, w: Vec3, s: real)
    requires IsSqrt(sqrt) && 0.0 < s && WAYPOINT_EPSILON <= Dist(sqrt, w, p) && Reaches(Dist(sqrt, w, p), s)
    ensures StopAt(sqrt, Toward(p, w, Dist(sqrt, w, p), s), w, s) == StopAt(sqrt, p, w, s)
  {
    var d := Dist(sqrt, w, p);
    DistanceAfterStep(sqrt, p, w, s);
    StepKeepsReaches(d, s);
    TravelledStep(d, s);
    if s <= d && WAYPOINT_EPSILON <= d - s {
      TowardAgain(p, w, d, s, Travelled(d - s, s));
    }
  }

  /** A turn of a monster on its way keeps the verdict on its way. */
  lemma WalkKeepsHomeBound(sqrt: real -> real, m: Mon, dt: real)
    requires IsSqrt(sqrt) && 0.0 < dt && !PathFinished(m)
    ensures HomeBound(sqrt, Walk(sqrt, m, dt), dt) <==> HomeBound(sqrt, m, dt)
  {
    var s, w, next := MOVE_SPEED * dt, m.path[m.index], Walk(sqrt, m, dt);
    var d := Dist(sqrt, w, m.position);
    DistSquared(sqrt, w, m.position);
    assert Ahead(m)[0] == w;
    if d < WAYPOINT_EPSILON {
      NearIsReached(d, s);
      assert Ahead(m)[1..] == Ahead(next);
    } else {
      assert Ahead(next) == Ahead(m);
      WalkDistance(sqrt, m, dt);
      StepKeepsReaches(d, s);
      if Reaches(d, s) {
        SameStop(sqrt, m.position, w, s);
      }
    }
  }

  // ---- Undisturbed ticks ----

  function Ticks(dt: real, view: View, n: nat): seq<Event> {
    if n == 0 then [] else [AiTurn(dt, view)] + Ticks(dt, view, n - 1)
  }

  /** A monster that is not home bound stays on its way for ever. */
  lemma {:induction false} WandersForever(sqrt: real -> real, m: Mon, dt: real, view: View, n: nat)
    requires IsSqrt(sqrt) && 0.0 < dt && m.state == RETURN && !HomeBound(sqrt, m, dt)
    ensures Run(sqrt, m, Ticks(dt, view, n)).state == RETURN
    decreases n
  {
    if n > 0 {
      WalkKeepsHomeBound(sqrt, m, dt);
      assert Ticks(dt, view, n)[1..] == Ticks(dt, view, n - 1);
      WandersForever(sqrt, Step(sqrt, m, AiTurn(dt, view)), dt, view, n - 1);
    }
  }

  lemma AxisDist(sqrt: real -> real, a: real, b: real)
    requires IsSqrt(sqrt)
    ensures Dist(sqrt, Vec3(a, 0.0, 0.0), Vec3(b, 0.0, 0.0)) == Abs(a - b)
  {
    var p, q := Vec3(a, 0.0, 0.0), Vec3(b, 0.0, 0.0);
    DistSquared(sqrt, p, q);
    assert Abs(a - b) * Abs(a - b) == (a - b) * (a - b);
    EqualSquares(Dist(sqrt, p, q), Abs(a - b));
  }

  function OnAxis(x: real): Vec3 {
    Vec3(x, 0.0, 0.0)
  }

  /** What the path finder returns where nothing is in the way, and always without a loaded mesh:
      the start and the end (GameServer/PathFinder/PathFinder.cpp:108-132 and 176-205). */
  function Straight(r: Request): seq<Vec3> {
    [r.start, r.end]
  }

  function ChaseRequest(): Request {
    Request(1, OnAxis(0.0), OnAxis(0.9), CHASE)
  }

  function HomeRequest(): Request {
    Request(2, OnAxis(0.36), OnAxis(0.0), RETURN)
  }

  /** The tasks of the run below, no tick shorter than 100 ms: the monster sees a player at 0.9, gets
      its path, walks for 180 ms, loses the player in a tick of 120 ms, and gets its path home. */
  function ToStranded(): seq<Event> {
    [AiTurn(0.1, View(Some((1, OnAxis(0.9))), None)),
     PathDone(ChaseRequest(), Straight(ChaseRequest())),
     AiTurn(0.18, View(None, Some(OnAxis(0.9)))),
     AiTurn(0.12, View(None, None)),
     PathDone(HomeRequest(), Straight(HomeRequest()))]
  }

  // The monster after each task of this run.

  function Seen(): Mon {
    CalculatePath(Newborn(OnAxis(0.0), 100, 60).(target := 1, goal := OnAxis(0.9), state := CHASE))
  }

  function Pathed(): Mon {
    Seen().(pending := {}, path := [OnAxis(0.0), OnAxis(0.9)], index := 1)
  }

  function Walked(): Mon {
    Pathed().(position := OnAxis(0.36))
  }

  function Turned(): Mon {
    CalculatePath(Walked().(state := RETURN, goal := OnAxis(0.0))).(position := OnAxis(0.6))
  }

  /** At 0.6, on its way home over 0.36, where it made its request. */
  function Stranded(): Mon {
    Turned().(pending := {}, path := [OnAxis(0.36), OnAxis(0.0)], index := 0)
  }

  lemma SeenAndPathed(sqrt: real -> real)
    requires IsSqrt(sqrt)
    ensures Step(sqrt, Newborn(OnAxis(0.0), 100, 60), ToStranded()[0]) == Seen()
    ensures Step(sqrt, Seen(), ToStranded()[1]) == Pathed()
  {
    AxisDist(sqrt, 0.0, 0.0);
    assert Seen().pending == {ChaseRequest()};
    assert Seen().pending - {ChaseRequest()} == {};
  }

  lemma TowardOnAxis(a: real, b: real, d: real, step: real)
    requires 0.0 < d == b - a
    ensures Toward(OnAxis(a), OnAxis(b), d, step) == OnAxis(a + step)
    ensures Toward(OnAxis(b), OnAxis(a), d, step) == OnAxis(b - step)
  {
    assert d / d == 1.0 && (-d) / d == -1.0 && 0.0 / d == 0.0;
  }

  /** A chasing monster whose target has not moved takes a step along its path. */
  lemma ChaseStep(sqrt: real -> real, m: Mon, a: real, b: real, dt: real)
    requires m.state == CHASE && m.position == OnAxis(a) && m.goal == OnAxis(b)
    requires m.path == [OnAxis(0.0), OnAxis(b)] && m.index == 1
    requires Dist(sqrt, OnAxis(b), OnAxis(b)) == 0.0 && Dist(sqrt, OnAxis(b), OnAxis(a)) == b - a
    requires ATTACK_RANGE < b - a <= CHASE_RANGE
    ensures Turn(sqrt, m, dt, View(None, Some(OnAxis(b)))) == m.(position := OnAxis(a + MOVE_SPEED * dt))
  {
    assert Decide(sqrt, m, View(None, Some(OnAxis(b)))) == m;
    TowardOnAxis(a, b, b - a, MOVE_SPEED * dt);
  }

  lemma WalkedAfterPathed(sqrt: real -> real)
    requires IsSqrt(sqrt)
    ensures Step(sqrt, Pathed(), ToStranded()[2]) == Walked()
  {
    AxisDist(sqrt, 0.9, 0.9);
    AxisDist(sqrt, 0.9, 0.0);
    ChaseStep(sqrt, Pathed(), 0.0, 0.9, 0.18);
  }

  /** A monster that loses its target turns home, and in the same turn takes one more step along
      the path of the chase. */
  lemma LoseStep(sqrt: real -> real, m: Mon, a: real, b: real, dt: real)
    requires m.state == CHASE && m.position == OnAxis(a) && m.path == [OnAxis(0.0), OnAxis(b)] && m.index == 1
    requires Dist(sqrt, OnAxis(b), OnAxis(a)) == b - a && WAYPOINT_EPSILON <= b - a
    ensures Turn(sqrt, m, dt, View(None, None)) == GiveUpChase(m).(position := OnAxis(a + MOVE_SPEED * dt))
  {
    assert Decide(sqrt, m, View(None, None)) == GiveUpChase(m);
    TowardOnAxis(a, b, b - a, MOVE_SPEED * dt);
  }

  lemma TurnedAfterWalked(sqrt: real -> real)
    requires IsSqrt(sqrt)
    ensures Step(sqrt, Walked(), ToStranded()[3]) == Turned()
  {
    AxisDist(sqrt, 0.9, 0.36);
    LoseStep(sqrt, Walked(), 0.36, 0.9, 0.12);
  }

  lemma StrandedAfterTurned(sqrt: real -> real)
    requires IsSqrt(sqrt)
    ensures Step(sqrt, Turned(), ToStranded()[4]) == Stranded()
  {
    AxisDist(sqrt, 0.36, 0.6);
    assert Turned().pending == {HomeRequest()};
    assert Turned().pending - {HomeRequest()} == {};
  }

  /** In steps of 0.24 it reaches 0.36, and from there never 0. */
  lemma StrandedIsNotHomeBound(sqrt: real -> real)
    requires IsSqrt(sqrt)
    ensures !HomeBound(sqrt, Stranded(), 0.12)
  {
    AxisDist(sqrt, 0.36, 0.6);
    AxisDist(sqrt, 0.0, 0.36);
    TravelledStep(0.24, 0.24);
    TowardOnAxis(0.36, 0.6, 0.24, 0.24);
    assert StopAt(sqrt, OnAxis(0.6), OnAxis(0.36), 0.24) == OnAxis(0.36);
    RemainderStep(0.36, 0.24);
    RemainderBelow(0.12, 0.24);
    assert !Reaches(0.36, 0.24);
    assert Ahead(Stranded())[0] == OnAxis(0.36) && Ahead(Stranded())[1..] == [OnAxis(0.0)];
    assert !Legs(sqrt, OnAxis(0.36), [OnAxis(0.0)], 0.24);
  }

  lemma ToStrandedRun(sqrt: real -> real, rest: seq<Event>)
    requires IsSqrt(sqrt)
    ensures Run(sqrt, Newborn(OnAxis(0.0), 100, 60), ToStranded() + rest) == Run(sqrt, Stranded(), rest)
  {
    SeenAndPathed(sqrt);
    WalkedAfterPathed(sqrt);
    TurnedAfterWalked(sqrt);
    StrandedAfterTurned(sqrt);
    FiveEvents(sqrt, Newborn(OnAxis(0.0), 100, 60), ToStranded(), rest);
  }

  lemma FiveEvents(sqrt: real -> real, m: Mon, e: seq<Event>, rest: seq<Event>)
    requires |e| == 5
    ensures Run(sqrt, m, e + rest)
         == Run(sqrt, Step(sqrt, Step(sqrt, Step(sqrt, Step(sqrt, Step(sqrt, m, e[0]), e[1]), e[2]), e[3]), e[4]), rest)
  {
    FirstOf(sqrt, m, e, rest);
    FirstOf(sqrt, Step(sqrt, m, e[0]), e[1..], rest);
    FirstOf(sqrt, Step(sqrt, Step(sqrt, m, e[0]), e[1]), e[2..], rest);
    FirstOf(sqrt, Step(sqrt, Step(sqrt, Step(sqrt, m, e[0]), e[1]), e[2]), e[3..], rest);
    FirstOf(sqrt, Step(sqrt, Step(sqrt, Step(sqrt, Step(sqrt, m, e[0]), e[1]), e[2]), e[3]), e[4..], rest);
    assert e[1..][1..] == e[2..] && e[2..][1..] == e[3..] && e[3..][1..] == e[4..] && e[4..][1..] + rest == rest;
  }

  lemma FirstOf(sqrt: real -> real, m: Mon, e: seq<Event>, rest: seq<Event>)
    requires e != []
    ensures Run(sqrt, m, e + rest) == Run(sqrt, Step(sqrt, m, e[0]), e[1..] + rest)
  {
    assert (e + rest)[1..] == e[1..] + rest;
  }

  /** A run from the spawn point with ticks of 100, 180 and 120 ms after which the monster, ticking
      on every 120 ms, is on its way home for ever. */
  lemma StrandedForever(sqrt: real -> real, n: nat)
    requires IsSqrt(sqrt)
    ensures Run(sqrt, Newborn(OnAxis(0.0), 100, 60), ToStranded() + Ticks(0.12, View(None, None), n)).state == RETURN
  {
    ToStrandedRun(sqrt, Ticks(0.12, View(None, None), n));
    StrandedIsNotHomeBound(sqrt);
    WandersForever(sqrt, Stranded(), 0.12, View(None, None), n);
  }

  // ---- Equal ticks among other tasks ----

  predicate EqualRound(round: Round, dt: real) {
    round.dt == dt && forall i :: 0 <= i < |round.before| ==> !round.before[i].AiTurn?
  }

  /** Going home on the path it will keep. */
  ghost predicate OnWay(m: Mon) {
    m.state == RETURN && Fresh(m) && !AwaitsPath(m)
  }

  /** The monster is not killed before its turn. */
  predicate Spared(sqrt: real -> real, m: Mon, round: Round) {
    Run(sqrt, m, round.before).state != DEAD
  }

  function StepsLeftTo(sqrt: real -> real, m: Mon, dt: real): nat
    requires 0.0 < dt
  {
    if PathFinished(m) then 0 else StepsTo(Dist(sqrt, m.path[m.index], m.position), MOVE_SPEED * dt)
  }

  ghost predicate Nearer(sqrt: real -> real, next: Mon, now: Mon, dt: real)
    requires 0.0 < dt
  {
    WaypointsLeft(next) < WaypointsLeft(now) ||
    (WaypointsLeft(next) == WaypointsLeft(now) && StepsLeftTo(sqrt, next, dt) < StepsLeftTo(sqrt, now, dt))
  }

  lemma WalkIsNearer(sqrt: real -> real, m: Mon, dt: real)
    requires IsSqrt(sqrt) && 0.0 < dt && !PathFinished(m) && HomeBound(sqrt, m, dt)
    ensures Nearer(sqrt, Walk(sqrt, m, dt), m, dt)
  {
    var s, w := MOVE_SPEED * dt, m.path[m.index];
    var d := Dist(sqrt, w, m.position);
    assert Ahead(m)[0] == w;
    if d >= WAYPOINT_EPSILON {
      WalkDistance(sqrt, m, dt);
      StepKeepsReaches(d, s);
      if s <= d {
        RemainderStep(d, s);
      }
    }
  }

  /** One round of a monster on its way that is spared: home, or on its way with the same verdict. */
  lemma SparedRound(sqrt: real -> real, now: Mon, round: Round, dt: real)
    requires IsSqrt(sqrt) && 0.0 < dt && OnWay(now) && EqualRound(round, dt) && Spared(sqrt, now, round)
    ensures var next := PlayRound(sqrt, now, round);
            next.spawn == now.spawn &&
            if PathFinished(now) then next.state == IDLE && next.position == now.spawn
            else
              && OnWay(next) && (HomeBound(sqrt, next, dt) <==> HomeBound(sqrt, now, dt))
              && (HomeBound(sqrt, now, dt) ==> Nearer(sqrt, next, now, dt))
  {
    var mid := Run(sqrt, now, round.before);
    BetweenTurns(sqrt, now, round.before);
    RunKeepsFresh(sqrt, now, round.before);
    if !PathFinished(mid) {
      StepKeepsFresh(sqrt, mid, AiTurn(dt, round.view));
      ReturnStep(sqrt, mid, dt, round.view);
      WalkKeepsHomeBound(sqrt, mid, dt);
      assert HomeBound(sqrt, mid, dt) == HomeBound(sqrt, now, dt);
      if HomeBound(sqrt, now, dt) {
        WalkIsNearer(sqrt, mid, dt);
      }
    }
  }

  /** A monster killed before its turn is dead after it, or revived at home. */
  lemma KilledRound(sqrt: real -> real, now: Mon, round: Round, dt: real)
    requires OnWay(now) && EqualRound(round, dt) && !Spared(sqrt, now, round)
    ensures var next := PlayRound(sqrt, now, round);
            next.state == DEAD || (next.state == IDLE && next.position == now.spawn)
  {
    BetweenTurns(sqrt, now, round.before);
  }

  /** A home bound monster gets home, or is killed first. */
  lemma {:induction false} ArrivesHome(sqrt: real -> real, states: nat -> Mon, rounds: nat -> Round, n: nat, dt: real)
      returns (k: nat)
    requires IsSqrt(sqrt) && 0.0 < dt && forall i: nat :: Plays(sqrt, states, rounds, i)
    requires forall i: nat :: n <= i ==> EqualRound(rounds(i), dt)
    requires OnWay(states(n)) && HomeBound(sqrt, states(n), dt)
    ensures n < k
    ensures states(k).state == DEAD || (states(k).state == IDLE && states(k).position == states(n).spawn)
    ensures (forall i: nat :: n <= i ==> Spared(sqrt, states(i), rounds(i))) ==>
              states(k).state == IDLE && states(k).position == states(n).spawn
    decreases WaypointsLeft(states(n)), StepsLeftTo(sqrt, states(n), dt)
  {
    k := n + 1;
    assert Plays(sqrt, states, rounds, n);
    if !Spared(sqrt, states(n), rounds(n)) {
      KilledRound(sqrt, states(n), rounds(n), dt);
    } else {
      SparedRound(sqrt, states(n), rounds(n), dt);
      if !PathFinished(states(n)) {
        k := ArrivesHome(sqrt, states, rounds, k, dt);
      }
    }
  }

  /** A monster that is not home bound and not killed is on its way after every round. */
  lemma {:induction false} StaysOnWay(sqrt: real -> real, states: nat -> Mon, rounds: nat -> Round, n: nat, dt: real,
                                      k: nat)
    requires IsSqrt(sqrt) && 0.0 < dt && forall i: nat :: Plays(sqrt, states, rounds, i)
    requires forall i: nat :: n <= i ==> EqualRound(rounds(i), dt) && Spared(sqrt, states(i), rounds(i))
    requires OnWay(states(n)) && !HomeBound(sqrt, states(n), dt) && n <= k
    ensures OnWay(states(k)) && !HomeBound(sqrt, states(k), dt)
    decreases k
  {
    if n < k {
      StaysOnWay(sqrt, states, rounds, n, dt, k - 1);
      assert Plays(sqrt, states, rounds, k - 1);
      SparedRound(sqrt, states(k - 1), rounds(k - 1), dt);
    }
  }

  /** With equal ticks a monster that goes home on its final path and is not killed ever becomes
      idle at its spawn point if and only if every leg of the path is reached. */
  lemma HomecomingIff(sqrt: real -> real, states: nat -> Mon, rounds: nat -> Round, n: nat, dt: real)
    requires IsSqrt(sqrt) && 0.0 < dt && forall i: nat :: Plays(sqrt, states, rounds, i)
    requires forall i: nat :: n <= i ==> EqualRound(rounds(i), dt) && Spared(sqrt, states(i), rounds(i))
    requires OnWay(states(n))
    ensures (exists k: nat :: n < k && states(k).state == IDLE && states(k).position == states(n).spawn)
       <==> HomeBound(sqrt, states(n), dt)
  {
    if HomeBound(sqrt, states(n), dt) {
      var k := ArrivesHome(sqrt, states, rounds, n, dt);
    } else {
      forall k: nat | n < k ensures states(k).state != IDLE {
        StaysOnWay(sqrt, states, rounds, n, dt, k);
      }
    }
  }
}
