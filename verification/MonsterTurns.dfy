/** What each turn of a monster does, told by its effect, and what whole hunts come to: when an
    attacker strikes, and when it never does.
 */
module MonsterTurns {
  import opened Wrappers
  import opened Geometry
  import opened MonsterAI
  import opened MonsterRuns

  // ---- One turn ----

  /** The monster asked for a path from where it stood to its new goal, and older requests are void. */
  ghost predicate Asks(m: Mon, next: Mon, state: MonsterState) {
    && next.version > m.version
    && (exists r :: r in next.pending && r == Request(next.version, m.position, next.goal, state))
    && (forall r :: r in m.pending ==> r in next.pending)
  }

  /** Nothing but the way, the goal and the hunt takes part in a turn of a living monster. */
  predicate SameBody(m: Mon, next: Mon) {
    && next.hp == m.hp && next.maxHp == m.maxHp && next.spawn == m.spawn && next.path == m.path
    && next.deadTimer == m.deadTimer && next.respawnSec == m.respawnSec
  }

  /** On the way to its waypoint: one step that changes the distance d to |d - MOVE_SPEED * dt|, or, in
      the neighbourhood of the waypoint, the next one. */
  ghost predicate Walks(sqrt: real -> real, m: Mon, dt: real, next: Mon)
    requires !PathFinished(m)
  {
    var w := m.path[m.index];
    var d := Dist(sqrt, w, m.position);
    if d < WAYPOINT_EPSILON then next.index == m.index + 1 && next.position == m.position
    else next.index == m.index && Dist(sqrt, w, next.position) == Abs(d - MOVE_SPEED * dt)
  }

  /** The turn of an idle monster: without a candidate nothing happens, with one the hunt starts. */
  lemma IdleTurn(sqrt: real -> real, m: Mon, dt: real, view: View)
    requires m.state == IDLE
    ensures var next := Turn(sqrt, m, dt, view);
            && SameBody(m, next)
            && (view.candidate.None? ==> next == m)
            && (view.candidate.Some? ==>
                  && next.target == view.candidate.value.0 && next.goal == view.candidate.value.1
                  && (next.state == CHASE || next.state == ATTACK) && Asks(m, next, CHASE))
  {
    if view.candidate.Some? {
      var next := Turn(sqrt, m, dt, view);
      assert Request(next.version, m.position, next.goal, CHASE) in next.pending;
    }
  }

  /** Follows the target at `w`: the goal moves there when it is off by more than the tolerance, with
      a new request, and never otherwise. */
  ghost predicate Follows(sqrt: real -> real, m: Mon, w: Vec3, next: Mon) {
    && next.target == m.target
    && (Dist(sqrt, m.goal, w) <= RETARGET_EPSILON ==> next.goal == m.goal)
    && (Dist(sqrt, m.goal, w) > RETARGET_EPSILON ==> next.goal == w && Asks(m, next, m.state))
  }

  /** A chasing monster that follows its target attacks if its waypoint is in range, and walks on
      otherwise. */
  lemma ChaseTurn(sqrt: real -> real, m: Mon, dt: real, view: View)
    requires IsSqrt(sqrt) && m.state == CHASE && Followed(sqrt, m, view)
    ensures var next := Turn(sqrt, m, dt, view);
            && SameBody(m, next) && Follows(sqrt, m, view.whereabouts.value, next)
            && (PathFinished(m) ==> next.state == CHASE && next.position == m.position && next.index == m.index)
            && (!PathFinished(m) ==>
                  if Dist(sqrt, m.path[m.index], m.position) <= ATTACK_RANGE then
                    next.state == ATTACK && next.position == m.position && next.index == m.index
                  else
                    next.state == CHASE && Walks(sqrt, m, dt, next))
  {
    var next := Turn(sqrt, m, dt, view);
    var d := Decide(sqrt, m, view);
    if Dist(sqrt, m.goal, view.whereabouts.value) > RETARGET_EPSILON {
      assert Request(next.version, m.position, next.goal, CHASE) in next.pending;
    }
    if !PathFinished(m) && Dist(sqrt, m.path[m.index], m.position) > ATTACK_RANGE {
      WalkDistance(sqrt, d, dt);
    }
  }

  /** The way home: asked for at once; a monster without waypoints to go is put home and rests. */
  ghost predicate TurnsHome(sqrt: real -> real, m: Mon, dt: real, next: Mon) {
    && next.goal == m.spawn && Asks(m, next, RETURN)
    && (PathFinished(m) ==> next.state == IDLE && next.position == m.spawn)
    && (!PathFinished(m) ==> next.state == RETURN && Walks(sqrt, m, dt, next))
  }

  /** A hunting monster whose target is gone or out of its chase range turns home; an attacking one
      also forgets the target. */
  lemma LostTurn(sqrt: real -> real, m: Mon, dt: real, view: View)
    requires IsSqrt(sqrt) && (m.state == CHASE || m.state == ATTACK) && !Followed(sqrt, m, view)
    ensures var next := Turn(sqrt, m, dt, view);
            && SameBody(m, next) && TurnsHome(sqrt, m, dt, next)
            && next.target == if m.state == ATTACK then 0 else m.target
  {
    var next := Turn(sqrt, m, dt, view);
    assert Request(next.version, m.position, next.goal, RETURN) in next.pending;
    if !PathFinished(m) && Dist(sqrt, m.path[m.index], m.position) >= WAYPOINT_EPSILON {
      WalkDistance(sqrt, Decide(sqrt, m, view), dt);
    }
  }

  /** A returning monster walks, and rests once it has no waypoints to go. */
  lemma ReturnTurn(sqrt: real -> real, m: Mon, dt: real, view: View)
    requires IsSqrt(sqrt) && m.state == RETURN
    ensures var next := Turn(sqrt, m, dt, view);
            && SameBody(m, next) && next.goal == m.goal && next.version == m.version && next.pending == m.pending
            && (PathFinished(m) ==> next.state == IDLE && next.position == m.spawn)
            && (!PathFinished(m) ==> next.state == RETURN && Walks(sqrt, m, dt, next))
  {
    if !PathFinished(m) && Dist(sqrt, m.path[m.index], m.position) >= WAYPOINT_EPSILON {
      WalkDistance(sqrt, m, dt);
    }
  }

  /** The goal after following a target at `w`. */
  function Aimed(sqrt: real -> real, goal: Vec3, w: Vec3): Vec3 {
    if Dist(sqrt, goal, w) > RETARGET_EPSILON then w else goal
  }

  /** An attacking monster that follows its target stays where it is; it attacks on if its goal is in
      range, and takes up the chase otherwise. */
  lemma AttackTurn(sqrt: real -> real, m: Mon, dt: real, view: View)
    requires m.state == ATTACK && Followed(sqrt, m, view)
    ensures var next := Turn(sqrt, m, dt, view);
            && SameBody(m, next) && next.position == m.position && next.index == m.index && next.target == m.target
            && next.goal == Aimed(sqrt, m.goal, view.whereabouts.value)
            && (Dist(sqrt, next.goal, m.position) <= ATTACK_RANGE ==>
                  && next.state == ATTACK && Attacks(sqrt, m, view)
                  && (TurnFires(sqrt, m, dt, view) <==> m.attackTimer + dt >= ATTACK_COOLDOWN))
            && (Dist(sqrt, next.goal, m.position) > ATTACK_RANGE ==>
                  && next.state == CHASE && Asks(m, next, CHASE)
                  && !TurnFires(sqrt, m, dt, view) && !Attacks(sqrt, m, view))
  {
    var next := Turn(sqrt, m, dt, view);
    if Dist(sqrt, next.goal, m.position) > ATTACK_RANGE {
      assert Request(next.version, m.position, next.goal, CHASE) in next.pending;
    }
  }

  /** A finished request replaces the path if and only if it is the newest, the monster lives, and is
      still in the state it asked in or went from chasing to attacking; a first waypoint in the
      neighbourhood is skipped. */
  lemma PathTaken(sqrt: real -> real, m: Mon, r: Request, waypoints: seq<Vec3>)
    requires r in m.pending
    ensures var next := Step(sqrt, m, PathDone(r, waypoints));
            var taken := r.version == m.version && m.state != DEAD &&
                         (r.state == m.state || (r.state == CHASE && m.state == ATTACK));
            && r !in next.pending && next.position == m.position && next.state == m.state
            && (!taken ==> next.path == m.path && next.index == m.index)
            && (taken ==>
                  && next.path == waypoints
                  && (next.index == 1 <==>
                        |waypoints| >= 2 && Dist(sqrt, waypoints[0], m.position) < WAYPOINT_EPSILON)
                  && (next.index == 0 || next.index == 1))
  {
  }

  // ---- An attacker whose goal stays in range strikes ----

  /** At every turn the target is online in chase range and the goal, following it, is in the attack
      range of the position. */
  predicate Holds(sqrt: real -> real, pos: Vec3, goal: Vec3, events: seq<Event>)
    decreases |events|
  {
    events == [] ||
    if events[0].AiTurn? then
      && events[0].view.whereabouts.Some?
      && var w := events[0].view.whereabouts.value;
         && Dist(sqrt, w, pos) <= CHASE_RANGE && Dist(sqrt, Aimed(sqrt, goal, w), pos) <= ATTACK_RANGE
         && Holds(sqrt, pos, Aimed(sqrt, goal, w), events[1..])
    else Holds(sqrt, pos, goal, events[1..])
  }

  /** At every turn the target is online and so near that the tolerance of the goal does not matter. */
  ghost predicate Close(sqrt: real -> real, pos: Vec3, events: seq<Event>) {
    forall i :: 0 <= i < |events| && events[i].AiTurn? ==>
      && events[i].view.whereabouts.Some?
      && Dist(sqrt, events[i].view.whereabouts.value, pos) <= ATTACK_RANGE - RETARGET_EPSILON
  }

  lemma {:induction false} CloseHolds(sqrt: real -> real, pos: Vec3, goal: Vec3, events: seq<Event>)
    requires IsSqrt(sqrt) && Close(sqrt, pos, events)
    ensures Holds(sqrt, pos, goal, events)
    decreases |events|
  {
    if events != [] {
      assert Close(sqrt, pos, events[1..]) by {
        forall i | 0 <= i < |events[1..]| && events[1..][i].AiTurn?
          ensures events[1..][i].view.whereabouts.Some? &&
                  Dist(sqrt, events[1..][i].view.whereabouts.value, pos) <= ATTACK_RANGE - RETARGET_EPSILON
        {
          assert events[1..][i] == events[i + 1];
        }
      }
      if events[0].AiTurn? {
        var w := events[0].view.whereabouts.value;
        Triangle(sqrt, goal, w, pos);
        CloseHolds(sqrt, pos, Aimed(sqrt, goal, w), events[1..]);
      } else {
        CloseHolds(sqrt, pos, goal, events[1..]);
      }
    }
  }

  /** The hits of the run that are on player u. */
  function HitsOn(sqrt: real -> real, m: Mon, events: seq<Event>, u: nat): nat
    decreases |events|
  {
    if events == [] then 0
    else
      (if m.target == u && events[0].AiTurn? && TurnFires(sqrt, m, events[0].dt, events[0].view) then 1 else 0) +
      HitsOn(sqrt, Step(sqrt, m, events[0]), events[1..], u)
  }

  lemma {:induction false} HitsOnSplit(sqrt: real -> real, m: Mon, a: seq<Event>, b: seq<Event>, u: nat)
    ensures HitsOn(sqrt, m, a + b, u) == HitsOn(sqrt, m, a, u) + HitsOn(sqrt, Run(sqrt, m, a), b, u)
    decreases |a|
  {
    if a == [] {
      assert a + b == b;
    } else {
      assert (a + b)[1..] == a[1..] + b;
      HitsOnSplit(sqrt, Step(sqrt, m, a[0]), a[1..], b, u);
    }
  }

  /** An attacker that lives and holds its range stands and attacks in every turn, always the same
      player. */
  lemma {:induction false} StandsAndAttacks(sqrt: real -> real, m: Mon, events: seq<Event>)
    requires m.state == ATTACK && Holds(sqrt, m.position, m.goal, events) && !DiesDuring(sqrt, m, events)
    ensures var after := Run(sqrt, m, events);
            after.state == ATTACK && after.position == m.position && after.target == m.target
    ensures AttackTime(sqrt, m, events) == TurnTime(events)
    ensures HitsOn(sqrt, m, events, m.target) == Hits(sqrt, m, events)
    decreases |events|
  {
    if events != [] {
      if events[0].AiTurn? {
        AttackTurn(sqrt, m, events[0].dt, events[0].view);
      }
      assert !DiesDuring(sqrt, Step(sqrt, m, events[0]), events[1..]);
      StandsAndAttacks(sqrt, Step(sqrt, m, events[0]), events[1..]);
    }
  }

  /** Without a hit the timer ends below the cooldown, if any attack turn has taken place. */
  lemma {:induction false} NoHitLeavesTimerShort(sqrt: real -> real, m: Mon, events: seq<Event>)
    requires Hits(sqrt, m, events) == 0 && TimeFlows(events)
    ensures Run(sqrt, m, events).attackTimer < ATTACK_COOLDOWN || AttackTime(sqrt, m, events) == 0.0
    ensures m.attackTimer < ATTACK_COOLDOWN ==> Run(sqrt, m, events).attackTimer < ATTACK_COOLDOWN
    decreases |events|
  {
    if events != [] {
      TimerStep(sqrt, m, events[0]);
      NoHitLeavesTimerShort(sqrt, Step(sqrt, m, events[0]), events[1..]);
    }
  }

  /** Such an attacker strikes its target before its turns last a cooldown, counted with the time already
      on its timer; with ticks below the cooldown, exactly once per full cooldown. */
  lemma AttackerStrikes(sqrt: real -> real, m: Mon, events: seq<Event>)
    requires m.state == ATTACK && Holds(sqrt, m.position, m.goal, events) && !DiesDuring(sqrt, m, events)
    requires TimeFlows(events) && 0.0 <= m.attackTimer
    ensures 0.0 < TurnTime(events) && m.attackTimer + TurnTime(events) >= ATTACK_COOLDOWN ==>
              HitsOn(sqrt, m, events, m.target) >= 1
    ensures TicksBelow(events, ATTACK_COOLDOWN) && m.attackTimer < ATTACK_COOLDOWN ==>
              HitsOn(sqrt, m, events, m.target) == ((m.attackTimer + TurnTime(events)) / ATTACK_COOLDOWN).Floor
  {
    StandsAndAttacks(sqrt, m, events);
    TimerLedger(sqrt, m, events);
    if Hits(sqrt, m, events) == 0 {
      NoHitLeavesTimerShort(sqrt, m, events);
    }
    if TicksBelow(events, ATTACK_COOLDOWN) && m.attackTimer < ATTACK_COOLDOWN {
      TimerStaysShort(sqrt, m, events);
    }
  }

  /** A chaser whose waypoint is in range starts to attack with its turn, and strikes once its target
      stays close for a cooldown. */
  lemma ChaserStrikes(sqrt: real -> real, m: Mon, dt: real, view: View, events: seq<Event>)
    requires IsSqrt(sqrt) && m.state == CHASE && Followed(sqrt, m, view) && 0.0 <= m.attackTimer
    requires !PathFinished(m) && Dist(sqrt, m.path[m.index], m.position) <= ATTACK_RANGE
    requires Close(sqrt, m.position, events) && !DiesDuring(sqrt, Turn(sqrt, m, dt, view), events)
    requires TimeFlows(events) && TurnTime(events) >= ATTACK_COOLDOWN
    ensures Turn(sqrt, m, dt, view).state == ATTACK
    ensures HitsOn(sqrt, m, [AiTurn(dt, view)] + events, m.target) >= 1
  {
    var next := Turn(sqrt, m, dt, view);
    ChaseTurn(sqrt, m, dt, view);
    TimerStep(sqrt, m, AiTurn(dt, view));
    CloseHolds(sqrt, next.position, next.goal, events);
    AttackerStrikes(sqrt, next, events);
    assert ([AiTurn(dt, view)] + events)[1..] == events;
  }

  // ---- A hunter that never strikes ----

  /** Whatever path comes back, its first waypoint to go is in attack range of `pos`. */
  predicate ShortFirstLeg(sqrt: real -> real, pos: Vec3, waypoints: seq<Vec3>) {
    && waypoints != [] && Dist(sqrt, waypoints[0], pos) <= ATTACK_RANGE
    && (|waypoints| > 1 ==> Dist(sqrt, waypoints[1], pos) <= ATTACK_RANGE)
  }

  predicate WaypointInRange(sqrt: real -> real, m: Mon) {
    !PathFinished(m) && Dist(sqrt, m.path[m.index], m.position) <= ATTACK_RANGE
  }

  /** At every turn the target stands at `w`, and every path begins with a short leg. */
  predicate StandsStill(sqrt: real -> real, pos: Vec3, w: Vec3, e: Event) {
    && (e.AiTurn? ==> e.view.whereabouts == Some(w))
    && (e.PathDone? ==> ShortFirstLeg(sqrt, pos, e.waypoints))
  }

  ghost predicate AllStandStill(sqrt: real -> real, pos: Vec3, w: Vec3, events: seq<Event>) {
    forall i :: 0 <= i < |events| ==> StandsStill(sqrt, pos, w, events[i])
  }

  lemma TailStandsStill(sqrt: real -> real, pos: Vec3, w: Vec3, events: seq<Event>)
    requires events != [] && AllStandStill(sqrt, pos, w, events)
    ensures AllStandStill(sqrt, pos, w, events[1..]) && StandsStill(sqrt, pos, w, events[0])
  {
    forall i | 0 <= i < |events[1..]| ensures StandsStill(sqrt, pos, w, events[1..][i]) {
      assert events[1..][i] == events[i + 1];
    }
  }

  /** The waypoint is in attack range, but the goal that follows a target at `w` is not: the chase
      turns to attack, and the attack back to chase. */
  ghost predicate Stalled(sqrt: real -> real, m: Mon, w: Vec3) {
    && (m.state == CHASE || m.state == ATTACK) && WaypointInRange(sqrt, m)
    && Dist(sqrt, w, m.position) <= CHASE_RANGE && Dist(sqrt, Aimed(sqrt, m.goal, w), m.position) > ATTACK_RANGE
  }

  lemma StallStep(sqrt: real -> real, m: Mon, w: Vec3, e: Event)
    requires IsSqrt(sqrt) && Stalled(sqrt, m, w) && StandsStill(sqrt, m.position, w, e)
    requires Step(sqrt, m, e).state != DEAD
    ensures Stalled(sqrt, Step(sqrt, m, e), w) && Step(sqrt, m, e).position == m.position
    ensures e.AiTurn? ==> !TurnFires(sqrt, m, e.dt, e.view)
  {
    OnAxis(sqrt, w, w);
    if e.AiTurn? {
      if m.state == ATTACK {
        AttackTurn(sqrt, m, e.dt, e.view);
      } else {
        ChaseTurn(sqrt, m, e.dt, e.view);
      }
    }
  }

  /** A stalled hunter neither moves nor strikes, for as long as it lives, its target stands still and
      the paths it gets begin with a leg within the attack range. */
  lemma {:induction false} StallsForever(sqrt: real -> real, m: Mon, w: Vec3, events: seq<Event>)
    requires IsSqrt(sqrt) && Stalled(sqrt, m, w) && AllStandStill(sqrt, m.position, w, events)
    requires !DiesDuring(sqrt, m, events)
    ensures Stalled(sqrt, Run(sqrt, m, events), w) && Run(sqrt, m, events).position == m.position
    ensures Hits(sqrt, m, events) == 0
    decreases |events|
  {
    if events != [] {
      TailStandsStill(sqrt, m.position, w, events);
      assert !DiesDuring(sqrt, Step(sqrt, m, events[0]), events[1..]);
      StallStep(sqrt, m, w, events[0]);
      StallsForever(sqrt, Step(sqrt, m, events[0]), w, events[1..]);
    }
  }

  lemma {:induction false} StandingHolds(sqrt: real -> real, pos: Vec3, goal: Vec3, w: Vec3, events: seq<Event>)
    requires IsSqrt(sqrt) && AllStandStill(sqrt, pos, w, events) && Dist(sqrt, w, pos) <= CHASE_RANGE
    requires events == [] || Dist(sqrt, Aimed(sqrt, goal, w), pos) <= ATTACK_RANGE
    ensures Holds(sqrt, pos, goal, events)
    decreases |events|
  {
    if events != [] {
      OnAxis(sqrt, w, w);
      TailStandsStill(sqrt, pos, w, events);
      StandingHolds(sqrt, pos, if events[0].AiTurn? then Aimed(sqrt, goal, w) else goal, w, events[1..]);
    }
  }

  lemma {:induction false} HitsOnAtMostHits(sqrt: real -> real, m: Mon, events: seq<Event>, u: nat)
    ensures HitsOn(sqrt, m, events, u) <= Hits(sqrt, m, events)
    decreases |events|
  {
    if events != [] {
      HitsOnAtMostHits(sqrt, Step(sqrt, m, events[0]), events[1..], u);
    }
  }

  /** A target that stands still before an attacker for a cooldown is struck if and only if the goal
      that follows it is in range: being in range itself is not enough. */
  lemma StandingTargetIsHitIff(sqrt: real -> real, m: Mon, w: Vec3, events: seq<Event>)
    requires IsSqrt(sqrt) && m.state == ATTACK && WaypointInRange(sqrt, m) && 0.0 <= m.attackTimer
    requires Dist(sqrt, w, m.position) <= CHASE_RANGE && AllStandStill(sqrt, m.position, w, events)
    requires !DiesDuring(sqrt, m, events) && TimeFlows(events)
    requires 0.0 < TurnTime(events) && m.attackTimer + TurnTime(events) >= ATTACK_COOLDOWN
    ensures HitsOn(sqrt, m, events, m.target) >= 1 <==> Dist(sqrt, Aimed(sqrt, m.goal, w), m.position) <= ATTACK_RANGE
  {
    if Dist(sqrt, Aimed(sqrt, m.goal, w), m.position) <= ATTACK_RANGE {
      StandingHolds(sqrt, m.position, m.goal, w, events);
      AttackerStrikes(sqrt, m, events);
    } else {
      StallsForever(sqrt, m, w, events);
      HitsOnAtMostHits(sqrt, m, events, m.target);
    }
  }

  lemma OnAxis(sqrt: real -> real, a: Vec3, b: Vec3)
    requires IsSqrt(sqrt) && a.y == b.y
    ensures Dist(sqrt, a, b) == Abs(a.x - b.x)
  {
    DistSquared(sqrt, a, b);
    EqualSquares(Dist(sqrt, a, b), Abs(a.x - b.x));
  }

  /** A new monster at (0,0) sees player 7 at (0.55,0) behind an obstacle, and gets the path around its
      corner at (0.3,0.4); the player steps to (0.5,0), into the attack range, and stands there: it is
      never hit. */
  lemma PlayerInRangeIsNeverHit(sqrt: real -> real, maxHp: int, later: seq<Event>)
    requires IsSqrt(sqrt)
    requires AllStandStill(sqrt, Vec3(0.0, 0.0, 0.0), Vec3(0.5, 0.0, 0.0), later)
    requires var o, goal := Vec3(0.0, 0.0, 0.0), Vec3(0.55, 0.0, 0.0);
             var path := PathDone(Request(1, o, goal, CHASE), [o, Vec3(0.3, 0.4, 0.0), goal]);
             !DiesDuring(sqrt, Newborn(o, maxHp, 60), [AiTurn(0.1, View(Some((7, goal)), None)), path] + later)
    ensures var o, goal := Vec3(0.0, 0.0, 0.0), Vec3(0.55, 0.0, 0.0);
            var path := PathDone(Request(1, o, goal, CHASE), [o, Vec3(0.3, 0.4, 0.0), goal]);
            && Dist(sqrt, Vec3(0.5, 0.0, 0.0), o) <= ATTACK_RANGE
            && Hits(sqrt, Newborn(o, maxHp, 60), [AiTurn(0.1, View(Some((7, goal)), None)), path] + later) == 0
  {
    var o, corner, goal, near := Vec3(0.0, 0.0, 0.0), Vec3(0.3, 0.4, 0.0), Vec3(0.55, 0.0, 0.0), Vec3(0.5, 0.0, 0.0);
    OnAxis(sqrt, o, o);
    DistSquared(sqrt, corner, o);
    EqualSquares(Dist(sqrt, corner, o), 0.5);
    OnAxis(sqrt, goal, o);
    OnAxis(sqrt, near, o);
    OnAxis(sqrt, goal, near);
    var seen := AiTurn(0.1, View(Some((7, goal)), None));
    var path := PathDone(Request(1, o, goal, CHASE), [o, corner, goal]);
    var m := Newborn(o, maxHp, 60);
    var hunting := Step(sqrt, m, seen);
    assert Request(1, o, goal, CHASE) in hunting.pending;
    var stalled := Step(sqrt, hunting, path);
    assert ([seen, path] + later)[1..] == [path] + later && ([path] + later)[1..] == later;
    StallsForever(sqrt, stalled, near, later);
  }

  // ---- A hunt on a straight path ----

  /** A turn that sees the target at `w` and takes a step of at least `delta` and at most one unit. */
  predicate HuntTurn(w: Vec3, delta: real, e: Event) {
    e.AiTurn? && e.view.whereabouts == Some(w) && 0.0 < delta <= MOVE_SPEED * e.dt <= 2.0 * ATTACK_RANGE
  }

  ghost predicate AllHuntTurns(w: Vec3, delta: real, events: seq<Event>) {
    forall i :: 0 <= i < |events| ==> HuntTurn(w, delta, events[i])
  }

  /** On the last leg to a goal that follows a target at `w`. */
  ghost predicate OnLastLeg(sqrt: real -> real, m: Mon, w: Vec3) {
    && m.state == CHASE && !PathFinished(m) && m.path[m.index] == m.goal
    && Dist(sqrt, m.goal, w) <= RETARGET_EPSILON
    && Dist(sqrt, m.goal, m.position) <= CHASE_RANGE - RETARGET_EPSILON
  }

  /** One turn on the last leg: in range it starts the attack, otherwise it brings the goal into range or
      nearer by its step. */
  lemma LastLegTurn(sqrt: real -> real, m: Mon, w: Vec3, delta: real, e: Event)
    requires IsSqrt(sqrt) && OnLastLeg(sqrt, m, w) && HuntTurn(w, delta, e)
    ensures var next, d := Step(sqrt, m, e), Dist(sqrt, m.goal, m.position);
            && next.goal == m.goal && next.target == m.target && next.attackTimer == m.attackTimer
            && (d <= ATTACK_RANGE ==> next.state == ATTACK && next.position == m.position)
            && (d > ATTACK_RANGE ==>
                  && OnLastLeg(sqrt, next, w)
                  && (Dist(sqrt, m.goal, next.position) <= ATTACK_RANGE ||
                      Dist(sqrt, m.goal, next.position) <= d - delta))
  {
    DistSymmetric(sqrt, m.goal, w);
    Triangle(sqrt, w, m.goal, m.position);
    ChaseTurn(sqrt, m, e.dt, e.view);
    TimerStep(sqrt, m, e);
  }

  /** n steps of length delta. */
  function Steps(n: nat, delta: real): real {
    if n == 0 then 0.0 else delta + Steps(n - 1, delta)
  }

  lemma TailHunts(w: Vec3, delta: real, events: seq<Event>)
    requires events != [] && AllHuntTurns(w, delta, events)
    ensures HuntTurn(w, delta, events[0]) && AllHuntTurns(w, delta, events[1..])
  {
    forall i | 0 <= i < |events[1..]| ensures HuntTurn(w, delta, events[1..][i]) {
      assert events[1..][i] == events[i + 1];
    }
  }

  /** The monster attacks the goal of its hunt, which is in range. */
  predicate Caught(sqrt: real -> real, m: Mon, caught: Mon) {
    && caught.state == ATTACK && caught.target == m.target && caught.goal == m.goal
    && caught.attackTimer == m.attackTimer && Dist(sqrt, caught.goal, caught.position) <= ATTACK_RANGE
  }

  /** On the last leg to a target that stands still the monster comes to attack it, in as many turns as
      the distance to the attack range takes and one more. */
  lemma {:induction false} ChaseCatches(sqrt: real -> real, m: Mon, w: Vec3, delta: real, events: seq<Event>)
      returns (k: nat)
    requires IsSqrt(sqrt) && OnLastLeg(sqrt, m, w) && AllHuntTurns(w, delta, events) && events != []
    requires Dist(sqrt, m.goal, m.position) <= ATTACK_RANGE + Steps(|events| - 1, delta)
    ensures 0 < k <= |events| && Caught(sqrt, m, Run(sqrt, m, events[..k]))
    decreases |events|
  {
    var next, rest := Step(sqrt, m, events[0]), events[1..];
    TailHunts(w, delta, events);
    LastLegTurn(sqrt, m, w, delta, events[0]);
    if Dist(sqrt, m.goal, m.position) <= ATTACK_RANGE {
      k := 1;
      assert events[..1][1..] == [] && Run(sqrt, m, events[..1]) == Run(sqrt, next, events[..1][1..]);
    } else {
      StepsNonNegative(|rest| - 1, delta);
      k := ChaseCatches(sqrt, next, w, delta, rest);
      assert events[..k + 1][1..] == rest[..k];
      k := k + 1;
    }
  }

  lemma {:induction false} StepsNonNegative(n: nat, delta: real)
    requires 0.0 <= delta
    ensures 0.0 <= Steps(n, delta)
  {
    if n > 0 {
      StepsNonNegative(n - 1, delta);
    }
  }

  lemma {:induction false} TurnsDoNotKill(sqrt: real -> real, m: Mon, events: seq<Event>)
    requires m.state != DEAD && forall i :: 0 <= i < |events| ==> events[i].AiTurn?
    ensures !DiesDuring(sqrt, m, events)
    decreases |events|
  {
    if events != [] {
      TurnKeepsAlive(sqrt, m, events[0].dt, events[0].view);
      TurnsDoNotKill(sqrt, Step(sqrt, m, events[0]), events[1..]);
    }
  }

  lemma {:induction false} HuntTimeFlows(w: Vec3, delta: real, events: seq<Event>)
    requires AllHuntTurns(w, delta, events)
    ensures TimeFlows(events) && 0.0 <= TurnTime(events)
  {
    if events != [] {
      TailHunts(w, delta, events);
      HuntTimeFlows(w, delta, events[1..]);
    }
  }

  lemma {:induction false} TurnTimeSplit(a: seq<Event>, b: seq<Event>)
    ensures TurnTime(a + b) == TurnTime(a) + TurnTime(b)
  {
    if a == [] {
      assert a + b == b;
    } else {
      assert (a + b)[1..] == a[1..] + b;
      TurnTimeSplit(a[1..], b);
    }
  }

  /** An attacker whose goal is in range strikes a target that stands in the tolerance of the goal. */
  lemma CaughtIsStruck(sqrt: real -> real, m: Mon, w: Vec3, delta: real, events: seq<Event>)
    requires IsSqrt(sqrt) && m.state == ATTACK && 0.0 <= m.attackTimer && AllHuntTurns(w, delta, events)
    requires Dist(sqrt, m.goal, m.position) <= ATTACK_RANGE && Dist(sqrt, m.goal, w) <= RETARGET_EPSILON
    requires TurnTime(events) >= ATTACK_COOLDOWN
    ensures HitsOn(sqrt, m, events, m.target) >= 1
  {
    DistSymmetric(sqrt, m.goal, w);
    Triangle(sqrt, w, m.goal, m.position);
    forall i | 0 <= i < |events| ensures StandsStill(sqrt, m.position, w, events[i]) {
      assert HuntTurn(w, delta, events[i]);
    }
    StandingHolds(sqrt, m.position, m.goal, w, events);
    TurnsDoNotKill(sqrt, m, events);
    HuntTimeFlows(w, delta, events);
    AttackerStrikes(sqrt, m, events);
  }

  lemma LateTurnsHunt(w: Vec3, delta: real, hunt: seq<Event>, fight: seq<Event>, k: nat)
    requires AllHuntTurns(w, delta, hunt) && AllHuntTurns(w, delta, fight) && k <= |hunt|
    ensures AllHuntTurns(w, delta, hunt[k..] + fight)
    ensures TurnTime(hunt[k..] + fight) >= TurnTime(fight)
    ensures hunt + fight == hunt[..k] + (hunt[k..] + fight)
  {
    var late := hunt[k..];
    forall i | 0 <= i < |late| ensures HuntTurn(w, delta, late[i]) {
      assert late[i] == hunt[i + k];
    }
    HuntTimeFlows(w, delta, late);
    TurnTimeSplit(late, fight);
  }

  /** A target that stands still is struck: `hunt` is long enough to come into range, `fight` lasts a
      cooldown. */
  lemma StandingTargetIsStruck(sqrt: real -> real, m: Mon, w: Vec3, delta: real, hunt: seq<Event>, fight: seq<Event>)
    requires IsSqrt(sqrt) && OnLastLeg(sqrt, m, w) && 0.0 <= m.attackTimer
    requires AllHuntTurns(w, delta, hunt) && AllHuntTurns(w, delta, fight) && hunt != []
    requires Dist(sqrt, m.goal, m.position) <= ATTACK_RANGE + Steps(|hunt| - 1, delta)
    requires TurnTime(fight) >= ATTACK_COOLDOWN
    ensures HitsOn(sqrt, m, hunt + fight, m.target) >= 1
  {
    var k := ChaseCatches(sqrt, m, w, delta, hunt);
    LateTurnsHunt(w, delta, hunt, fight, k);
    CaughtIsStruck(sqrt, Run(sqrt, m, hunt[..k]), w, delta, hunt[k..] + fight);
    HitsOnSplit(sqrt, m, hunt[..k], hunt[k..] + fight, m.target);
  }

  /** An idle monster with no waypoints to go sees a player, and gets the straight path to it. */
  lemma SeenIsHunted(sqrt: real -> real, m: Mon, u: nat, w: Vec3, dt: real)
    requires IsSqrt(sqrt) && m.state == IDLE && PathFinished(m) && Dist(sqrt, w, m.position) < 1.0
    ensures var path := PathDone(Request(m.version + 1, m.position, w, CHASE), [m.position, w]);
            var going := Step(sqrt, Step(sqrt, m, AiTurn(dt, View(Some((u, w)), None))), path);
            && OnLastLeg(sqrt, going, w) && going.target == u && going.goal == w && going.position == m.position
            && going.attackTimer == m.attackTimer
  {
    var chasing := Step(sqrt, m, AiTurn(dt, View(Some((u, w)), None)));
    assert Request(m.version + 1, m.position, w, CHASE) in chasing.pending;
    OnAxis(sqrt, w, w);
    OnAxis(sqrt, m.position, m.position);
  }

  lemma HitsAfterTwo(sqrt: real -> real, m: Mon, a: Event, b: Event, rest: seq<Event>, u: nat)
    ensures HitsOn(sqrt, m, [a, b] + rest, u) >= HitsOn(sqrt, Step(sqrt, Step(sqrt, m, a), b), rest, u)
  {
    assert ([a, b] + rest)[1..] == [b] + rest && ([b] + rest)[1..] == rest;
  }

  /** An idle monster with no waypoints to go sees a player in aggro range and gets the straight path to it: with
      ticks of 100 to 500 ms, the player who stands still is struck within five ticks and a cooldown. */
  lemma SeenPlayerIsStruck(sqrt: real -> real, m: Mon, u: nat, w: Vec3, dt: real, hunt: seq<Event>, fight: seq<Event>)
    requires IsSqrt(sqrt) && m.state == IDLE && PathFinished(m) && 0.0 <= m.attackTimer
    requires Dist(sqrt, w, m.position) < 1.0
    requires AllHuntTurns(w, 0.2, hunt) && AllHuntTurns(w, 0.2, fight)
    requires |hunt| == 5 && TurnTime(fight) >= ATTACK_COOLDOWN
    ensures var seen := AiTurn(dt, View(Some((u, w)), None));
            var path := PathDone(Request(m.version + 1, m.position, w, CHASE), [m.position, w]);
            HitsOn(sqrt, m, [seen, path] + (hunt + fight), u) >= 1
  {
    var seen := AiTurn(dt, View(Some((u, w)), None));
    var path := PathDone(Request(m.version + 1, m.position, w, CHASE), [m.position, w]);
    SeenIsHunted(sqrt, m, u, w, dt);
    assert Steps(4, 0.2) == 0.2 + (0.2 + (0.2 + (0.2 + Steps(0, 0.2))));
    StandingTargetIsStruck(sqrt, Step(sqrt, Step(sqrt, m, seen), path), w, 0.2, hunt, fight);
    HitsAfterTwo(sqrt, m, seen, path, hunt + fight, u);
  }
}
