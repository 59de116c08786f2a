/** The whole game strand: players and monsters in one run.  Every task of the server is one step;
    the players of such a run follow a run of `World`, each monster one of `MonsterRuns`, so
    whatever holds of those runs holds of the server.
 */
module Game {
  import opened Wrappers
  import opened Geometry
  import opened ZoneIndex
  import opened World
  import opened WorldRuns
  import opened GameServer
  import opened Encounters
  import AI = MonsterAI
  import M = MonsterRuns
  import AdminService

  datatype Server = Server(players: State, monsters: seq<AI.Mon>)

  /** An attack carries the monster the handler selected, which may be any here; a buff the monsters
      of its id range; a tick the log of its turns. */
  datatype Task =
    | Player(e: Event)
    | Attack(acc: string, target: nat)
    | Buff(which: set<nat>, add: int)
    | PathResult(monster: nat, request: AI.Request, waypoints: seq<Vec3>)
    | Tick(dt: real, log: seq<TurnLog>)

  /** The players after the turns of a tick. */
  function Outcome(sqrt: real -> real, layout: Layout, dt: real, log: seq<TurnLog>, first: State): State
    requires layout.Positive()
  {
    if log == [] then first else After(sqrt, layout, log[|log| - 1], dt)
  }

  /** What monster j makes of the task. */
  function Share(g: Server, t: Task, j: nat): seq<M.Event> {
    match t
    case Player(_) => []
    case Attack(acc, target) =>
      if acc in g.players.players && j == target then
        [M.Struck(Damage(g.players.players[acc].atk, AI.DEFAULT_DEF))]
      else
        []
    case Buff(which, add) => if j in which then [M.Buffed(add)] else []
    case PathResult(monster, request, waypoints) => if j == monster then [M.PathDone(request, waypoints)] else []
    case Tick(dt, log) => if j < |log| then [M.AiTurn(dt, log[j].view)] else []
  }

  function Step(sqrt: real -> real, layout: Layout, g: Server, t: Task): Server
    requires layout.Positive()
  {
    Server(match t
           case Player(e) => World.Step(layout, g.players, e)
           case Tick(dt, log) => Outcome(sqrt, layout, dt, log, g.players)
           case _ => g.players,
           seq(|g.monsters|, j requires 0 <= j < |g.monsters| => M.Run(sqrt, g.monsters[j], Share(g, t, j))))
  }

  function Run(sqrt: real -> real, layout: Layout, g: Server, tasks: seq<Task>): (after: Server)
    requires layout.Positive()
    ensures |after.monsters| == |g.monsters|
    decreases |tasks|
  {
    if tasks == [] then g
    else Step(sqrt, layout, Run(sqrt, layout, g, tasks[..|tasks| - 1]), tasks[|tasks| - 1])
  }

  /** The server can make the step: hits come from ticks only, buffs have been granted, and every
      turn of a tick saw the players as the turns before it left them. */
  ghost predicate Possible(sqrt: real -> real, layout: Layout, g: Server, t: Task)
    requires layout.Positive()
  {
    match t
    case Player(e) => !e.Hit?
    case Buff(_, add) => AdminService.Granted(add)
    case Tick(dt, log) =>
      && 0.0 <= dt && |log| == |g.monsters|
      && (forall j :: 0 <= j < |log| ==>
            Played(sqrt, layout, dt, log[j], g.monsters[j], AI.Turn(sqrt, g.monsters[j], dt, log[j].view)))
      && Chained(sqrt, layout, dt, log, g.players, Outcome(sqrt, layout, dt, log, g.players))
    case _ => true
  }

  ghost predicate AllPossible(sqrt: real -> real, layout: Layout, g: Server, tasks: seq<Task>)
    requires layout.Positive()
    decreases |tasks|
  {
    tasks == [] ||
    (&& AllPossible(sqrt, layout, g, tasks[..|tasks| - 1])
     && Possible(sqrt, layout, Run(sqrt, layout, g, tasks[..|tasks| - 1]), tasks[|tasks| - 1]))
  }

  // ---- The players follow a run of the world ----

  /** The strikes of a tick. */
  function Strikes(sqrt: real -> real, dt: real, log: seq<TurnLog>): seq<Event>
    decreases |log|
  {
    if log == [] then []
    else
      var t := log[|log| - 1];
      Strikes(sqrt, dt, log[..|log| - 1]) +
      if AI.TurnFires(sqrt, t.mon, dt, t.view) then [Hit(t.mon.target, AI.DEFAULT_ATK)] else []
  }

  function PlayerShare(sqrt: real -> real, t: Task): seq<Event> {
    match t
    case Player(e) => [e]
    case Tick(dt, log) => Strikes(sqrt, dt, log)
    case _ => []
  }

  function PlayerShares(sqrt: real -> real, tasks: seq<Task>): seq<Event>
    decreases |tasks|
  {
    if tasks == [] then []
    else PlayerShares(sqrt, tasks[..|tasks| - 1]) + PlayerShare(sqrt, tasks[|tasks| - 1])
  }

  lemma {:induction false} WorldRunSplit(layout: Layout, w: State, a: seq<Event>, b: seq<Event>)
    requires layout.Positive()
    ensures World.Run(layout, w, a + b) == World.Run(layout, World.Run(layout, w, a), b)
    decreases |b|
  {
    if b == [] {
      assert a + b == a;
    } else {
      var init := b[..|b| - 1];
      WorldRunSplit(layout, w, a, init);
      assert (a + b)[..|a + b| - 1] == a + init;
    }
  }

  lemma RunOneMore(layout: Layout, w: State, events: seq<Event>, e: Event)
    requires layout.Positive()
    ensures World.Run(layout, w, events + [e]) == World.Step(layout, World.Run(layout, w, events), e)
  {
    assert (events + [e])[..|events|] == events;
  }

  /** The turns of a tick are a run of strikes. */
  lemma {:induction false} TickIsStrikes(sqrt: real -> real, layout: Layout, dt: real, log: seq<TurnLog>, first: State,
                                         last: State)
    requires layout.Positive() && Chained(sqrt, layout, dt, log, first, last)
    ensures World.Run(layout, first, Strikes(sqrt, dt, log)) == last
    decreases |log|
  {
    if log != [] {
      var t, init := log[|log| - 1], log[..|log| - 1];
      TickIsStrikes(sqrt, layout, dt, init, first, t.before);
      if AI.TurnFires(sqrt, t.mon, dt, t.view) {
        RunOneMore(layout, first, Strikes(sqrt, dt, init), Hit(t.mon.target, AI.DEFAULT_ATK));
      } else {
        assert Strikes(sqrt, dt, init) + [] == Strikes(sqrt, dt, init);
      }
    }
  }

  lemma StepFollowsWorld(sqrt: real -> real, layout: Layout, g: Server, t: Task)
    requires layout.Positive() && Possible(sqrt, layout, g, t)
    ensures Step(sqrt, layout, g, t).players == World.Run(layout, g.players, PlayerShare(sqrt, t))
  {
    match t
    case Player(e) =>
      assert [e][..0] == [];
      assert World.Run(layout, g.players, [e]) == World.Step(layout, World.Run(layout, g.players, []), e);
    case Tick(dt, log) => TickIsStrikes(sqrt, layout, dt, log, g.players, Outcome(sqrt, layout, dt, log, g.players));
    case _ =>
  }

  lemma {:induction false} PlayersFollowWorld(sqrt: real -> real, layout: Layout, g: Server, tasks: seq<Task>)
    requires layout.Positive() && AllPossible(sqrt, layout, g, tasks)
    ensures Run(sqrt, layout, g, tasks).players == World.Run(layout, g.players, PlayerShares(sqrt, tasks))
    decreases |tasks|
  {
    if tasks != [] {
      var init, t := tasks[..|tasks| - 1], tasks[|tasks| - 1];
      PlayersFollowWorld(sqrt, layout, g, init);
      StepFollowsWorld(sqrt, layout, Run(sqrt, layout, g, init), t);
      WorldRunSplit(layout, g.players, PlayerShares(sqrt, init), PlayerShare(sqrt, t));
    }
  }

  // ---- Each monster follows a run of its own ----

  function Shares(sqrt: real -> real, layout: Layout, g: Server, tasks: seq<Task>, j: nat): seq<M.Event>
    requires layout.Positive()
    decreases |tasks|
  {
    if tasks == [] then []
    else
      var init := tasks[..|tasks| - 1];
      Shares(sqrt, layout, g, init, j) + Share(Run(sqrt, layout, g, init), tasks[|tasks| - 1], j)
  }

  lemma {:induction false} MonsterRunSplit(sqrt: real -> real, m: AI.Mon, a: seq<M.Event>, b: seq<M.Event>)
    ensures M.Run(sqrt, m, a + b) == M.Run(sqrt, M.Run(sqrt, m, a), b)
    decreases |a|
  {
    if a == [] {
      assert a + b == b;
    } else {
      assert (a + b)[1..] == a[1..] + b;
      MonsterRunSplit(sqrt, M.Step(sqrt, m, a[0]), a[1..], b);
    }
  }

  lemma {:induction false} MonstersFollowRuns(sqrt: real -> real, layout: Layout, g: Server, tasks: seq<Task>, j: nat)
    requires layout.Positive() && j < |g.monsters|
    ensures Run(sqrt, layout, g, tasks).monsters[j] == M.Run(sqrt, g.monsters[j], Shares(sqrt, layout, g, tasks, j))
    decreases |tasks|
  {
    if tasks != [] {
      var init, t := tasks[..|tasks| - 1], tasks[|tasks| - 1];
      var mid := Run(sqrt, layout, g, init);
      MonstersFollowRuns(sqrt, layout, g, init, j);
      MonsterRunSplit(sqrt, g.monsters[j], Shares(sqrt, layout, g, init, j), Share(mid, t, j));
    }
  }

  /** On a possible run the monsters' runs have granted buffs and time that flows. */
  lemma {:induction false} SharesAreSound(sqrt: real -> real, layout: Layout, g: Server, tasks: seq<Task>, j: nat)
    requires layout.Positive() && AllPossible(sqrt, layout, g, tasks)
    ensures AdminService.AllGranted(Shares(sqrt, layout, g, tasks, j))
    ensures M.TimeFlows(Shares(sqrt, layout, g, tasks, j))
    decreases |tasks|
  {
    if tasks != [] {
      SharesAreSound(sqrt, layout, g, tasks[..|tasks| - 1], j);
    }
  }

  // ---- What every run of the server keeps ----

  ghost predicate Born(m: AI.Mon) {
    0 < m.maxHp && m == AI.Newborn(m.spawn, m.maxHp, m.respawnSec)
  }

  /** A new server: nobody online, every monster new. */
  ghost predicate Starts(g: Server) {
    g.players == Empty && forall j :: 0 <= j < |g.monsters| ==> Born(g.monsters[j])
  }

  /** The path protocol and the life cycle of a monster are in order. */
  ghost predicate Sane(m: AI.Mon) {
    M.Fresh(m) && M.LifeInv(m)
  }

  lemma MonsterIsSane(sqrt: real -> real, layout: Layout, g: Server, tasks: seq<Task>, j: nat)
    requires layout.Positive() && Starts(g) && AllPossible(sqrt, layout, g, tasks) && j < |g.monsters|
    ensures Sane(Run(sqrt, layout, g, tasks).monsters[j])
  {
    var m := g.monsters[j];
    assert Born(m);
    MonstersFollowRuns(sqrt, layout, g, tasks, j);
    SharesAreSound(sqrt, layout, g, tasks, j);
    M.RunKeepsFresh(sqrt, m, Shares(sqrt, layout, g, tasks, j));
    AdminService.DeadIffNoHp(sqrt, m.spawn, m.maxHp, m.respawnSec, Shares(sqrt, layout, g, tasks, j));
  }

  /** After every possible run of a new server the world invariant holds and every monster is sane. */
  lemma ServerKeepsInv(sqrt: real -> real, layout: Layout, g: Server, tasks: seq<Task>)
    requires layout.Positive() && Starts(g) && AllPossible(sqrt, layout, g, tasks)
    ensures var after := Run(sqrt, layout, g, tasks);
            Inv(layout, after.players) && forall j :: 0 <= j < |after.monsters| ==> Sane(after.monsters[j])
  {
    PlayersFollowWorld(sqrt, layout, g, tasks);
    EveryRunKeepsInv(layout, PlayerShares(sqrt, tasks));
    var after := Run(sqrt, layout, g, tasks);
    forall j | 0 <= j < |after.monsters| ensures Sane(after.monsters[j]) {
      MonsterIsSane(sqrt, layout, g, tasks, j);
    }
  }

  lemma {:induction false} PrefixIsPossible(sqrt: real -> real, layout: Layout, g: Server, tasks: seq<Task>, k: nat)
    requires layout.Positive() && AllPossible(sqrt, layout, g, tasks) && k <= |tasks|
    ensures AllPossible(sqrt, layout, g, tasks[..k])
    ensures k < |tasks| ==> Possible(sqrt, layout, Run(sqrt, layout, g, tasks[..k]), tasks[k])
    decreases |tasks|
  {
    if k == |tasks| {
      assert tasks[..k] == tasks;
    } else {
      var init := tasks[..|tasks| - 1];
      assert init[..k] == tasks[..k];
      PrefixIsPossible(sqrt, layout, g, init, k);
    }
  }

  /** In every possible run of a new server, every strike of every tick is on a player who is online
      and in range at that moment. */
  lemma EveryStrikeIsInRange(sqrt: real -> real, layout: Layout, g: Server, tasks: seq<Task>, k: nat)
    requires IsSqrt(sqrt) && layout.Positive() && Starts(g) && AllPossible(sqrt, layout, g, tasks)
    requires k < |tasks| && tasks[k].Tick?
    ensures forall i :: 0 <= i < |tasks[k].log| ==> StrikesInRange(sqrt, tasks[k].log[i], tasks[k].dt)
  {
    var before, dt, log := Run(sqrt, layout, g, tasks[..k]), tasks[k].dt, tasks[k].log;
    PrefixIsPossible(sqrt, layout, g, tasks, k);
    ServerKeepsInv(sqrt, layout, g, tasks[..k]);
    TickKeepsInv(sqrt, layout, dt, log, before.players, Outcome(sqrt, layout, dt, log, before.players));
  }
}
