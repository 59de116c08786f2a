/** Hunts on the running server: a player who stays near an attacking monster is hurt. */
module Hunts {
  import opened Wrappers
  import opened Geometry
  import opened ZoneIndex
  import opened World
  import opened GameServer
  import opened Encounters
  import opened Game
  import AI = MonsterAI
  import M = MonsterRuns
  import MonsterTurns
  import PlayerLog

  // ---- Runs put together ----

  lemma {:induction false} DeathInPrefix(sqrt: real -> real, m: AI.Mon, a: seq<M.Event>, b: seq<M.Event>)
    requires M.DiesDuring(sqrt, m, a)
    ensures M.DiesDuring(sqrt, m, a + b)
    decreases |a|
  {
    if m.state != AI.DEAD {
      assert (a + b)[1..] == a[1..] + b;
      DeathInPrefix(sqrt, M.Step(sqrt, m, a[0]), a[1..], b);
    }
  }

  lemma {:induction false} HarmSplit(a: seq<Event>, b: seq<Event>, u: nat)
    ensures PlayerLog.HarmSince(a + b, 0, u) == PlayerLog.HarmSince(a, 0, u) + PlayerLog.HarmSince(b, 0, u)
    decreases |b|
  {
    if b == [] {
      assert a + b == a;
    } else {
      assert (a + b)[..|a + b| - 1] == a + b[..|b| - 1];
      HarmSplit(a, b[..|b| - 1], u);
    }
  }

  /** The time of all ticks. */
  function TickTime(tasks: seq<Task>): real
    decreases |tasks|
  {
    if tasks == [] then 0.0
    else
      var t := tasks[|tasks| - 1];
      TickTime(tasks[..|tasks| - 1]) + if t.Tick? then t.dt else 0.0
  }

  lemma ShareTime(sqrt: real -> real, layout: Layout, g: Server, t: Task, j: nat)
    requires layout.Positive() && Possible(sqrt, layout, g, t) && j < |g.monsters|
    ensures M.TurnTime(Share(g, t, j)) == if t.Tick? then t.dt else 0.0
  {
    var share := Share(g, t, j);
    assert share == [] || share[1..] == [];
  }

  /** Every monster lives through the time of all ticks. */
  lemma {:induction false} MonsterTime(sqrt: real -> real, layout: Layout, g: Server, tasks: seq<Task>, j: nat)
    requires layout.Positive() && AllPossible(sqrt, layout, g, tasks) && j < |g.monsters|
    ensures M.TurnTime(Shares(sqrt, layout, g, tasks, j)) == TickTime(tasks)
    decreases |tasks|
  {
    if tasks != [] {
      var init, t := tasks[..|tasks| - 1], tasks[|tasks| - 1];
      var mid := Game.Run(sqrt, layout, g, init);
      MonsterTime(sqrt, layout, g, init, j);
      ShareTime(sqrt, layout, mid, t, j);
      MonsterTurns.TurnTimeSplit(Shares(sqrt, layout, g, init, j), Share(mid, t, j));
    }
  }

  // ---- Hits on a player are harm in its log ----

  lemma {:induction false} StrikeIsHarm(sqrt: real -> real, dt: real, log: seq<TurnLog>, j: nat)
    requires j < |log| && AI.TurnFires(sqrt, log[j].mon, dt, log[j].view)
    ensures PlayerLog.HarmSince(Game.Strikes(sqrt, dt, log), 0, log[j].mon.target) >= AI.DEFAULT_ATK
    decreases |log|
  {
    var init, t, u := log[..|log| - 1], log[|log| - 1], log[j].mon.target;
    var last := if AI.TurnFires(sqrt, t.mon, dt, t.view) then [Hit(t.mon.target, AI.DEFAULT_ATK)] else [];
    HarmSplit(Game.Strikes(sqrt, dt, init), last, u);
    if j < |log| - 1 {
      StrikeIsHarm(sqrt, dt, init, j);
    } else {
      assert last[..0] == [];
      assert PlayerLog.HarmSince(last, 0, u) == PlayerLog.HarmSince(last[..0], 0, u) + AI.DEFAULT_ATK;
    }
  }

  lemma TaskHarm(sqrt: real -> real, layout: Layout, g: Server, t: Task, j: nat, u: nat)
    requires layout.Positive() && Possible(sqrt, layout, g, t) && j < |g.monsters|
    ensures PlayerLog.HarmSince(PlayerShare(sqrt, t), 0, u)
         >= AI.DEFAULT_ATK * MonsterTurns.HitsOn(sqrt, g.monsters[j], Share(g, t, j), u)
  {
    var share := Share(g, t, j);
    if share != [] {
      assert share[1..] == [];
      if t.Tick? && g.monsters[j].target == u && AI.TurnFires(sqrt, g.monsters[j], t.dt, t.log[j].view) {
        assert Played(sqrt, layout, t.dt, t.log[j], g.monsters[j], AI.Turn(sqrt, g.monsters[j], t.dt, t.log[j].view));
        StrikeIsHarm(sqrt, t.dt, t.log, j);
      }
    }
  }

  /** Each hit of one monster on a player costs the player the monster's attack power. */
  lemma {:induction false} HitsAreHarm(sqrt: real -> real, layout: Layout, g: Server, tasks: seq<Task>, j: nat, u: nat)
    requires layout.Positive() && AllPossible(sqrt, layout, g, tasks) && j < |g.monsters|
    ensures PlayerLog.HarmSince(PlayerShares(sqrt, tasks), 0, u)
         >= AI.DEFAULT_ATK * MonsterTurns.HitsOn(sqrt, g.monsters[j], Shares(sqrt, layout, g, tasks, j), u)
    decreases |tasks|
  {
    if tasks != [] {
      var init, t := tasks[..|tasks| - 1], tasks[|tasks| - 1];
      var mid := Game.Run(sqrt, layout, g, init);
      HitsAreHarm(sqrt, layout, g, init, j, u);
      TaskHarm(sqrt, layout, mid, t, j, u);
      MonstersFollowRuns(sqrt, layout, g, init, j);
      MonsterTurns.HitsOnSplit(sqrt, g.monsters[j], Shares(sqrt, layout, g, init, j), Share(mid, t, j), u);
      HarmSplit(PlayerShares(sqrt, init), PlayerShare(sqrt, t), u);
    }
  }

  // ---- A player near an attacker ----

  /** The player is online and so near that the tolerance of the goal does not matter. */
  ghost predicate IsNear(sqrt: real -> real, w: State, u: nat, pos: Vec3) {
    u in w.uidToAccount && w.uidToAccount[u] in w.players &&
    Dist(sqrt, Position(w.players[w.uidToAccount[u]]), pos) <= AI.ATTACK_RANGE - AI.RETARGET_EPSILON
  }

  /** Whenever monster j has its turn, the player is near. */
  ghost predicate StaysNear(sqrt: real -> real, tasks: seq<Task>, j: nat, u: nat, pos: Vec3) {
    forall k :: 0 <= k < |tasks| && tasks[k].Tick? && j < |tasks[k].log| ==>
      IsNear(sqrt, tasks[k].log[j].before, u, pos)
  }

  lemma SeesNear(sqrt: real -> real, layout: Layout, g: Server, t: Task, j: nat)
    requires layout.Positive() && Possible(sqrt, layout, g, t)
    requires j < |g.monsters| && g.monsters[j].state == AI.ATTACK
    requires t.Tick? && j < |t.log| ==> IsNear(sqrt, t.log[j].before, g.monsters[j].target, g.monsters[j].position)
    ensures MonsterTurns.Close(sqrt, g.monsters[j].position, Share(g, t, j))
  {
    if t.Tick? {
      assert Played(sqrt, layout, t.dt, t.log[j], g.monsters[j], AI.Turn(sqrt, g.monsters[j], t.dt, t.log[j].view));
    }
  }

  lemma StandsAsBefore(sqrt: real -> real, m: AI.Mon, before: seq<M.Event>, share: seq<M.Event>)
    requires IsSqrt(sqrt) && m.state == AI.ATTACK && MonsterTurns.Close(sqrt, m.position, before)
    requires !M.DiesDuring(sqrt, m, before + share)
    ensures var after := M.Run(sqrt, m, before);
            after.state == AI.ATTACK && after.position == m.position && after.target == m.target
  {
    if M.DiesDuring(sqrt, m, before) {
      DeathInPrefix(sqrt, m, before, share);
    }
    MonsterTurns.CloseHolds(sqrt, m.position, m.goal, before);
    MonsterTurns.StandsAndAttacks(sqrt, m, before);
  }

  /** The monster sees the player near in every turn. */
  lemma {:induction false} NearIsClose(sqrt: real -> real, layout: Layout, g: Server, tasks: seq<Task>, j: nat)
    requires IsSqrt(sqrt) && layout.Positive() && AllPossible(sqrt, layout, g, tasks)
    requires j < |g.monsters| && g.monsters[j].state == AI.ATTACK
    requires StaysNear(sqrt, tasks, j, g.monsters[j].target, g.monsters[j].position)
    requires !M.DiesDuring(sqrt, g.monsters[j], Shares(sqrt, layout, g, tasks, j))
    ensures MonsterTurns.Close(sqrt, g.monsters[j].position, Shares(sqrt, layout, g, tasks, j))
    decreases |tasks|
  {
    if tasks != [] {
      var m, init, t := g.monsters[j], tasks[..|tasks| - 1], tasks[|tasks| - 1];
      var mid := Game.Run(sqrt, layout, g, init);
      var before, share := Shares(sqrt, layout, g, init, j), Share(mid, t, j);
      if M.DiesDuring(sqrt, m, before) {
        DeathInPrefix(sqrt, m, before, share);
      }
      NearIsClose(sqrt, layout, g, init, j);
      StandsAsBefore(sqrt, m, before, share);
      MonstersFollowRuns(sqrt, layout, g, init, j);
      SeesNear(sqrt, layout, mid, t, j);
    }
  }

  /** The monster's own run: it hits its target as often as the time allows. */
  lemma AttackerOfRun(sqrt: real -> real, layout: Layout, g: Server, tasks: seq<Task>, j: nat)
    requires IsSqrt(sqrt) && layout.Positive() && AllPossible(sqrt, layout, g, tasks)
    requires j < |g.monsters| && g.monsters[j].state == AI.ATTACK && 0.0 <= g.monsters[j].attackTimer
    requires StaysNear(sqrt, tasks, j, g.monsters[j].target, g.monsters[j].position)
    requires !M.DiesDuring(sqrt, g.monsters[j], Shares(sqrt, layout, g, tasks, j))
    ensures var m, share := g.monsters[j], Shares(sqrt, layout, g, tasks, j);
            var hits := MonsterTurns.HitsOn(sqrt, m, share, m.target);
            && (TickTime(tasks) >= AI.ATTACK_COOLDOWN ==> hits >= 1)
            && (M.TicksBelow(share, AI.ATTACK_COOLDOWN) && m.attackTimer < AI.ATTACK_COOLDOWN ==>
                  hits == ((m.attackTimer + TickTime(tasks)) / AI.ATTACK_COOLDOWN).Floor)
  {
    var m, share := g.monsters[j], Shares(sqrt, layout, g, tasks, j);
    NearIsClose(sqrt, layout, g, tasks, j);
    MonsterTurns.CloseHolds(sqrt, m.position, m.goal, share);
    SharesAreSound(sqrt, layout, g, tasks, j);
    MonsterTime(sqrt, layout, g, tasks, j);
    MonsterTurns.AttackerStrikes(sqrt, m, share);
  }

  /** On the running server, a player who stays near the monster that attacks it is hurt before the ticks
      last a cooldown, and, with ticks below the cooldown, at least once in every cooldown. */
  lemma AttackedPlayerIsHurt(sqrt: real -> real, layout: Layout, g: Server, tasks: seq<Task>, j: nat)
    requires IsSqrt(sqrt) && layout.Positive() && AllPossible(sqrt, layout, g, tasks)
    requires j < |g.monsters| && g.monsters[j].state == AI.ATTACK && 0.0 <= g.monsters[j].attackTimer
    requires StaysNear(sqrt, tasks, j, g.monsters[j].target, g.monsters[j].position)
    requires !M.DiesDuring(sqrt, g.monsters[j], Shares(sqrt, layout, g, tasks, j))
    ensures var m, harm := g.monsters[j], PlayerLog.HarmSince(PlayerShares(sqrt, tasks), 0, g.monsters[j].target);
            && (TickTime(tasks) >= AI.ATTACK_COOLDOWN ==> harm >= AI.DEFAULT_ATK)
            && (M.TicksBelow(Shares(sqrt, layout, g, tasks, j), AI.ATTACK_COOLDOWN) &&
                m.attackTimer < AI.ATTACK_COOLDOWN ==>
                  harm >= AI.DEFAULT_ATK * ((m.attackTimer + TickTime(tasks)) / AI.ATTACK_COOLDOWN).Floor)
  {
    AttackerOfRun(sqrt, layout, g, tasks, j);
    HitsAreHarm(sqrt, layout, g, tasks, j, g.monsters[j].target);
  }

  /** A player followed by a chasing monster whose waypoint is in attack range is attacked from the next
      tick on, and hurt once it stays near for a cooldown. */
  lemma ChasedPlayerIsHurt(sqrt: real -> real, layout: Layout, g: Server, dt: real, log: seq<TurnLog>,
                           tasks: seq<Task>, j: nat)
    requires IsSqrt(sqrt) && layout.Positive() && Possible(sqrt, layout, g, Tick(dt, log))
    requires j < |g.monsters| && g.monsters[j].state == AI.CHASE && 0.0 <= g.monsters[j].attackTimer
    requires MonsterTurns.WaypointInRange(sqrt, g.monsters[j])
    requires AI.Followed(sqrt, g.monsters[j], log[j].view)
    requires var next := Game.Step(sqrt, layout, g, Tick(dt, log));
             && AllPossible(sqrt, layout, next, tasks)
             && StaysNear(sqrt, tasks, j, g.monsters[j].target, g.monsters[j].position)
             && !M.DiesDuring(sqrt, next.monsters[j], Shares(sqrt, layout, next, tasks, j))
    ensures Game.Step(sqrt, layout, g, Tick(dt, log)).monsters[j].state == AI.ATTACK
    ensures TickTime(tasks) >= AI.ATTACK_COOLDOWN ==>
              PlayerLog.HarmSince(PlayerShares(sqrt, tasks), 0, g.monsters[j].target) >= AI.DEFAULT_ATK
  {
    var m, turn := g.monsters[j], M.AiTurn(dt, log[j].view);
    MonsterTurns.ChaseTurn(sqrt, m, dt, log[j].view);
    M.TimerStep(sqrt, m, turn);
    assert [turn][1..] == [];
    assert M.Run(sqrt, m, [turn]) == M.Step(sqrt, m, turn);
    AttackedPlayerIsHurt(sqrt, layout, Game.Step(sqrt, layout, g, Tick(dt, log)), tasks, j);
  }

  // ---- Players against a monster ----

  /** The players of every run of a new server are what the log of their tasks and of the strikes says. */
  lemma LogTellsServer(sqrt: real -> real, layout: Layout, g: Server, tasks: seq<Task>)
    requires layout.Positive() && Starts(g) && AllPossible(sqrt, layout, g, tasks)
    ensures PlayerLog.TellsAll(layout, PlayerShares(sqrt, tasks), Game.Run(sqrt, layout, g, tasks).players)
  {
    PlayersFollowWorld(sqrt, layout, g, tasks);
    PlayerLog.LogTellsWorld(layout, PlayerShares(sqrt, tasks));
  }

  /** How often monster j is attacked by a player who is online. */
  function AttacksOn(sqrt: real -> real, layout: Layout, g: Server, tasks: seq<Task>, j: nat): nat
    requires layout.Positive()
    decreases |tasks|
  {
    if tasks == [] then 0
    else
      var init, t := tasks[..|tasks| - 1], tasks[|tasks| - 1];
      AttacksOn(sqrt, layout, g, init, j) +
      if t.Attack? && t.target == j && t.acc in Game.Run(sqrt, layout, g, init).players.players then 1 else 0
  }

  lemma {:induction false} HitCountSplit(a: seq<M.Event>, b: seq<M.Event>)
    ensures HitCount(a + b) == HitCount(a) + HitCount(b)
  {
    if a == [] {
      assert a + b == b;
    } else {
      assert (a + b)[1..] == a[1..] + b;
      HitCountSplit(a[1..], b);
    }
  }

  lemma PlayersHaveDefaultPower(sqrt: real -> real, layout: Layout, g: Server, tasks: seq<Task>, acc: string)
    requires layout.Positive() && Starts(g) && AllPossible(sqrt, layout, g, tasks)
    requires acc in Game.Run(sqrt, layout, g, tasks).players.players
    ensures Game.Run(sqrt, layout, g, tasks).players.players[acc].atk == DEFAULT_ATK
  {
    LogTellsServer(sqrt, layout, g, tasks);
    assert PlayerLog.Tells(layout, PlayerShares(sqrt, tasks), Game.Run(sqrt, layout, g, tasks).players, acc);
  }

  lemma AttackTakesTwenty(g: Server, t: Task, j: nat)
    requires t.Attack? && t.acc in g.players.players ==> g.players.players[t.acc].atk == DEFAULT_ATK
    ensures HitsOf(Share(g, t, j), 20)
    ensures HitCount(Share(g, t, j)) == if t.Attack? && t.target == j && t.acc in g.players.players then 1 else 0
  {
    var share := Share(g, t, j);
    assert share == [] || share[1..] == [];
  }

  lemma HitsOfSplit(a: seq<M.Event>, b: seq<M.Event>, d: int)
    requires HitsOf(a, d) && HitsOf(b, d)
    ensures HitsOf(a + b, d) && HitCount(a + b) == HitCount(a) + HitCount(b)
  {
    HitCountSplit(a, b);
  }

  /** In every possible run of a new server each attack of an online player takes exactly 20 HP. */
  lemma {:induction false} AttacksTakeTwenty(sqrt: real -> real, layout: Layout, g: Server, tasks: seq<Task>, j: nat)
    requires layout.Positive() && Starts(g) && AllPossible(sqrt, layout, g, tasks)
    ensures HitsOf(Shares(sqrt, layout, g, tasks, j), 20)
    ensures HitCount(Shares(sqrt, layout, g, tasks, j)) == AttacksOn(sqrt, layout, g, tasks, j)
    decreases |tasks|
  {
    if tasks != [] {
      var init, t := tasks[..|tasks| - 1], tasks[|tasks| - 1];
      var mid := Game.Run(sqrt, layout, g, init);
      AttacksTakeTwenty(sqrt, layout, g, init, j);
      if t.Attack? && t.acc in mid.players.players {
        PlayersHaveDefaultPower(sqrt, layout, g, init, t.acc);
      }
      AttackTakesTwenty(mid, t, j);
      HitsOfSplit(Shares(sqrt, layout, g, init, j), Share(mid, t, j), 20);
    }
  }

  /** On every possible run of a new server without buffs, a monster of 100 HP dies with the fifth attack
      and not before, whatever happens between the attacks. */
  lemma FifthAttackKills(sqrt: real -> real, layout: Layout, g: Server, tasks: seq<Task>, j: nat)
    requires layout.Positive() && Starts(g) && AllPossible(sqrt, layout, g, tasks) && j < |g.monsters|
    requires g.monsters[j].hp == 100
    requires forall k :: 0 <= k < |tasks| ==> !tasks[k].Buff?
    ensures var m, share := g.monsters[j], Shares(sqrt, layout, g, tasks, j);
            && (M.DiesDuring(sqrt, m, share) <==> AttacksOn(sqrt, layout, g, tasks, j) >= 5)
            && (AttacksOn(sqrt, layout, g, tasks, j) < 5 ==>
                  Game.Run(sqrt, layout, g, tasks).monsters[j].hp == 100 - 20 * AttacksOn(sqrt, layout, g, tasks, j))
  {
    var m, share := g.monsters[j], Shares(sqrt, layout, g, tasks, j);
    assert Born(m);
    AttacksTakeTwenty(sqrt, layout, g, tasks, j);
    NoBuffs(sqrt, layout, g, tasks, j);
    WoundsAreHits(share, 20);
    M.DiesAfterEnoughHits(sqrt, m, share);
    MonstersFollowRuns(sqrt, layout, g, tasks, j);
  }

  lemma {:induction false} NoBuffs(sqrt: real -> real, layout: Layout, g: Server, tasks: seq<Task>, j: nat)
    requires layout.Positive() && forall k :: 0 <= k < |tasks| ==> !tasks[k].Buff?
    ensures forall i :: 0 <= i < |Shares(sqrt, layout, g, tasks, j)| ==> !Shares(sqrt, layout, g, tasks, j)[i].Buffed?
    decreases |tasks|
  {
    if tasks != [] {
      NoBuffs(sqrt, layout, g, tasks[..|tasks| - 1], j);
    }
  }
}
