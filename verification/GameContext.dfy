/** The game context object and the tasks of the game strand: the handlers of
    GameServer/Handlers/, the gateway cleanup and the AI tick.  Player state follows the
    functions of `World`, each monster those of `MonsterAI`.
 */
module GameServer {
  import opened Wrappers
  import opened Geometry
  import opened ZoneIndex
  import opened World
  import AI = MonsterAI
  import MonsterRuns

  const AGGRO_RANGE := 1.0
  const PLAYER_ATTACK_RANGE := 1.5
  const MIN_DAMAGE := 1
  const POSITION_EPSILON := 0.05

  /** The accounts behind a list of uids; unknown uids are skipped. */
  function Named(uidToAccount: map<nat, string>, uids: seq<nat>): seq<string> {
    if uids == [] then []
    else (if uids[0] in uidToAccount then [uidToAccount[uids[0]]] else []) + Named(uidToAccount, uids[1..])
  }

  lemma {:induction false} NamedAppend(uidToAccount: map<nat, string>, uids: seq<nat>, uid: nat)
    ensures Named(uidToAccount, uids + [uid])
         == Named(uidToAccount, uids) + (if uid in uidToAccount then [uidToAccount[uid]] else [])
    decreases |uids|
  {
    if uids == [] {
      assert [] + [uid] == [uid];
    } else {
      assert (uids + [uid])[1..] == uids[1..] + [uid];
      NamedAppend(uidToAccount, uids[1..], uid);
    }
  }

  function Prefix<T>(s: seq<T>, n: nat): seq<T> {
    if |s| <= n then s else s[..n]
  }

  function Position(p: PlayerInfo): Vec3 {
    Vec3(p.x, p.y, 0.0)
  }

  /** Where the player with this uid is, if online. */
  function Whereabouts(w: State, uid: nat): Option<Vec3> {
    if uid in w.uidToAccount && w.uidToAccount[uid] in w.players then
      Some(Position(w.players[w.uidToAccount[uid]]))
    else
      None
  }

  predicate InAggro(sqrt: real -> real, w: State, uid: nat, pos: Vec3) {
    Whereabouts(w, uid).Some? && Dist(sqrt, Whereabouts(w, uid).value, pos) < AGGRO_RANGE
  }

  /** The i-th of `uids` is the first one in aggro range. */
  ghost predicate FirstInAggro(sqrt: real -> real, w: State, uids: seq<nat>, pos: Vec3, i: nat) {
    i < |uids| && InAggro(sqrt, w, uids[i], pos) && forall j :: 0 <= j < i ==> !InAggro(sqrt, w, uids[j], pos)
  }

  /** `picked` is the outcome of the search through `uids`: the first player in aggro range and
      its position, or None if there is none. */
  ghost predicate Picks(sqrt: real -> real, w: State, uids: seq<nat>, pos: Vec3, picked: Option<(nat, Vec3)>) {
    if picked.None? then forall u :: u in uids ==> !InAggro(sqrt, w, u, pos)
    else
      && Whereabouts(w, picked.value.0) == Some(picked.value.1)
      && exists i: nat :: FirstInAggro(sqrt, w, uids, pos, i) && picked.value.0 == uids[i]
  }

  /** What a monster's turn sees of the world: an idle monster searches the area query `aoi`
      at its position, a hunting one looks up its target. */
  ghost predicate Sees(sqrt: real -> real, layout: Layout, w: State, m: AI.Mon, aoi: seq<nat>, view: AI.View)
    requires layout.Positive()
  {
    && (m.state == AI.IDLE ==>
          Answers(layout, w.placed, m.position.x, m.position.y, aoi) && Picks(sqrt, w, aoi, m.position, view.candidate))
    && (m.state == AI.CHASE || m.state == AI.ATTACK ==> view.whereabouts == Whereabouts(w, m.target))
  }

  /** The move is large enough to be reported to the zone. */
  predicate Reported(from: Vec3, to: Vec3) {
    Abs(from.x - to.x) > POSITION_EPSILON || Abs(from.y - to.y) > POSITION_EPSILON
  }

  datatype SpawnData = SpawnData(id: nat, x: real, y: real, hp: int, respawnSec: int)

  /** The sector entries of a spawn list: none for an entry outside the map. */
  ghost function Spawns(layout: Layout, list: seq<SpawnData>): set<Placement>
    requires layout.Positive()
  {
    set i | 0 <= i < |list| && layout.CellOf(list[i].x, list[i].y).Some? ::
      (list[i].id, layout.CellOf(list[i].x, list[i].y).value)
  }

  lemma SpawnsMore(layout: Layout, list: seq<SpawnData>, data: SpawnData)
    requires layout.Positive()
    ensures Spawns(layout, list + [data]) == Enter(Spawns(layout, list), data.id, layout.CellOf(data.x, data.y))
  {
    var more := list + [data];
    assert more[|list|] == data;
    assert forall i :: 0 <= i < |list| ==> more[i] == list[i];
  }

  lemma EnterUnion(start: set<Placement>, placed: set<Placement>, id: nat, cell: Option<Cell>)
    ensures Enter(start + placed, id, cell) == start + Enter(placed, id, cell)
  {
  }

  /** No later entry of the list has the same id. */
  ghost predicate LastOfId(list: seq<SpawnData>, i: nat) {
    i < |list| && forall j :: i < j < |list| ==> list[j].id != list[i].id
  }

  /** The map finds the monster of every entry that is the last one with its id. */
  ghost predicate FindsLast(list: seq<SpawnData>, mons: seq<AI.Monster>, byId: map<nat, AI.Monster>)
    requires |mons| == |list|
  {
    forall i: nat :: LastOfId(list, i) ==> list[i].id in byId && byId[list[i].id] == mons[i]
  }

  lemma FindsLastMore(list: seq<SpawnData>, mons: seq<AI.Monster>, byId: map<nat, AI.Monster>,
                      data: SpawnData, mon: AI.Monster)
    requires |mons| == |list| && FindsLast(list, mons, byId)
    ensures FindsLast(list + [data], mons + [mon], byId[data.id := mon])
  {
    var more := list + [data];
    forall i: nat | LastOfId(more, i) && i < |list|
      ensures list[i].id != data.id && list[i].id in byId && byId[list[i].id] == mons[i]
    {
      assert more[|list|] == data;
      assert forall j :: i < j < |list| ==> more[j] == list[j];
      assert LastOfId(list, i);
    }
  }

  datatype AttackOutcome =
    | NotOnline
    | Miss
    | Strikes(monster: nat, damage: int, left: int, recipients: seq<string>)

  function Damage(atk: int, def: int): int {
    if atk - def < MIN_DAMAGE then MIN_DAMAGE else atk - def
  }

  lemma MinusTwice<K, V>(m: map<K, V>, a: set<K>, b: set<K>)
    ensures m - a - b == m - (a + b)
  {
  }

  lemma PlacementsMore(layout: Layout, players: map<string, PlayerInfo>, gone: set<string>, acc: string)
    requires layout.Positive() && gone <= players.Keys && acc in players && acc !in gone
    ensures Placements(layout, players, gone + {acc})
         == Placements(layout, players, gone) + Placements(layout, players - gone, {acc})
  {
  }

  lemma UidsMore(players: map<string, PlayerInfo>, gone: set<string>, acc: string)
    requires gone <= players.Keys && acc in players && acc !in gone
    ensures Uids(players, gone + {acc}) == Uids(players, gone) + Uids(players - gone, {acc})
  {
  }

  lemma BotsMore(gone: set<string>, acc: string)
    requires acc !in gone
    ensures |Bots(gone + {acc})| == |Bots(gone)| + |Bots({acc})|
  {
    assert Bots(gone + {acc}) == Bots(gone) + Bots({acc});
  }

  lemma EvictSingle(layout: Layout, w: State, acc: string)
    requires layout.Positive() && acc in w.players
    ensures var p := w.players[acc];
            Evict(layout, w, {acc}) ==
              State(w.players - {acc}, w.uidToAccount - {p.uid}, w.gateways,
                    Exit(w.placed, p.uid, CellOfPlayer(layout, p)), w.redis - {acc}, w.uidCounter,
                    w.bots - if IsBot(acc) then 1 else 0)
  {
    var p := w.players[acc];
    assert Uids(w.players, {acc}) == {p.uid};
    assert Bots({acc}) == if IsBot(acc) then {acc} else {};
    assert Placements(layout, w.players, {acc})
        == if CellOfPlayer(layout, p).Some? then {(p.uid, CellOfPlayer(layout, p).value)} else {};
  }

  /** The online accounts among `names` that are no longer in `rest`. */
  ghost function Handled(names: set<string>, rest: set<string>, online: set<string>): (gone: set<string>)
    ensures gone <= online && (rest == {} ==> gone == names * online) && (rest == names ==> gone == {})
  {
    (names - rest) * online
  }

  lemma HandledNext(names: set<string>, rest: set<string>, online: set<string>, acc: string)
    requires rest <= names && acc in rest
    ensures acc !in Handled(names, rest, online)
    ensures Handled(names, rest, online) + {acc} * online == Handled(names, rest - {acc}, online)
  {
  }

  lemma EvictNobody(layout: Layout, w: State)
    requires layout.Positive()
    ensures Evict(layout, w, {}) == w
  {
    assert Bots({}) == {};
    assert w.players - {} == w.players && w.redis - {} == w.redis;
    assert w.uidToAccount - Uids(w.players, {}) == w.uidToAccount;
  }

  /** Evicting accounts one after the other is evicting them together. */
  lemma EvictOneMore(layout: Layout, w: State, gone: set<string>, acc: string)
    requires layout.Positive() && gone <= w.players.Keys && acc in w.players && acc !in gone
    ensures acc in Evict(layout, w, gone).players
    ensures Evict(layout, Evict(layout, w, gone), {acc}) == Evict(layout, w, gone + {acc})
  {
    UidsMore(w.players, gone, acc);
    PlacementsMore(layout, w.players, gone, acc);
    BotsMore(gone, acc);
    MinusTwice(w.players, gone, {acc});
    MinusTwice(w.redis, gone, {acc});
    MinusTwice(w.uidToAccount, Uids(w.players, gone), Uids(w.players - gone, {acc}));
    var a, b := Placements(layout, w.players, gone), Placements(layout, w.players - gone, {acc});
    assert w.placed - a - b == w.placed - (a + b);
  }

  /** One turn of an AI tick: the players before it, the monster, and what the monster saw. */
  datatype TurnLog = TurnLog(before: State, id: nat, mon: AI.Mon, aoi: seq<nat>, view: AI.View)

  /** The players after the turn: a strike on the monster's target if the turn fired. */
  function After(sqrt: real -> real, layout: Layout, t: TurnLog, dt: real): State
    requires layout.Positive()
  {
    if AI.TurnFires(sqrt, t.mon, dt, t.view) then Strike(layout, t.before, t.mon.target, AI.DEFAULT_ATK) else t.before
  }

  function CellOfMonster(layout: Layout, m: AI.Mon): Option<Cell>
    requires layout.Positive()
  {
    layout.CellOf(m.position.x, m.position.y)
  }

  /** The monster sectors after a turn that made `now` of `was`: a dead monster's turn and a small move
      are not reported. */
  function Resettled(layout: Layout, placed: set<Placement>, id: nat, was: AI.Mon, now: AI.Mon): set<Placement>
    requires layout.Positive()
  {
    if was.state != AI.DEAD && Reported(was.position, now.position) then
      ShiftMonster(placed, id, CellOfMonster(layout, was), CellOfMonster(layout, now))
    else placed
  }

  /** The monster sectors after the turns of `log`. */
  function SectorsAfter(sqrt: real -> real, layout: Layout, dt: real, log: seq<TurnLog>, placed: set<Placement>):
      set<Placement>
    requires layout.Positive()
    decreases |log|
  {
    if log == [] then placed
    else
      var t := log[|log| - 1];
      Resettled(layout, SectorsAfter(sqrt, layout, dt, log[..|log| - 1], placed), t.id, t.mon,
                AI.Turn(sqrt, t.mon, dt, t.view))
  }

  lemma SectorsOneMore(sqrt: real -> real, layout: Layout, dt: real, log: seq<TurnLog>, t: TurnLog,
                       placed: set<Placement>)
    requires layout.Positive()
    ensures SectorsAfter(sqrt, layout, dt, log + [t], placed)
         == Resettled(layout, SectorsAfter(sqrt, layout, dt, log, placed), t.id, t.mon,
                      AI.Turn(sqrt, t.mon, dt, t.view))
  {
    assert (log + [t])[..|log|] == log;
  }

  /** The monster `was` saw the players of the log entry as they were and became `now`. */
  ghost predicate Played(sqrt: real -> real, layout: Layout, dt: real, t: TurnLog, was: AI.Mon, now: AI.Mon)
    requires layout.Positive()
  {
    t.mon == was && now == AI.Turn(sqrt, was, dt, t.view) && Sees(sqrt, layout, t.before, was, t.aoi, t.view)
  }

  /** The turns of `log`, one after the other, lead from the players `first` to the players `last`. */
  ghost predicate Chained(sqrt: real -> real, layout: Layout, dt: real, log: seq<TurnLog>, first: State, last: State)
    requires layout.Positive()
    decreases |log|
  {
    if log == [] then first == last
    else
      var t := log[|log| - 1];
      Chained(sqrt, layout, dt, log[..|log| - 1], first, t.before) && last == After(sqrt, layout, t, dt)
  }

  lemma ChainOneMore(sqrt: real -> real, layout: Layout, dt: real, log: seq<TurnLog>, first: State, t: TurnLog)
    requires layout.Positive() && Chained(sqrt, layout, dt, log, first, t.before)
    ensures Chained(sqrt, layout, dt, log + [t], first, After(sqrt, layout, t, dt))
  {
    assert (log + [t])[..|log|] == log;
  }

  class GameContext {
    const layout: Layout
    const zone: Zone
    const sqrt: real -> real
    var players: map<string, PlayerInfo>
    var uidToAccount: map<nat, string>
    var gateways: map<Gateway, set<string>>
    var redis: map<string, int>
    var uidCounter: nat
    var bots: int
    var monsters: seq<AI.Monster>
    var monsterMap: map<nat, AI.Monster>

    ghost predicate Valid()
      reads this
    {
      && zone.Valid() && zone.layout == layout
      && (forall i, j :: 0 <= i < j < |monsters| ==> monsters[i] != monsters[j])
      && (forall i :: 0 <= i < |monsters| ==> monsters[i].sqrt == sqrt)
      && (forall id :: id in monsterMap ==> monsterMap[id] in monsters && monsterMap[id].id == id)
    }

    ghost function Value(): State
      reads this, zone.grid
    {
      State(players, uidToAccount, gateways, zone.Placed(Player), redis, uidCounter, bots)
    }

    constructor (width: int, height: int, sectorSize: int, sqrt: real -> real)
      requires Layout(width, height, sectorSize).Positive()
      ensures Valid() && fresh(zone) && fresh(zone.grid)
      ensures layout == Layout(width, height, sectorSize) && this.sqrt == sqrt
      ensures Value() == Empty && monsters == [] && zone.Placed(Monster) == {}
    {
      layout, this.sqrt := Layout(width, height, sectorSize), sqrt;
      zone := new Zone(width, height, sectorSize);
      players, uidToAccount, gateways, redis := map[], map[], map[], map[];
      uidCounter, bots := 1, 0;
      monsters, monsterMap := [], map[];
    }

    /** The monster stands where its spawn data says, as new. */
    ghost predicate Spawned(mon: AI.Monster, data: SpawnData)
      reads mon
    {
      mon.id == data.id && mon.Value() == AI.Newborn(Vec3(data.x, data.y, 0.0), data.hp, data.respawnSec)
    }

    /** The monsters are those of the list; `start` are the monster placements before them. */
    ghost predicate Peopled(start: set<Placement>, list: seq<SpawnData>)
      requires Valid()
      reads this, zone.grid, monsters
    {
      && |monsters| == |list| && FindsLast(list, monsters, monsterMap)
      && (forall i :: 0 <= i < |monsters| ==> Spawned(monsters[i], list[i]))
      && zone.Placed(Monster) == start + Spawns(layout, list)
    }

    lemma NobodyPeopled()
      requires Valid() && monsters == []
      ensures Peopled(zone.Placed(Monster), [])
    {
      assert Spawns(layout, []) == {};
    }

    /** Puts the monsters of the spawn list on the map at server start. */
    method InitMonsters(list: seq<SpawnData>)
      requires Valid() && monsters == []
      modifies this`monsters, this`monsterMap, zone.grid
      ensures Valid() && Value() == old(Value())
      ensures Peopled(old(zone.Placed(Monster)), list)
      ensures forall m :: m in monsters ==> fresh(m)
    {
      ghost var start := zone.Placed(Monster);
      NobodyPeopled();
      assert list[..0] == [] && list[..|list|] == list;
      for i := 0 to |list|
        invariant Valid() && Value() == old(Value())
        invariant Peopled(start, list[..i])
        invariant forall m :: m in monsters ==> fresh(m)
      {
        SpawnNext(start, list, i);
      }
    }

    /** One step of the spawn loop. */
    method SpawnNext(ghost start: set<Placement>, list: seq<SpawnData>, i: nat)
      requires Valid() && i < |list| && Peopled(start, list[..i])
      modifies this`monsters, this`monsterMap, zone.grid
      ensures Valid() && Value() == old(Value()) && Peopled(start, list[..i + 1])
      ensures forall m :: m in monsters && m !in old(monsters) ==> fresh(m)
    {
      ghost var before, byId := monsters, monsterMap;
      ghost var done, data := list[..i], list[i];
      assert list[..i + 1] == done + [data];
      SpawnsMore(layout, done, data);
      EnterUnion(start, Spawns(layout, done), data.id, layout.CellOf(data.x, data.y));
      SpawnMonster(list[i]);
      FindsLastMore(done, before, byId, data, monsters[i]);
      assert forall j :: 0 <= j < i ==> monsters[j] == before[j] && Spawned(monsters[j], list[j]);
    }

    method SpawnMonster(data: SpawnData)
      requires Valid()
      modifies this`monsters, this`monsterMap, zone.grid
      ensures Valid() && Value() == old(Value())
      ensures |monsters| == |old(monsters)| + 1 && monsters == old(monsters) + [monsters[|old(monsters)|]]
      ensures fresh(monsters[|old(monsters)|]) && Spawned(monsters[|old(monsters)|], data)
      ensures zone.Placed(Monster) == Enter(old(zone.Placed(Monster)), data.id, layout.CellOf(data.x, data.y))
      ensures monsterMap == old(monsterMap)[data.id := monsters[|old(monsters)|]]
    {
      var mon := new AI.Monster(data.id, sqrt);
      mon.Settle(data.x, data.y, data.hp, data.respawnSec);
      monsters := monsters + [mon];
      monsterMap := monsterMap[data.id := mon];
      zone.EnterZone(Monster, data.id, data.x, data.y);
    }

    // ---- Recipients ----

    method Recipients(uids: seq<nat>, limit: nat) returns (names: seq<string>)
      ensures names == Named(uidToAccount, Prefix(uids, limit))
    {
      names := [];
      var i := 0;
      while i < |uids| && i < limit
        invariant 0 <= i <= |uids| && i <= limit
        invariant names == Named(uidToAccount, uids[..i])
      {
        NamedAppend(uidToAccount, uids[..i], uids[i]);
        assert uids[..i + 1] == uids[..i] + [uids[i]];
        if uids[i] in uidToAccount {
          names := names + [uidToAccount[uids[i]]];
        }
        i := i + 1;
      }
      assert uids[..i] == Prefix(uids, limit);
    }

    /** The accounts told about something at (x, y): the first ones of the area. */
    method AreaRecipients(x: real, y: real) returns (ghost aoi: seq<nat>, names: seq<string>)
      requires Valid()
      ensures Answers(layout, Value().placed, x, y, aoi)
      ensures names == Named(uidToAccount, Prefix(aoi, MAX_AOI_BROADCAST))
    {
      var uids := zone.GetInAOI(Player, x, y);
      aoi := uids;
      names := Recipients(uids, MAX_AOI_BROADCAST);
    }

    // ---- Player tasks ----

    method HandleMove(gw: Gateway, acc: string, rawX: real, rawY: real)
        returns (ghost aoi: seq<nat>, recipients: seq<string>)
      requires Valid()
      modifies this`players, this`uidToAccount, this`gateways, this`redis, this`uidCounter, this`bots, zone.grid
      ensures Valid() && Value() == MoveTo(layout, old(Value()), gw, acc, rawX, rawY)
      ensures zone.Placed(Monster) == old(zone.Placed(Monster))
      ensures Answers(layout, Value().placed, ClampAxis(rawX, layout.width), ClampAxis(rawY, layout.height), aoi)
      ensures recipients == Named(uidToAccount, Prefix(aoi, MAX_AOI_BROADCAST))
    {
      var newX, newY := rawX, rawY;
      if newX < 0.0 { newX := 0.0; }
      if newY < 0.0 { newY := 0.0; }
      if newX > layout.width as real { newX := layout.width as real; }
      if newY > layout.height as real { newY := layout.height as real; }
      if acc !in players {
        AdmitPlayer(gw, acc, newX, newY);
      }
      MovePlayer(acc, newX, newY);
      aoi, recipients := AreaRecipients(newX, newY);
    }

    /** First entry of an account. */
    method AdmitPlayer(gw: Gateway, acc: string, x: real, y: real)
      requires Valid()
      modifies this`players, this`uidToAccount, this`gateways, this`redis, this`uidCounter, this`bots, zone.grid
      ensures Valid() && Value() == Admit(layout, old(Value()), gw, acc, x, y)
      ensures zone.Placed(Monster) == old(zone.Placed(Monster))
    {
      var uid := uidCounter;
      uidCounter := uidCounter + 1;
      players := players[acc := PlayerInfo(uid, x, y, DEFAULT_HP, DEFAULT_ATK, DEFAULT_DEF)];
      uidToAccount := uidToAccount[uid := acc];
      RegisterPlayer(gw, acc);
      if IsBot(acc) {
        bots := bots + 1;
      }
      zone.EnterZone(Player, uid, x, y);
      redis := redis[acc := DEFAULT_HP];
    }

    method MovePlayer(acc: string, x: real, y: real)
      requires Valid() && acc in players
      modifies this`players, zone.grid
      ensures Valid() && Value() == Relocate(layout, old(Value()), acc, x, y)
      ensures zone.Placed(Monster) == old(zone.Placed(Monster))
    {
      var p := players[acc];
      players := players[acc := p.(x := x, y := y)];
      zone.UpdatePosition(p.uid, p.x, p.y, x, y);
    }

    method RegisterPlayer(gw: Gateway, acc: string)
      modifies this`gateways
      ensures gateways == Register(old(gateways), gw, acc)
    {
      gateways := gateways[gw := (if gw in gateways then gateways[gw] else {}) + {acc}];
    }

    method UnregisterPlayer(gw: Gateway, acc: string)
      modifies this`gateways
      ensures gateways == Unregister(old(gateways), gw, acc)
    {
      if gw in gateways {
        gateways := gateways[gw := gateways[gw] - {acc}];
        if gateways[gw] == {} {
          gateways := gateways - {gw};
        }
      }
    }

    /** Takes one online account out of the maps, the zone and the Redis mirror. */
    method RemoveOnline(acc: string)
      requires Valid() && acc in players
      modifies this`players, this`uidToAccount, this`redis, this`bots, zone.grid
      ensures Valid() && Value() == Evict(layout, old(Value()), {acc})
      ensures zone.Placed(Monster) == old(zone.Placed(Monster))
    {
      ghost var w := Value();
      var p := players[acc];
      uidToAccount := uidToAccount - {p.uid};
      players := players - {acc};
      zone.LeaveZone(Player, p.uid, p.x, p.y);
      redis := redis - {acc};
      if IsBot(acc) {
        bots := bots - 1;
      }
      EvictSingle(layout, w, acc);
    }

    method HandleLeave(gw: Gateway, acc: string)
      requires Valid()
      modifies this`players, this`uidToAccount, this`gateways, this`redis, this`bots, zone.grid
      ensures Valid() && Value() == Depart(layout, old(Value()), gw, acc)
      ensures zone.Placed(Monster) == old(zone.Placed(Monster))
    {
      if acc in players {
        RemoveOnline(acc);
        UnregisterPlayer(gw, acc);
      }
    }

    /** The cleanup task posted when a gateway session is lost. */
    method CleanupGateway(gw: Gateway)
      requires Valid()
      modifies this`players, this`uidToAccount, this`gateways, this`redis, this`bots, zone.grid
      ensures Valid() && Value() == Cleanup(layout, old(Value()), gw)
      ensures zone.Placed(Monster) == old(zone.Placed(Monster))
    {
      EvictAll(if gw in gateways then gateways[gw] else {});
      gateways := gateways - {gw};
    }

    /** The cleanup loop: every listed account that is online goes. */
    method EvictAll(names: set<string>)
      requires Valid()
      modifies this`players, this`uidToAccount, this`redis, this`bots, zone.grid
      ensures Valid() && Value() == Evict(layout, old(Value()), names * old(players.Keys))
      ensures zone.Placed(Monster) == old(zone.Placed(Monster))
    {
      var rest := names;
      ghost var w := Value();
      ghost var gone := Handled(names, rest, w.players.Keys);
      EvictNobody(layout, w);
      while rest != {}
        invariant Valid() && zone.Placed(Monster) == old(zone.Placed(Monster))
        invariant rest <= names && gone == Handled(names, rest, w.players.Keys)
        invariant Value() == Evict(layout, w, gone)
        decreases rest
      {
        var acc :| acc in rest;
        HandledNext(names, rest, w.players.Keys, acc);
        gone := EvictNext(acc, w, gone);
        rest := rest - {acc};
      }
    }

    /** One step of the cleanup loop, where `gone` are the accounts evicted since state w. */
    method EvictNext(acc: string, ghost w: State, ghost gone: set<string>) returns (ghost more: set<string>)
      requires Valid() && gone <= w.players.Keys && acc !in gone
      requires Value() == Evict(layout, w, gone)
      modifies this`players, this`uidToAccount, this`redis, this`bots, zone.grid
      ensures Valid() && zone.Placed(Monster) == old(zone.Placed(Monster))
      ensures more == gone + {acc} * w.players.Keys && Value() == Evict(layout, w, more)
    {
      more := gone + {acc} * w.players.Keys;
      assert players == w.players - gone;
      if acc in players {
        RemoveOnline(acc);
        EvictOneMore(layout, w, gone, acc);
        assert more == gone + {acc};
      } else {
        assert more == gone;
      }
    }

    /** The attack callback of the monsters. */
    method OnMonsterAttack(uid: nat, damage: int) returns (ghost aoi: seq<nat>, recipients: seq<string>)
      requires Valid()
      modifies this`players, this`redis, zone.grid
      ensures Valid() && Value() == Strike(layout, old(Value()), uid, damage)
      ensures zone.Placed(Monster) == old(zone.Placed(Monster))
      ensures recipients == Named(uidToAccount, aoi)
      ensures Whereabouts(old(Value()), uid).Some? ==>
                var hit := Whereabouts(old(Value()), uid).value;
                Answers(layout, old(Value()).placed, hit.x, hit.y, aoi)
    {
      aoi, recipients := [], [];
      if uid !in uidToAccount {
        return;
      }
      var acc := uidToAccount[uid];
      if acc !in players {
        return;
      }
      var p := players[acc];
      var uids := zone.GetInAOI(Player, p.x, p.y);
      aoi := uids;
      recipients := Recipients(uids, |uids|);
      Wound(uid, acc, damage);
    }

    /** Damage to an online player; at 0 HP it is revived at the spawn point. */
    method Wound(uid: nat, acc: string, damage: int)
      requires Valid() && uid in uidToAccount && uidToAccount[uid] == acc && acc in players
      modifies this`players, this`redis, zone.grid
      ensures Valid() && Value() == Strike(layout, old(Value()), uid, damage)
      ensures zone.Placed(Monster) == old(zone.Placed(Monster))
    {
      var p := players[acc];
      var left := p.hp - damage;
      if left < 0 { left := 0; }
      players := players[acc := p.(hp := left)];
      redis := redis[acc := left];
      if left <= 0 {
        players := players[acc := p.(hp := DEFAULT_HP, x := SPAWN_X, y := SPAWN_Y)];
        redis := redis[acc := DEFAULT_HP];
        assert players == old(players)[acc := p.(hp := DEFAULT_HP, x := SPAWN_X, y := SPAWN_Y)];
        assert redis == old(redis)[acc := DEFAULT_HP];
        zone.UpdatePosition(uid, p.x, p.y, SPAWN_X, SPAWN_Y);
      }
    }

    method HandleChat(acc: string) returns (ghost aoi: seq<nat>, recipients: Option<seq<string>>)
      requires Valid()
      ensures recipients.Some? <==> acc in players
      ensures acc in players ==>
                && Answers(layout, Value().placed, players[acc].x, players[acc].y, aoi)
                && recipients == Some(Named(uidToAccount, aoi))
    {
      aoi := [];
      if acc !in players {
        return aoi, None;
      }
      var uids := zone.GetInAOI(Player, players[acc].x, players[acc].y);
      aoi := uids;
      var names := Recipients(uids, |uids|);
      recipients := Some(names);
    }

    // ---- Attacking monsters ----

    ghost predicate Live(id: nat)
      requires Valid()
      reads this, monsters
    {
      id in monsterMap && monsterMap[id].state != AI.DEAD
    }

    /** The nearest live monster among `ids` within the player's attack range. */
    method SelectTarget(ids: seq<nat>, pos: Vec3) returns (target: Option<nat>)
      requires Valid()
      ensures target.None? ==>
                forall id :: id in ids && Live(id) ==> Dist(sqrt, pos, monsterMap[id].position) > PLAYER_ATTACK_RANGE
      ensures target.Some? ==>
                && target.value in ids && Live(target.value)
                && Dist(sqrt, pos, monsterMap[target.value].position) <= PLAYER_ATTACK_RANGE
                && forall id :: id in ids && Live(id) ==>
                     Dist(sqrt, pos, monsterMap[target.value].position) <= Dist(sqrt, pos, monsterMap[id].position)
    {
      target := None;
      var minDist := PLAYER_ATTACK_RANGE;
      for i := 0 to |ids|
        invariant minDist <= PLAYER_ATTACK_RANGE
        invariant target.None? ==> minDist == PLAYER_ATTACK_RANGE
        invariant target.None? ==>
                    forall j :: 0 <= j < i && Live(ids[j]) ==> Dist(sqrt, pos, monsterMap[ids[j]].position) > minDist
        invariant target.Some? ==>
                    && target.value in ids && Live(target.value)
                    && minDist == Dist(sqrt, pos, monsterMap[target.value].position)
                    && forall j :: 0 <= j < i && Live(ids[j]) ==>
                         minDist <= Dist(sqrt, pos, monsterMap[ids[j]].position)
      {
        if ids[i] in monsterMap {
          var mon := monsterMap[ids[i]];
          if mon.state != AI.DEAD {
            var dist := Dist(sqrt, pos, mon.position);
            if dist <= minDist {
              target := Some(ids[i]);
              minDist := dist;
            }
          }
        }
      }
    }

    method HandleAttack(acc: string) returns (ghost ids: seq<nat>, ghost aoi: seq<nat>, outcome: AttackOutcome)
      requires Valid()
      modifies monsters
      ensures Valid()
      ensures outcome.NotOnline? <==> acc !in players
      ensures acc in players ==> Answers(layout, zone.Placed(Monster), players[acc].x, players[acc].y, ids)
      ensures outcome.Miss? ==>
                forall id :: id in ids && Live(id) ==>
                  Dist(sqrt, Position(players[acc]), monsterMap[id].position) > PLAYER_ATTACK_RANGE
      ensures !outcome.Strikes? ==> forall m :: m in monsters ==> unchanged(m)
      ensures outcome.Strikes? ==>
                && Answers(layout, Value().placed, players[acc].x, players[acc].y, aoi)
                && outcome.recipients == Named(uidToAccount, Prefix(aoi, MAX_AOI_BROADCAST))
      ensures outcome.Strikes? ==>
                && outcome.monster in ids && old(Live(outcome.monster))
                && (forall id :: id in ids && old(Live(id)) ==>
                      Dist(sqrt, Position(players[acc]), old(monsterMap[outcome.monster].position)) <=
                      Dist(sqrt, Position(players[acc]), old(monsterMap[id].position)))
                && Dist(sqrt, Position(players[acc]), old(monsterMap[outcome.monster].position)) <= PLAYER_ATTACK_RANGE
                && outcome.damage == Damage(players[acc].atk, AI.DEFAULT_DEF)
                && monsterMap[outcome.monster].Value() ==
                     MonsterRuns.Step(sqrt, old(monsterMap[outcome.monster].Value()),
                                      MonsterRuns.Struck(outcome.damage))
                && outcome.left == monsterMap[outcome.monster].hp
                && forall m :: m in monsters && m != monsterMap[outcome.monster] ==> unchanged(m)
    {
      ids, aoi := [], [];
      if acc !in players {
        return ids, aoi, NotOnline;
      }
      var p := players[acc];
      var found := zone.GetInAOI(Monster, p.x, p.y);
      ids := found;
      var target := SelectTarget(found, Position(p));
      if target.None? {
        return ids, aoi, Miss;
      }
      var mon := monsterMap[target.value];
      var damage := p.atk - mon.defensePower;
      if damage < MIN_DAMAGE { damage := MIN_DAMAGE; }
      var left := mon.Suffer(damage);
      var names;
      aoi, names := AreaRecipients(p.x, p.y);
      outcome := Strikes(target.value, damage, left, names);
      if left <= 0 {
        mon.Kill();
      }
    }

    method BuffMonsters(minId: nat, maxId: nat, add: int)
      requires Valid()
      modifies monsters
      ensures Valid()
      ensures forall i :: 0 <= i < |monsters| ==>
                monsters[i].Value() ==
                  if minId <= monsters[i].id <= maxId then
                    MonsterRuns.Step(sqrt, old(monsters[i].Value()), MonsterRuns.Buffed(add))
                  else old(monsters[i].Value())
    {
      for i := 0 to |monsters|
        invariant forall j :: i <= j < |monsters| ==> monsters[j].Value() == old(monsters[j].Value())
        invariant forall j :: 0 <= j < i ==>
                    monsters[j].Value() ==
                      if minId <= monsters[j].id <= maxId then
                        MonsterRuns.Step(sqrt, old(monsters[j].Value()), MonsterRuns.Buffed(add))
                      else old(monsters[j].Value())
      {
        if minId <= monsters[i].id <= maxId {
          if monsters[i].state != AI.DEAD {
            monsters[i].AddHp(add);
          }
        }
      }
    }

    // ---- The AI tick ----

    method LocateTarget(uid: nat) returns (found: Option<Vec3>)
      ensures found == Whereabouts(Value(), uid)
    {
      if uid in uidToAccount && uidToAccount[uid] in players {
        return Some(Position(players[uidToAccount[uid]]));
      }
      found := None;
    }

    /** An idle monster takes the first player of its area in aggro range. */
    method SearchTarget(uids: seq<nat>, pos: Vec3) returns (picked: Option<(nat, Vec3)>)
      ensures Picks(sqrt, Value(), uids, pos, picked)
    {
      for i := 0 to |uids|
        invariant forall j :: 0 <= j < i ==> !InAggro(sqrt, Value(), uids[j], pos)
      {
        var where := LocateTarget(uids[i]);
        if where.Some? {
          if Dist(sqrt, where.value, pos) < AGGRO_RANGE {
            assert FirstInAggro(sqrt, Value(), uids, pos, i);
            return Some((uids[i], where.value));
          }
        }
      }
      picked := None;
    }

    /** The state-specific step of a living monster before its update. */
    method DecideTurn(mon: AI.Monster) returns (ghost aoi: seq<nat>, ghost view: AI.View)
      requires Valid() && mon.sqrt == sqrt && mon.state != AI.DEAD
      modifies mon
      ensures mon.Value() == AI.Decide(sqrt, old(mon.Value()), view)
      ensures Sees(sqrt, layout, Value(), old(mon.Value()), aoi, view)
    {
      aoi, view := [], AI.View(None, None);
      match mon.state {
        case IDLE =>
          var uids := zone.GetInAOI(Player, mon.position.x, mon.position.y);
          var picked := SearchTarget(uids, mon.position);
          aoi, view := uids, AI.View(picked, None);
          if picked.Some? {
            mon.Aim(picked.value.0, picked.value.1);
          }
        case CHASE =>
          var where := LocateTarget(mon.targetUserId);
          view := AI.View(None, where);
          if where.Some? && Dist(sqrt, where.value, mon.position) <= AI.CHASE_RANGE {
            mon.Follow(where.value);
          } else {
            mon.LoseChase();
          }
        case ATTACK =>
          var where := LocateTarget(mon.targetUserId);
          view := AI.View(None, where);
          if where.Some? && Dist(sqrt, where.value, mon.position) <= AI.CHASE_RANGE {
            mon.Follow(where.value);
          } else {
            mon.LoseAttack();
          }
        case RETURN =>
        case DEAD =>
      }
    }

    /** The turn of one monster: decide, update, strike, report the move to the zone. */
    method MonsterTurn(mon: AI.Monster, dt: real) returns (ghost aoi: seq<nat>, ghost view: AI.View)
      requires Valid() && mon in monsters
      modifies this`players, this`redis, zone.grid, mon
      ensures Valid()
      ensures mon.Value() == AI.Turn(sqrt, old(mon.Value()), dt, view)
      ensures Sees(sqrt, layout, old(Value()), old(mon.Value()), aoi, view)
      ensures Value() == if AI.TurnFires(sqrt, old(mon.Value()), dt, view) then
                           Strike(layout, old(Value()), old(mon.targetUserId), AI.DEFAULT_ATK)
                         else
                           old(Value())
      ensures zone.Placed(Monster) ==
                Resettled(layout, old(zone.Placed(Monster)), mon.id, old(mon.Value()), mon.Value())
    {
      if mon.state == AI.DEAD {
        var _ := mon.ProcessDead(dt);
        return [], AI.View(None, None);
      }
      var from := mon.position;
      aoi, view := DecideTurn(mon);
      var fired := mon.Tick(dt);
      if fired {
        var _, _ := OnMonsterAttack(mon.targetUserId, mon.attackPower);
      }
      if Reported(from, mon.position) {
        zone.UpdatePositionMonster(mon.id, from.x, from.y, mon.position.x, mon.position.y);
      }
    }

    /** One turn within a tick that began with the players `first` and the monster sectors `start`. */
    method NextTurn(mon: AI.Monster, dt: real, ghost first: State, ghost start: set<Placement>, ghost log: seq<TurnLog>)
        returns (ghost t: TurnLog)
      requires Valid() && mon in monsters && Chained(sqrt, layout, dt, log, first, Value())
      requires zone.Placed(Monster) == SectorsAfter(sqrt, layout, dt, log, start)
      modifies this`players, this`redis, zone.grid, mon
      ensures Valid() && Played(sqrt, layout, dt, t, old(mon.Value()), mon.Value())
      ensures Chained(sqrt, layout, dt, log + [t], first, Value())
      ensures t.id == mon.id
      ensures zone.Placed(Monster) == SectorsAfter(sqrt, layout, dt, log + [t], start)
    {
      ghost var before, m := Value(), mon.Value();
      ghost var aoi, view;
      aoi, view := MonsterTurn(mon, dt);
      t := TurnLog(before, mon.id, m, aoi, view);
      ChainOneMore(sqrt, layout, dt, log, first, t);
      SectorsOneMore(sqrt, layout, dt, log, t, start);
    }

    ghost function Minds(): (minds: seq<AI.Mon>)
      reads this, monsters
      ensures |minds| == |monsters| && forall i :: 0 <= i < |monsters| ==> minds[i] == monsters[i].Value()
    {
      seq(|monsters|, i requires 0 <= i < |monsters| reads this, monsters => monsters[i].Value())
    }

    /** The first monsters, which were as in `were`, have had the turns of `log`. */
    ghost predicate HadTurns(dt: real, were: seq<AI.Mon>, log: seq<TurnLog>)
      requires Valid() && |were| == |monsters| && |log| <= |monsters|
      reads this, monsters
    {
      && (forall j :: |log| <= j < |monsters| ==> monsters[j].Value() == were[j])
      && (forall j :: 0 <= j < |log| ==>
            log[j].id == monsters[j].id && Played(sqrt, layout, dt, log[j], were[j], monsters[j].Value()))
    }

    /** The turn of the next monster. */
    method OneTurn(dt: real, ghost first: State, ghost start: set<Placement>, ghost were: seq<AI.Mon>, i: nat,
                   ghost log: seq<TurnLog>)
        returns (ghost t: TurnLog)
      requires Valid() && i == |log| < |monsters| == |were| && HadTurns(dt, were, log)
      requires Chained(sqrt, layout, dt, log, first, Value())
      requires zone.Placed(Monster) == SectorsAfter(sqrt, layout, dt, log, start)
      modifies this`players, this`redis, zone.grid, monsters[i]
      ensures Valid() && HadTurns(dt, were, log + [t])
      ensures Chained(sqrt, layout, dt, log + [t], first, Value())
      ensures zone.Placed(Monster) == SectorsAfter(sqrt, layout, dt, log + [t], start)
    {
      t := NextTurn(monsters[i], dt, first, start, log);
      assert forall j :: 0 <= j < |monsters| && j != i ==> monsters[j].Value() == old(monsters[j].Value());
    }

    /** One AI tick: the monsters take their turns in order, each seeing the players as the turns
        before it left them. */
    method AiTick(dt: real) returns (ghost log: seq<TurnLog>)
      requires Valid()
      modifies this`players, this`redis, zone.grid, monsters
      ensures Valid() && |log| == |monsters|
      ensures forall i :: 0 <= i < |monsters| ==>
                log[i].id == monsters[i].id &&
                Played(sqrt, layout, dt, log[i], old(monsters[i].Value()), monsters[i].Value())
      ensures Chained(sqrt, layout, dt, log, old(Value()), Value())
      ensures zone.Placed(Monster) == SectorsAfter(sqrt, layout, dt, log, old(zone.Placed(Monster)))
    {
      log := [];
      ghost var first, start, were := Value(), zone.Placed(Monster), Minds();
      for i := 0 to |monsters|
        invariant Valid() && |log| == i && HadTurns(dt, were, log)
        invariant Chained(sqrt, layout, dt, log, first, Value())
        invariant zone.Placed(Monster) == SectorsAfter(sqrt, layout, dt, log, start)
      {
        ghost var t := OneTurn(dt, first, start, were, i, log);
        log := log + [t];
      }
    }
  }
}
