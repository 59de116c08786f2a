/** The player side of the game world as a value: what each task of the game strand does to
    `GameContext` (GameServer/GameServer.h), the handlers of
    GameServer/Handlers/GatewayGame/GatewayHandlers.cpp, the cleanup of
    GameServer/Session/GatewaySession.cpp and the monster attack callback of
    GameServer/Monster/MonsterManager.cpp.

    The class `GameContext` implements these functions; the theorems are in `WorldRuns`.
 */
module World {
  import opened Wrappers
  import opened Geometry
  import opened ZoneIndex

  const DEFAULT_HP := 100
  const DEFAULT_ATK := 30
  const DEFAULT_DEF := 5
  const SPAWN_X := 0.0
  const SPAWN_Y := 0.0
  const MAX_AOI_BROADCAST := 20
  const BOT_MARK := "BOT_STRESS"

  datatype PlayerInfo = PlayerInfo(uid: nat, x: real, y: real, hp: int, atk: int, def: int)

  /** The number stands for the session object, which lives until its last task has run: two
      sessions never share one, even if the address of a freed session is used again. */
  type Gateway = nat

  datatype State = State(
    players: map<string, PlayerInfo>,
    uidToAccount: map<nat, string>,
    gateways: map<Gateway, set<string>>,
    placed: set<Placement>,
    redis: map<string, int>,
    uidCounter: nat,
    bots: int)

  const Empty := State(map[], map[], map[], {}, map[], 1, 0)

  /** One task of the game strand that touches players. */
  datatype Event =
    | Move(gw: Gateway, acc: string, x: real, y: real)
    | Leave(gw: Gateway, acc: string)
    | Down(gw: Gateway)
    | Hit(uid: nat, damage: nat)

  predicate IsBot(acc: string) {
    exists i | 0 <= i <= |acc| :: BOT_MARK <= acc[i..]
  }

  function Bots(accs: set<string>): set<string> {
    set a | a in accs && IsBot(a)
  }

  function CellOfPlayer(layout: Layout, p: PlayerInfo): Option<Cell>
    requires layout.Positive()
  {
    layout.CellOf(p.x, p.y)
  }

  function ClampAxis(v: real, limit: int): real {
    if v < 0.0 then 0.0 else if v > limit as real then limit as real else v
  }

  // ---- Gateway membership ----

  function Members(gateways: map<Gateway, set<string>>, gw: Gateway): set<string> {
    if gw in gateways then gateways[gw] else {}
  }

  function Register(gateways: map<Gateway, set<string>>, gw: Gateway, acc: string): map<Gateway, set<string>> {
    gateways[gw := Members(gateways, gw) + {acc}]
  }

  function Unregister(gateways: map<Gateway, set<string>>, gw: Gateway, acc: string): map<Gateway, set<string>> {
    if gw !in gateways then gateways
    else if gateways[gw] - {acc} == {} then gateways - {gw}
    else gateways[gw := gateways[gw] - {acc}]
  }

  // ---- Tasks ----

  /** First move of an account: a fresh uid and an entry in every structure. */
  function Admit(layout: Layout, w: State, gw: Gateway, acc: string, x: real, y: real): State
    requires layout.Positive()
  {
    State(
      w.players[acc := PlayerInfo(w.uidCounter, x, y, DEFAULT_HP, DEFAULT_ATK, DEFAULT_DEF)],
      w.uidToAccount[w.uidCounter := acc],
      Register(w.gateways, gw, acc),
      Enter(w.placed, w.uidCounter, layout.CellOf(x, y)),
      w.redis[acc := DEFAULT_HP],
      w.uidCounter + 1,
      w.bots + if IsBot(acc) then 1 else 0)
  }

  /** Writes a position and tells the zone. */
  function Relocate(layout: Layout, w: State, acc: string, x: real, y: real): State
    requires layout.Positive() && acc in w.players
  {
    var p := w.players[acc];
    w.(players := w.players[acc := p.(x := x, y := y)],
       placed := Shift(w.placed, p.uid, CellOfPlayer(layout, p), layout.CellOf(x, y)))
  }

  function MoveTo(layout: Layout, w: State, gw: Gateway, acc: string, rawX: real, rawY: real): State
    requires layout.Positive()
  {
    var x, y := ClampAxis(rawX, layout.width), ClampAxis(rawY, layout.height);
    Relocate(layout, if acc in w.players then w else Admit(layout, w, gw, acc, x, y), acc, x, y)
  }

  function Placements(layout: Layout, players: map<string, PlayerInfo>, accs: set<string>): set<Placement>
    requires layout.Positive() && accs <= players.Keys
  {
    set a | a in accs && CellOfPlayer(layout, players[a]).Some? ::
      (players[a].uid, CellOfPlayer(layout, players[a]).value)
  }

  function Uids(players: map<string, PlayerInfo>, accs: set<string>): set<nat>
    requires accs <= players.Keys
  {
    set a | a in accs :: players[a].uid
  }

  /** Takes a set of online accounts out of every structure but the gateway sets. */
  function Evict(layout: Layout, w: State, accs: set<string>): State
    requires layout.Positive() && accs <= w.players.Keys
  {
    w.(players := w.players - accs,
       uidToAccount := w.uidToAccount - Uids(w.players, accs),
       placed := w.placed - Placements(layout, w.players, accs),
       redis := w.redis - accs,
       bots := w.bots - |Bots(accs)|)
  }

  function Depart(layout: Layout, w: State, gw: Gateway, acc: string): State
    requires layout.Positive()
  {
    if acc in w.players then
      Evict(layout, w, {acc}).(gateways := Unregister(w.gateways, gw, acc))
    else
      w
  }

  /** Cleanup after a gateway failure: all its online accounts at once. */
  function Cleanup(layout: Layout, w: State, gw: Gateway): State
    requires layout.Positive()
  {
    Evict(layout, w, Members(w.gateways, gw) * w.players.Keys).(gateways := w.gateways - {gw})
  }

  /** A monster's attack on a player: damage, and revival at the spawn point at 0 HP. */
  function Strike(layout: Layout, w: State, uid: nat, damage: int): State
    requires layout.Positive()
  {
    if uid !in w.uidToAccount || w.uidToAccount[uid] !in w.players then w
    else
      var acc := w.uidToAccount[uid];
      var p := w.players[acc];
      if p.hp - damage <= 0 then
        w.(players := w.players[acc := p.(hp := DEFAULT_HP, x := SPAWN_X, y := SPAWN_Y)],
           redis := w.redis[acc := DEFAULT_HP],
           placed := Shift(w.placed, uid, CellOfPlayer(layout, p), layout.CellOf(SPAWN_X, SPAWN_Y)))
      else
        w.(players := w.players[acc := p.(hp := p.hp - damage)],
           redis := w.redis[acc := p.hp - damage])
  }

  function Step(layout: Layout, w: State, e: Event): State
    requires layout.Positive()
  {
    match e
    case Move(gw, acc, x, y) => MoveTo(layout, w, gw, acc, x, y)
    case Leave(gw, acc) => Depart(layout, w, gw, acc)
    case Down(gw) => Cleanup(layout, w, gw)
    case Hit(uid, damage) => Strike(layout, w, uid, damage)
  }

  function Run(layout: Layout, w: State, events: seq<Event>): State
    requires layout.Positive()
    decreases |events|
  {
    if events == [] then w
    else Step(layout, Run(layout, w, events[..|events| - 1]), events[|events| - 1])
  }

  // ---- The invariant of every run ----

  /** `playerMap` and `uidToAccount` are inverse to each other. */
  ghost predicate Inverse(players: map<string, PlayerInfo>, uidToAccount: map<nat, string>) {
    && (forall a :: a in players ==> players[a].uid in uidToAccount && uidToAccount[players[a].uid] == a)
    && (forall u :: u in uidToAccount ==> uidToAccount[u] in players && players[uidToAccount[u]].uid == u)
  }

  /** Every uid in use, or still in a sector, has been issued. */
  ghost predicate Issued(uidToAccount: map<nat, string>, placed: set<Placement>, counter: nat) {
    && (forall u :: u in uidToAccount ==> u < counter)
    && (forall p :: p in placed ==> p.0 < counter)
  }

  /** Every online player inside the map is in the sector of its position. */
  ghost predicate Complete(layout: Layout, players: map<string, PlayerInfo>, placed: set<Placement>)
    requires layout.Positive()
  {
    forall a :: a in players && CellOfPlayer(layout, players[a]).Some? ==>
      (players[a].uid, CellOfPlayer(layout, players[a]).value) in placed
  }

  /** The Redis mirror holds exactly the online accounts and their HP, in 1..DEFAULT_HP. */
  ghost predicate Mirrored(players: map<string, PlayerInfo>, redis: map<string, int>) {
    && redis.Keys == players.Keys
    && forall a :: a in players ==> redis[a] == players[a].hp && 1 <= players[a].hp <= DEFAULT_HP
  }

  /** Positions are inside the closed map rectangle. */
  ghost predicate Bounded(layout: Layout, players: map<string, PlayerInfo>) {
    forall a :: a in players ==>
      0.0 <= players[a].x <= layout.width as real && 0.0 <= players[a].y <= layout.height as real
  }

  ghost predicate InSomeSet(gateways: map<Gateway, set<string>>, acc: string) {
    exists g :: g in gateways && acc in gateways[g]
  }

  /** Every online account is in the set of some gateway, and no set is empty. */
  ghost predicate Covered(online: set<string>, gateways: map<Gateway, set<string>>) {
    && (forall a :: a in online ==> InSomeSet(gateways, a))
    && (forall g :: g in gateways ==> gateways[g] != {})
  }

  ghost predicate Inv(layout: Layout, w: State)
    requires layout.Positive()
  {
    && Inverse(w.players, w.uidToAccount)
    && Issued(w.uidToAccount, w.placed, w.uidCounter)
    && Complete(layout, w.players, w.placed)
    && Mirrored(w.players, w.redis)
    && w.bots == |Bots(w.players.Keys)|
    && Bounded(layout, w.players)
    && Covered(w.players.Keys, w.gateways)
  }

  // ---- Properties that hold on restricted runs only ----

  /** The placement is that of an online player at its position. */
  ghost predicate Genuine(layout: Layout, players: map<string, PlayerInfo>, uidToAccount: map<nat, string>,
                          p: Placement)
    requires layout.Positive()
  {
    p.0 in uidToAccount && uidToAccount[p.0] in players &&
    CellOfPlayer(layout, players[uidToAccount[p.0]]) == Some(p.1)
  }

  /** Sectors hold nothing but online players at their position. */
  ghost predicate Exact(layout: Layout, w: State)
    requires layout.Positive()
  {
    forall p :: p in w.placed ==> Genuine(layout, w.players, w.uidToAccount, p)
  }

  /** With Covered: the gateway sets partition the online accounts. */
  ghost predicate Partitioned(online: set<string>, gateways: map<Gateway, set<string>>) {
    && (forall g :: g in gateways ==> gateways[g] <= online)
    && (forall g, h :: g in gateways && h in gateways && g != h ==> gateways[g] !! gateways[h])
  }
}
