# Verified model of the game cluster

The repository is a cluster of servers for an online game. Players connect to a **gateway**, which relays
their packets to the **game server**; a **world server** hands out login tokens; a **stress tool** drives the
cluster with bots. The game server runs all game logic on one strand, so its life is a sequence of tasks. This
project models that strand, the monsters that live on it, the encrypted client stream and the small protocols
around them, and proves what every run of them keeps.

Code that updates objects in place is a class here (`Zone`, `GameContext`, `Monster`, `PacketCrypto`,
`PacketRateLimiter`, `ClientSession`, `SessionWriter`, `StressManager`, `TokenStore`, `PendingTokens`). Each method
is proved equal to a function on abstract values, and the theorems about whole runs are lemmas about those
functions.

| file | content |
|---|---|
| Geometry.dfy | planar distance over the reals |
| Zone.dfy | sector grid and area-of-interest query |
| World.dfy, WorldRuns.dfy | player tasks of the game strand; invariant of every run, index agreement, gateway failure |
| WorldOutcomes.dfy, PlayerLog.dfy | what each player task does; players of every run read off the log of tasks |
| GatewayReader.dfy | why the cleanup is the last task of a gateway session |
| Monster.dfy, MonsterRuns.dfy | the monster; path freshness, going home, attack cadence, life and death |
| MonsterTurns.dfy | what each turn of a monster does; when a hunt ends in a hit and when it never does |
| MonsterSectors.dfy | exactly when the zone knows where a monster is |
| Homecoming.dfy | exactly when a returning monster arrives with equal ticks |
| GameContext.dfy, Encounters.dfy | the handlers and the AI tick; monsters and players together |
| Game.dfy, Hunts.dfy | the whole strand: one run over players and monsters; players hurt, monsters killed |
| AdminService.dfy, Links.dfy | the guarded monster buff; messages to all peers of a server |
| PacketCrypto.dfy, RateLimiter.dfy, ClientStream.dfy, WireFormat.dfy | sealed packets, rate limit, byte stream from client to gateway, byte layouts |
| SendQueue.dfy | one-writer send queue of a session |
| BotAllocator.dfy, StressSession.dfy | bot ids of the stress tool; how often a session reports |
| TokenRelay.dfy | one-time login tokens |

## Where the code does less than intended

- A returning monster need not get home. The AI timer waits at least 100 ms, so a step is at least 0.2, twice the
  neighbourhood of a waypoint, and the monster can jump over a waypoint to and fro for ever (`StrandedForever`).
  `WaypointReachedIff` and `HomecomingIff` say exactly when it arrives with equal ticks, `ReturnEndsAtHome` when it
  does with any ticks.
- A hunting monster need not strike a player who stands in its attack range. Any waypoint in range ends the chase,
  while the attack looks at the goal, which may lag the player by 0.1: with the waypoint in range and the goal out of
  it the monster turns between CHASE and ATTACK for ever (`PlayerInRangeIsNeverHit`, with a path around a corner, as
  only the Detour build of GameServer/PathFinder/PathFinder.cpp makes them). `StandingTargetIsHitIff` is the exact
  condition; with straight paths a player who stands still is struck (`SeenPlayerIsStruck`).
- The zone does not hear of a respawn, nor of moves below 0.05, so it can list a monster where it died
  (`RespawnIsNotReported`); `AlwaysLocatedIff` says exactly when it does not.
- Rate drops can break an encrypted stream. Empty packets, such as the attack of both clients
  (StressTestTool/Session/StressSession.cpp:233-235), use no sequence number: accepted, they end a row of drops
  without closing the gap the drops left (`BurstsBreakStream`). They cannot for a sender that never sends 200 empty
  packets in a row (`RateDropsAreHarmless`); `StreamRefinesLinkIff` and `PassesIff` say exactly when they do.
- Moves are clamped to `x <= WIDTH`, but the zone ends before `WIDTH`. A step onto the far edge leaves a stale
  sector entry (`EdgeMoveDuplicates`); `MoveKeepsExactIff` and `RunIsExactIff` say exactly when. In-map players are
  never missed.
- A gateway session that reads a header with an impossible size (GameServer/Session/GatewaySession.cpp:165) stops
  reading without the cleanup its comment promises for a lost gateway; `CleanupPostedIff` says exactly when the
  cleanup comes.
- A leave that arrives over another gateway leaves the account name in the old gateway's set
  (`ForeignLeaveKeepsName`); `RunIsPartitionedIff` is the condition over whole runs.
- The sequence check is meant to block replays, but blocks only the last 100 numbers: with 500 the last number, 300
  opens again, no wrap involved (`OldPayloadOpensAgain`). `ReplayInStreamIff` says exactly when a payload opens again;
  0 repeats after 0 (`BackwardWindow`).
- A stress session can report its id twice, but only if a write fails before the gateway connect is handled
  (`ReportsOnceUnlessWriteFails`), as a login write can when the login socket is closed for the gateway; its stop then
  has to run when the connect is finished and not yet handled (`FailedWriteReportsTwice`). Two sessions then share an
  id (`DoubleReportSharesId`, `BotIdsAreConservedIff`).
- A stress session that stops clears its send queue while a write may be finished and not yet handled; the handler
  then takes the front of an empty queue (`StopPopsEmptyIff`, and `NeverPopsEmptyIff` over whole runs).
- `CleanExpired` of the token store is called nowhere; the relay does not depend on it.

The game server itself does not check that a buff is positive; it relies on the guard of its only sender
(`DeadIffNoHp`, `RefusedBuffWouldNotKill`, and `StepKeepsLifeIff` for the handler alone).

## Model

| member | source | states |
|---|---|---|
| ZoneIndex.Zone.constructor | GameServer/Zone/Zone.cpp:68-81 | every sector of the rows x cols grid starts empty, for any positive sizes |
| ZoneIndex.Zone.GetSectorIndex | GameServer/Zone/Zone.cpp:83-89 | succeeds exactly on the half-open map, with the cell of the point, inside the grid |
| ZoneIndex.CellInGrid | GameServer/Zone/Zone.cpp:71-88 | the grid is large enough: a point has a cell iff it is in the map, and the cell is a grid slot |
| ZoneIndex.BlockBounds | GameServer/Zone/Zone.cpp:83-89 | within one sector size on both axes implies same 3x3 block implies closer than two sector sizes on both axes |
| ZoneIndex.Zone.Add | GameServer/Zone/Zone.cpp:14-18 | one placement more, the other kind of ids untouched |
| ZoneIndex.Zone.Remove | GameServer/Zone/Zone.cpp:21-25 | one placement less, the other kind of ids untouched |
| ZoneIndex.Zone.EnterZone | GameServer/Zone/Zone.cpp:91-96 | adds the placement of the cell of the point, nothing outside the map |
| ZoneIndex.Zone.LeaveZone | GameServer/Zone/Zone.cpp:98-103 | removes the placement of the cell of the point, nothing outside the map |
| ZoneIndex.Zone.UpdatePosition | GameServer/Zone/Zone.cpp:108-124 | the placements shift from the old to the new cell; a player leaving the map keeps its old placement |
| ZoneIndex.Zone.UpdatePositionMonster | GameServer/Zone/Zone.cpp:168-176 | the placements shift only when both ends are in the map |
| ZoneIndex.Zone.SectorIds | GameServer/Zone/Zone.cpp:28-32 | lists each id of a sector once, nothing outside the grid |
| ZoneIndex.Zone.AppendRow | GameServer/Zone/Zone.cpp:147-152 | one row of the block: every id once per placement visited so far |
| ZoneIndex.Zone.GetInAOI | GameServer/Zone/Zone.cpp:129-155 | the result lists each id exactly as often as it is placed in the 3x3 block of the point, and is empty outside the map |
| WorldRuns.AdmitKeepsInv | GameServer/Handlers/GatewayGame/GatewayHandlers.cpp:57-79 | the first move of an account keeps the world invariant |
| WorldRuns.RelocateKeepsInv | GameServer/Handlers/GatewayGame/GatewayHandlers.cpp:82-86 | writing a position inside the closed map and updating the zone keeps the world invariant |
| WorldRuns.DepartKeepsInv | GameServer/Handlers/GatewayGame/GatewayHandlers.cpp:119-139 | a leave, over whatever gateway, keeps the world invariant |
| WorldRuns.CleanupKeepsInv | GameServer/Session/GatewaySession.cpp:114-143 | the bulk cleanup of a gateway keeps the world invariant, the bot counter included |
| WorldRuns.StrikeKeepsInv | GameServer/Monster/MonsterManager.cpp:49-114 | a monster hit, lethal or not, keeps the world invariant: HP stays in 1..100 and equals the Redis mirror |
| WorldRuns.StepKeepsInv | GameServer/Handlers/GatewayGame/GatewayHandlers.cpp:30-140 | every player task keeps the invariant: maps inverse, uids issued, in-map players in their sector, Redis and bot counter exact, every online account in a gateway set |
| WorldRuns.EveryRunKeepsInv | GameServer/Handlers/GatewayGame/GatewayHandlers.cpp:30-140 | the invariant holds after every run of tasks from the empty server, edge moves and foreign leaves included |
| WorldRuns.StepIssuesFreshUids | GameServer/Handlers/GatewayGame/GatewayHandlers.cpp:59-66 | a new player gets a uid that nothing in the state refers to, players keep theirs, the counter never falls |
| WorldRuns.MoveKeepsExactIff | GameServer/Handlers/GatewayGame/GatewayHandlers.cpp:44-86 | a move keeps the sectors exact if and only if it does not take an online player from the map onto its far edge |
| WorldRuns.InsideRunsAreExact | GameServer/Handlers/GatewayGame/GatewayHandlers.cpp:45-86 | on runs with requests short of the far edges, sectors hold exactly the online players at their positions |
| WorldRuns.RunIsExactIff | GameServer/Handlers/GatewayGame/GatewayHandlers.cpp:44-86 | on every run: the sectors are exact after every task iff no move takes an online player from the map onto its far edge |
| WorldRuns.EdgeMoveDuplicates | GameServer/Handlers/GatewayGame/GatewayHandlers.cpp:47-48 | concrete run: after a step onto x == WIDTH and back a player is in two sectors |
| WorldRuns.AoiMember | GameServer/Zone/Zone.cpp:146-154 | an id is returned iff it has a placement in the block |
| WorldRuns.AoiComplete | GameServer/Zone/Zone.cpp:129-155 | on every run, the query misses no in-map player of the block, so nobody within one sector size on both axes |
| WorldRuns.AoiRefinesScan | GameServer/Zone/Zone.cpp:129-155 | with exact sectors the query is a plain scan: each online player of the block exactly once, nobody else, all closer than two sector sizes per axis |
| WorldRuns.LeaveKeepsPartitionIff | GameServer/GameServer.h:134-140 | a leave keeps the gateway sets a partition of the online accounts iff it arrives over the registering gateway (or the account is offline) |
| WorldRuns.OtherTasksKeepPartition | GameServer/GameServer.h:126-152 | moves, gateway cleanups and hits keep the partition |
| WorldRuns.RunIsPartitionedIff | GameServer/GameServer.h:126-152 | on every run: the gateway sets partition the online accounts after every task iff every leave of an online account arrives over a gateway whose set holds it |
| WorldRuns.ForeignLeaveKeepsName | GameServer/Handlers/GatewayGame/GatewayHandlers.cpp:116-129 | concrete run: after a leave over another gateway the old gateway still lists the account |
| WorldRuns.NoZombies | GameServer/Session/GatewaySession.cpp:109-143 | over every FIFO run: the set of a failed gateway never reappears and every online account belongs to a gateway that has not failed |
| WorldOutcomes.MoveOutcome | GameServer/Handlers/GatewayGame/GatewayHandlers.cpp:45-86 | a move takes an online account to the requested point, each coordinate brought to the nearer end if outside; uid, HP, attack, Redis and sets stay |
| WorldOutcomes.EntryOutcome | GameServer/Handlers/GatewayGame/GatewayHandlers.cpp:57-79 | a move of an offline account brings it in at that point: next uid, full HP in both places, the set of its gateway |
| WorldOutcomes.MoveSparesOthers | GameServer/Handlers/GatewayGame/GatewayHandlers.cpp:50-86 | no other account notices: record, Redis entry and sector entries stay |
| WorldOutcomes.MoveSparesSets | GameServer/Handlers/GatewayGame/GatewayHandlers.cpp:50-86 | a move lists nobody but its account, and only in the set of its gateway |
| WorldOutcomes.LeaveOutcome | GameServer/Handlers/GatewayGame/GatewayHandlers.cpp:119-138 | after a leave over any gateway the account is in no map, not in Redis, not in its sector, not in the set of that gateway; a leave of an offline account does nothing |
| WorldOutcomes.LeaveSparesOthers | GameServer/Handlers/GatewayGame/GatewayHandlers.cpp:119-138 | no other account notices a leave |
| WorldOutcomes.LeaveSparesSets | GameServer/GameServer.h:134-140 | a leave unlists nobody but its account, and only at its gateway |
| WorldOutcomes.CleanupOutcome | GameServer/Session/GatewaySession.cpp:114-142 | after a cleanup exactly the accounts outside the set of the gateway are online, as they were; its set is gone, all other sets stay |
| WorldOutcomes.HitOutcome | GameServer/Monster/MonsterManager.cpp:58-96 | a hit of d leaves hp - d, or full HP at the spawn point when that is not positive; Redis follows |
| WorldOutcomes.HitSparesOthers | GameServer/Monster/MonsterManager.cpp:49-96 | a hit touches no player with another uid |
| WorldOutcomes.HitSparesSets | GameServer/Monster/MonsterManager.cpp:49-96 | a hit brings nobody in or out and changes no set |
| WorldOutcomes.BotsAreMarked | GameServer/Handlers/GatewayGame/GatewayHandlers.cpp:72-76 | an account is a bot iff BOT_STRESS occurs in its name |
| PlayerLog.LogTellsWorld | GameServer/Handlers/GatewayGame/GatewayHandlers.cpp:30-140 | on every run, for every account: whether it is online, its uid, place, HP and the gateways that list it are what a fold over the log of tasks says, one account at a time |
| PlayerLog.OnlineStep | GameServer/Handlers/GatewayGame/GatewayHandlers.cpp:50-138 | one task brings an account in by a move, takes it out by a leave or the cleanup of a gateway that lists it, and leaves it otherwise |
| PlayerLog.OnlineIff | GameServer/Session/GatewaySession.cpp:114-142 | on every run an account is online iff it moved after the last leave that names it and after the last cleanup that found it in its set |
| PlayerLog.RecordStep | GameServer/Monster/MonsterManager.cpp:49-96 | what any task does to the record of an account it does not take offline |
| PlayerLog.HpLedger | GameServer/Monster/MonsterManager.cpp:58-65 | from any moment of any run: while the damage since then is short of the HP, an account that stays online has lost exactly that damage and is where its last move took it |
| PlayerLog.LastHitRevives | GameServer/Monster/MonsterManager.cpp:83-96 | the hit that completes the damage leaves full HP at the spawn point |
| GatewayReader.DownIsLast | GameServer/Session/GatewaySession.cpp:163-224 | in what a session posts, the cleanup is the last task |
| GatewayReader.PacketIsPosted | GameServer/Session/GatewaySession.cpp:163-224 | every packet read before the chain ends is posted, in the order of arrival |
| GatewayReader.CleanupPostedIff | GameServer/Session/GatewaySession.cpp:160-225 | a session posts its cleanup iff its read chain ends in a failed read, not when a bad header size ends it |
| GatewayReader.NothingAfterCleanup | GameServer/Session/GatewaySession.cpp:114-224 | in every interleaving of the posted tasks nothing of a session follows its cleanup |
| GatewayReader.LogIsFifo | GameServer/Session/GatewaySession.cpp:114-224 | so every strand log meets the order that NoZombies needs |
| GatewayReader.OnlineAccountsHaveNoFailedSession | GameServer/Session/GatewaySession.cpp:109-225 | when the strand has run everything posted, every online account is in the set of one of the sessions, and the chain of that session did not fail |
| GatewayReader.BadHeaderKeepsAccounts | GameServer/Session/GatewaySession.cpp:165 | concrete chain: after a header with an impossible size the account stays online |
| MonsterAI.Monster.constructor | GameServer/Monster/Monster.cpp:12-25 | a new monster is the newborn value: idle, full HP, full attack timer |
| MonsterAI.Monster.Settle | GameServer/Monster/MonsterManager.cpp:118-122 | position, home and HP come from the spawn data |
| MonsterAI.Monster.RequestPath | GameServer/Monster/Monster.cpp:183-196 | a request carries the next version, the current position, goal and state |
| MonsterAI.Monster.Aim | GameServer/Monster/Monster.cpp:52-62 | target and goal are set, state CHASE, a path requested |
| MonsterAI.Monster.Follow | GameServer/Monster/Monster.cpp:65-76 | the goal follows the target only beyond the tolerance, with a new request |
| MonsterAI.Monster.LoseChase | GameServer/Monster/Monster.cpp:79-86 | a chasing monster turns home, others do nothing |
| MonsterAI.Monster.LoseAttack | GameServer/Monster/Monster.cpp:88-96 | an attacking monster drops its target and turns home |
| MonsterAI.Monster.OnPathResult | GameServer/Monster/Monster.cpp:202-234 | a result replaces the path iff version and state match; the first waypoint is skipped when already reached |
| MonsterAI.Monster.Advance | GameServer/Monster/Monster.cpp:115-121 | one step along the path, or on to the next waypoint |
| MonsterAI.Monster.Tick | GameServer/Monster/Monster.cpp:29-170 | the update of every state, and whether it fires the attack callback |
| MonsterAI.Monster.Suffer | GameServer/Monster/Monster.h:107-111 | damage is subtracted, HP not below 0 |
| MonsterAI.Monster.Kill | GameServer/Monster/Monster.h:114-118 | HP 0, DEAD, pending requests void |
| MonsterAI.Monster.Revive | GameServer/Monster/Monster.h:132-140 | full HP, idle at home, no path, pending requests void |
| MonsterAI.Monster.ProcessDead | GameServer/Monster/MonsterManager.cpp:144-151 | the dead timer sums up; revival exactly when it reaches the respawn time |
| MonsterRuns.StepKeepsFresh | GameServer/Monster/Monster.cpp:183-236 | every task keeps: requests in flight have distinct issued versions, the newest leads to the current goal, a returning monster has its home as goal; versions never fall |
| MonsterRuns.RunKeepsFresh | GameServer/Monster/Monster.cpp:183-236 | the same after any run |
| MonsterRuns.InstalledPathIsCurrent | GameServer/Monster/Monster.cpp:209-224 | after any run an installed path belongs to the newest request and ends at the current goal (home in RETURN), never while IDLE or DEAD |
| MonsterRuns.InstalledVersionsIncrease | GameServer/Monster/Monster.cpp:192-224 | for any completion order the installed versions strictly increase |
| MonsterRuns.DeathAndRespawnVoidRequests | GameServer/Monster/Monster.h:114-140 | nothing requested before a death or a respawn is installed after it |
| MonsterRuns.HitIsInRange | GameServer/Monster/MonsterManager.cpp:222-242 | a turn that fires has a target found online within ATTACK_RANGE + 0.1 of where the monster stands |
| MonsterRuns.TimerLedger | GameServer/Monster/Monster.cpp:162-164 | the attack timer is its start plus the in-range attack time minus one cooldown per hit, never negative |
| MonsterRuns.HitsBounded | GameServer/Monster/Monster.cpp:150-170 | over every run hits are at most 1 + T / ATTACK_COOLDOWN |
| MonsterRuns.HitsExact | GameServer/Monster/Monster.cpp:150-170 | with ticks shorter than the cooldown, hits are 0 if no in-range attack turn has run and exactly 1 + floor(T / ATTACK_COOLDOWN) otherwise |
| MonsterRuns.FirstAttackTurnHits | GameServer/Monster/Monster.cpp:162-169 | from a full timer there is a hit iff an in-range attack turn has run |
| MonsterRuns.WalkDistance | GameServer/Monster/Monster.cpp:136-146 | a step turns the waypoint distance d into abs(d - MOVE_SPEED * dt) |
| MonsterRuns.WalkProgress | GameServer/Monster/Monster.cpp:136-146 | each step that does not jump over the waypoint and out of its neighbourhood lowers (waypoints left, distance steps) lexicographically |
| MonsterRuns.BetweenTurns | GameServer/Monster/Monster.cpp:202-234 | between turns a returning monster is only killed, given the one awaited path, or left as it is on its way |
| MonsterRuns.RoundBringsCloser | GameServer/Monster/Monster.cpp:125-147 | one round of a returning monster whose turn lands so: dead, home, or nearer in (path awaited, waypoints, steps) |
| MonsterRuns.Descend | GameServer/Monster/Monster.cpp:125-147 | a chain of such rounds ends: dead or idle at home |
| MonsterRuns.ReturnEndsAtHome | GameServer/Monster/Monster.cpp:125-147 | for ticks of any lengths: if every turn lands, a returning monster becomes idle exactly at its spawn point unless killed first |
| MonsterRuns.ShortStepLands | GameServer/Monster/Monster.cpp:140-146 | a step shorter than 2 * WAYPOINT_EPSILON always lands |
| Homecoming.WaypointReachedIff | GameServer/Monster/Monster.cpp:136-146 | with equal steps s a waypoint at distance d is ever reached iff, r being d modulo s, r or s - r is below WAYPOINT_EPSILON |
| Homecoming.EveryDistanceReachedIff | GameServer/Monster/Monster.cpp:140-146 | every distance is reached iff s < 2 * WAYPOINT_EPSILON |
| Homecoming.ShortStepsMakeAllLegs | GameServer/Monster/Monster.cpp:140-146 | then every path is walked to its end |
| Homecoming.SameStop | GameServer/Monster/Monster.cpp:145-146 | one step towards a waypoint that will be reached leads to the same stop, so the stops can be computed beforehand |
| Homecoming.WalkKeepsHomeBound | GameServer/Monster/Monster.cpp:133-146 | a turn keeps the verdict whether every leg of the path is reached |
| Homecoming.SparedRound | GameServer/Monster/Monster.cpp:125-147 | one round of equal ticks among hits, buffs and stale paths: home, or on the way with the same verdict |
| Homecoming.ArrivesHome | GameServer/Monster/Monster.cpp:125-147 | equal ticks of any length: a monster whose legs are all reached gets home unless killed first |
| Homecoming.HomecomingIff | GameServer/Monster/Monster.cpp:125-147 | equal ticks of any length, on the final path and never killed: it becomes idle at its spawn point iff every leg is reached |
| Homecoming.WandersForever | GameServer/Monster/Monster.cpp:125-147 | otherwise it is in RETURN after every number of ticks |
| Homecoming.StrandedForever | GameServer/Monster/MonsterManager.cpp:296-307 | concrete run from the spawn point with straight two-point paths and no tick below 100 ms: ticking every 120 ms the monster is on its way home for ever |
| MonsterRuns.StepKeepsLifeIff | GameServer/Monster/Monster.h:107-118 | DEAD iff HP 0 is kept by every task except, exactly, a buff that takes a living monster to 0 or below |
| MonsterRuns.RunKeepsLife | GameServer/Monster/Monster.h:102-140 | so with non-negative buffs DEAD iff HP 0 holds over every run |
| AdminService.BuffMonsterHp | WorldServer/AdminAPI/AdminService.cpp:20-50 | a buff of 0 or below is refused and sends nothing, any other goes to every connected game server for the ids 10000 to 100000 |
| AdminService.DeadIffNoHp | WorldServer/AdminAPI/AdminService.cpp:24-39 | with positive max HP and granted buffs, DEAD iff HP 0 after every run of a monster |
| AdminService.RefusedBuffWouldNotKill | WorldServer/AdminAPI/AdminService.cpp:24-27 | the guard is needed: the refused buff of -20 would leave a monster idle at -10 HP |
| MonsterRuns.DeadUntilRespawn | GameServer/Monster/MonsterManager.cpp:144-149 | until the turn times add up to respawn_sec a dead monster stays dead, unmoved, its timer being that sum |
| MonsterRuns.RevivesOnTime | GameServer/Monster/MonsterManager.cpp:144-151 | the first turn that reaches respawn_sec revives it at home with full HP |
| MonsterRuns.DiesAfterEnoughHits | GameServer/Monster/Monster.h:107-118 | over every run without buffs, turns and path results included: a living monster dies iff the hits add up to its HP; until then HP falls by exactly their sum |
| MonsterRuns.LifeLedger | GameServer/Monster/Monster.h:102-118 | over every run a living monster has its HP plus all buffs minus all damage |
| MonsterTurns.IdleTurn | GameServer/Monster/MonsterManager.cpp:176-196 | without a candidate nothing happens; with one it becomes target and goal, the hunt starts, and a path is asked for |
| MonsterTurns.ChaseTurn | GameServer/Monster/Monster.cpp:99-122 | a followed chase: ATTACK if the waypoint is in range, otherwise a step that leaves abs(d - MOVE_SPEED * dt); the goal moves exactly beyond the tolerance |
| MonsterTurns.LostTurn | GameServer/Monster/Monster.cpp:79-96 | a hunter that lost its target heads for its spawn point with a new request; an attacker forgets the target |
| MonsterTurns.ReturnTurn | GameServer/Monster/Monster.cpp:125-147 | a returning monster walks, and is idle at its spawn point once no waypoint is left |
| MonsterTurns.AttackTurn | GameServer/Monster/Monster.cpp:150-170 | an attacker stays in place; goal in range: it attacks, and fires iff the timer is full; otherwise it chases again with a new request |
| MonsterTurns.PathTaken | GameServer/Monster/Monster.cpp:209-232 | a result replaces the path iff it is the newest, the monster lives, and its state is that of the request or CHASE went on to ATTACK; the path stays otherwise |
| MonsterTurns.CloseHolds | GameServer/Monster/Monster.cpp:65-76 | a target within ATTACK_RANGE minus the tolerance keeps the goal in range whatever the goal was |
| MonsterTurns.StandsAndAttacks | GameServer/Monster/Monster.cpp:150-170 | an attacker whose goal stays in range attacks in every turn, the same player, from the same place |
| MonsterTurns.AttackerStrikes | GameServer/Monster/Monster.cpp:162-169 | it strikes once its turns fill the cooldown, and with ticks below the cooldown exactly floor((timer + T) / ATTACK_COOLDOWN) times |
| MonsterTurns.ChaserStrikes | GameServer/Monster/Monster.cpp:109-169 | a chaser whose waypoint is in range attacks from this turn on, and strikes a target that stays near for a cooldown |
| MonsterTurns.StallsForever | GameServer/Monster/Monster.cpp:109-160 | a hunter whose waypoint is in range while its goal is not turns between CHASE and ATTACK: it never moves and never strikes while paths begin with such a leg |
| MonsterTurns.StandingTargetIsHitIff | GameServer/Monster/Monster.cpp:109-170 | so a target that stands before an attacker is struck within a cooldown iff the goal that follows it is in range; being in range itself does not decide |
| MonsterTurns.PlayerInRangeIsNeverHit | GameServer/Monster/Monster.cpp:65-170 | concrete run from a new monster: a player who stands at distance 0.5 is never struck |
| MonsterTurns.LastLegTurn | GameServer/Monster/Monster.cpp:99-122 | on the last leg to a standing target each turn starts the attack, reaches the range, or comes nearer by its step |
| MonsterTurns.ChaseCatches | GameServer/Monster/Monster.cpp:99-122 | so the chase ends in ATTACK with the goal in range, after the distance over the step and one more turn |
| MonsterTurns.StandingTargetIsStruck | GameServer/Monster/Monster.cpp:99-170 | and a cooldown later the target has been struck |
| MonsterTurns.SeenPlayerIsStruck | GameServer/Monster/MonsterManager.cpp:176-242 | from idle, with straight paths and ticks of 100 to 500 ms: a player seen in aggro range who stands still is struck within five ticks and a cooldown |
| MonsterSectors.StepKeepsLocatedIff | GameServer/Monster/MonsterManager.cpp:245-256 | a task keeps the monster listed in exactly its sector iff it stays in its cell, or is a living monster moving by more than 0.05 on an axis between points of the map |
| MonsterSectors.AlwaysLocatedIff | GameServer/Monster/MonsterManager.cpp:144-256 | over every run the zone always knows the sector of a monster iff every task does so |
| MonsterSectors.RespawnIsNotReported | GameServer/Monster/MonsterManager.cpp:144-153 | a monster that died in another cell than its spawn point stays listed there after its respawn, and is not listed where it stands |
| MonsterSectors.SectorsOfTick | GameServer/Monster/MonsterManager.cpp:310-341 | with distinct ids, a tick lists every monster as its own turn alone does |
| GameServer.GameContext.constructor | GameServer/GameServer.h:95-126 | the context starts as the empty world over an empty zone |
| GameServer.NamedAppend | GameServer/Handlers/GatewayGame/GatewayHandlers.cpp:96-102 | the loop over uids appends exactly the known accounts |
| GameServer.EvictOneMore | GameServer/GameServer.h:143-147 | evicting accounts one after the other equals evicting them together |
| GameServer.GameContext.InitMonsters | GameServer/Monster/MonsterManager.cpp:36-131 | one fresh monster per spawn entry, as its data says, in the sector of its position if in the map, and found in the id map by the last entry with its id; players untouched |
| GameServer.GameContext.SpawnMonster | GameServer/Monster/MonsterManager.cpp:42-126 | appends one monster, maps its id to it and enters it into its sector |
| GameServer.GameContext.SpawnNext | GameServer/Monster/MonsterManager.cpp:41-131 | one step of the spawn loop |
| GameServer.GameContext.Recipients | GameServer/Handlers/GatewayGame/GatewayHandlers.cpp:95-102 | the accounts behind the first MAX_AOI_BROADCAST uids |
| GameServer.GameContext.AreaRecipients | GameServer/Handlers/GatewayGame/GatewayHandlers.cpp:88-102 | area query and recipient loop: the first accounts of the area |
| GameServer.GameContext.HandleMove | GameServer/Handlers/GatewayGame/GatewayHandlers.cpp:38-104 | clamp, admit or not, relocate; the answer goes to the area of the new position |
| GameServer.GameContext.AdmitPlayer | GameServer/Handlers/GatewayGame/GatewayHandlers.cpp:59-78 | a fresh uid and an entry in every structure |
| GameServer.GameContext.MovePlayer | GameServer/Handlers/GatewayGame/GatewayHandlers.cpp:82-86 | position and zone move together |
| GameServer.GameContext.RegisterPlayer | GameServer/GameServer.h:129-131 | adds to the set of the gateway, creating it |
| GameServer.GameContext.UnregisterPlayer | GameServer/GameServer.h:134-140 | removes from the set, dropping an empty set |
| GameServer.GameContext.RemoveOnline | GameServer/Handlers/GatewayGame/GatewayHandlers.cpp:121-138 | takes one account out of maps, zone, Redis and bot counter |
| GameServer.GameContext.HandleLeave | GameServer/Handlers/GatewayGame/GatewayHandlers.cpp:115-139 | an online account leaves everything, an offline one changes nothing |
| GameServer.GameContext.CleanupGateway | GameServer/Session/GatewaySession.cpp:114-142 | all online accounts of the gateway leave at once and its set is dropped |
| GameServer.GameContext.EvictAll | GameServer/Session/GatewaySession.cpp:118-137 | the cleanup loop, in any order, evicts exactly the listed accounts that are online |
| GameServer.GameContext.OnMonsterAttack | GameServer/Monster/MonsterManager.cpp:45-115 | the callback is the strike on players; recipients come from the area of the place hit, before any teleport |
| GameServer.GameContext.Wound | GameServer/Monster/MonsterManager.cpp:58-102 | damage, and revival at the spawn point at 0 HP |
| GameServer.GameContext.HandleChat | GameServer/Handlers/GatewayGame/GatewayHandlers.cpp:247-272 | an online sender reaches the accounts of its area, an offline one nobody |
| GameServer.GameContext.SelectTarget | GameServer/Handlers/GatewayGame/GatewayHandlers.cpp:170-191 | argmin: the chosen monster is live, in range and no farther than any other live one; none chosen iff none in range |
| GameServer.GameContext.HandleAttack | GameServer/Handlers/GatewayGame/GatewayHandlers.cpp:151-234 | the attack hits the argmin with at least MIN_DAMAGE, kills at 0 HP, changes no other monster, and tells the first accounts of the area; a miss iff nobody is in range |
| GameServer.GameContext.BuffMonsters | GameServer/Handlers/WorldGame/WorldHandlers.cpp:31-39 | exactly the living monsters of the id range gain the HP |
| GameServer.GameContext.LocateTarget | GameServer/Monster/MonsterManager.cpp:205-208 | finds the position of the uid iff it is online |
| GameServer.GameContext.SearchTarget | GameServer/Monster/MonsterManager.cpp:182-195 | picks the first listed player in aggro range, or none only if there is none |
| GameServer.GameContext.DecideTurn | GameServer/Monster/MonsterManager.cpp:321-334 | the state-specific step, with the view of the world it used |
| GameServer.GameContext.MonsterTurn | GameServer/Monster/MonsterManager.cpp:313-340 | a full turn: monster value, at most one strike on its target, sector reported when moved |
| GameServer.GameContext.NextTurn | GameServer/Monster/MonsterManager.cpp:310-341 | one more turn extends the log of the tick |
| GameServer.GameContext.OneTurn | GameServer/Monster/MonsterManager.cpp:310-341 | the next monster in order has its turn, the others are untouched |
| GameServer.GameContext.AiTick | GameServer/Monster/MonsterManager.cpp:310-341 | a tick is one turn per monster in order, each seeing the players as the turns before it left them; players change only by the strikes that fired |
| Encounters.TurnKeepsInv | GameServer/Monster/MonsterManager.cpp:313-340 | one turn keeps the world invariant and strikes only an online player in range |
| Encounters.TickKeepsInv | GameServer/Monster/MonsterManager.cpp:310-341 | through a whole tick the world invariant holds before and after every turn, and every strike is on a player online and in range at that moment |
| Encounters.TurnHitsOnlineTarget | GameServer/Monster/MonsterManager.cpp:222-242 | every attack callback names an online player within ATTACK_RANGE + 0.1 of the monster |
| Encounters.AggroSearch | GameServer/Monster/MonsterManager.cpp:176-196 | an idle monster picks only players in aggro range, never misses an in-map one, and (all players in the map) picks iff one is in range |
| Encounters.RecipientsAreOnline | GameServer/Handlers/GatewayGame/GatewayHandlers.cpp:265-270 | an account is listed as often as its uid was found, offline accounts never |
| Encounters.AreaMessageReachesBlock | GameServer/Handlers/GatewayGame/GatewayHandlers.cpp:259-270 | with exact sectors an area message goes to exactly the online accounts of the block, once each |
| Encounters.AttacksKill | GameServer/Handlers/GatewayGame/GatewayHandlers.cpp:204-234 | over every run without buffs, turns and path results included: a monster dies iff it takes ceil(hp / damage) attacks, and the hit that kills is exactly that one; damage is at least MIN_DAMAGE |
| Encounters.AttackPower | GameServer/Handlers/GatewayGame/GatewayHandlers.cpp:204-212 | with power above the defence the difference per attack wears the monster down, otherwise one point per attack |
| Encounters.LimitedRecipients | GameServer/Handlers/GatewayGame/GatewayHandlers.cpp:95-102 | a limited list is the beginning of the unlimited one: all of it within the limit, exactly the limit beyond it when all uids are known |
| Game.TickIsStrikes | GameServer/Monster/MonsterManager.cpp:310-341 | the turns of a tick are, for the players, a run of strikes |
| Game.PlayersFollowWorld | GameServer/Monster/MonsterManager.cpp:295-346 | in every run of the server the players follow a run of player tasks and strikes |
| Game.MonstersFollowRuns | GameServer/Monster/MonsterManager.cpp:295-346 | in every run of the server each monster follows a run of its turns, path results, hits and buffs |
| Game.SharesAreSound | GameServer/Monster/MonsterManager.cpp:295-346 | that run has granted buffs only, and time that flows |
| Game.ServerKeepsInv | GameServer/Monster/MonsterManager.cpp:295-346 | every run of player tasks, attacks, buffs, path results and ticks keeps the world invariant and, for every monster, the path protocol and DEAD iff HP 0 |
| Game.EveryStrikeIsInRange | GameServer/Monster/MonsterManager.cpp:222-242 | in every such run every strike of every tick is on a player online and in range at that moment |
| Hunts.LogTellsServer | GameServer/Monster/MonsterManager.cpp:295-346 | in every run of the server the players are what the log of their tasks and of the strikes says |
| Hunts.HitsAreHarm | GameServer/Monster/MonsterManager.cpp:49-65 | in every run each hit of a monster on a player costs the player at least the attack power |
| Hunts.AttackedPlayerIsHurt | GameServer/Monster/Monster.cpp:150-170 | on the running server a player near an attacking monster is hurt before the ticks last a cooldown, and once in every cooldown with shorter ticks |
| Hunts.ChasedPlayerIsHurt | GameServer/Monster/Monster.cpp:109-170 | a followed player whose chaser has its waypoint in range is attacked after the tick, and hurt once it stays near for a cooldown |
| Hunts.AttacksTakeTwenty | GameServer/Handlers/GatewayGame/GatewayHandlers.cpp:204-212 | in every run of a new server each attack of an online player takes 20 HP |
| Hunts.FifthAttackKills | GameServer/Handlers/GatewayGame/GatewayHandlers.cpp:204-234 | so a monster of 100 HP dies with the fifth attack and not before, whatever happens between |
| Crypto.BytesRoundTrip | Common/Network/PacketCrypto.cpp:139-140 | little-endian writing and reading are inverse on numbers that fit |
| Crypto.PacketCrypto.Encrypt | Common/Network/PacketCrypto.cpp:103-165 | an empty payload fails and uses no number; others are sealed and the counter steps modulo 2^32 |
| Crypto.PacketCrypto.ValidateSequence | Common/Network/PacketCrypto.cpp:233-254 | the method is the window predicate |
| Crypto.PacketCrypto.Decrypt | Common/Network/PacketCrypto.cpp:167-231 | opens or rejects; the last number changes only on success |
| Crypto.ForwardWindow | Common/Network/PacketCrypto.cpp:233-254 | exactly which forward distances modulo 2^32 are accepted: 1..1000, and across the wrap all but the last 99 |
| Crypto.BackwardWindow | Common/Network/PacketCrypto.cpp:239-243 | the last number and the 99 before it are rejected from every state, except 0 after 0 |
| Crypto.SealOpens | Common/Network/PacketCrypto.cpp:103-231 | a sealed payload opens to its plaintext iff its number passes the window; its length is 20 + 16 * (n / 16 + 1) |
| Crypto.ReplayOpensIff | Common/Network/PacketCrypto.cpp:180-186 | a payload once opened opens again, after any others, iff the last number is then at least 100 ahead, or up to 1000 behind, or both are 0 |
| Crypto.ReplayInStreamIff | Common/Network/PacketCrypto.cpp:233-254 | in the stream of one sender, after k more payloads, k modulo 2^32: iff k >= 100 before the wrap, or k >= 2^32 - 1000 after it, or all is 0 |
| Crypto.OldPayloadOpensAgain | Common/Network/PacketCrypto.cpp:239-246 | concrete replay: a payload with number 300 opens after 299 and again after 500 |
| Crypto.OnwardOpens | Common/Network/PacketCrypto.cpp:103-231 | payloads sealed with consecutive numbers open in turn, across the wrap |
| WireFormat.DigitAt | Common/Network/PacketCrypto.cpp:139-140 | the i-th byte of a number is its i-th digit to the base 256, lowest first |
| WireFormat.SealLayout | Common/Network/PacketCrypto.cpp:131-160 | a sealed payload is four bytes of number, sixteen of vector, and the ciphertext under that vector |
| RateLimiter.PacketRateLimiter.constructor | Common/PacketDispatcher.h:39-40 | the first window starts with the session |
| RateLimiter.PacketRateLimiter.AllowPacket | Common/PacketDispatcher.h:43-60 | counts and decides as the window says |
| RateLimiter.WindowsBound | Common/PacketDispatcher.h:43-60 | from any state the allowed packets are at most the room left plus 200 per full second |
| RateLimiter.FirstSeconds | Common/PacketDispatcher.h:39-60 | at most 200 * (floor(T) + 1) packets are allowed up to time T |
| RateLimiter.AnySecond | Common/PacketDispatcher.h:43-60 | at most 400 in any half-open second |
| RateLimiter.SlowSendersAreAllowed | Common/PacketDispatcher.h:43-60 | a new window allows every trace with at most 200 packets in any half-open second |
| ClientStream.LargestPayload | GatewayServer/Session/ClientSession.cpp:181 | a frame fits the receiver iff the payload has at most 4063 bytes encrypted, 4092 plain |
| ClientStream.SendPacket | DummyClient/Network/PacketUtils.cpp:16-46 | writes the frame of the sealed payload, plain when there is no key or nothing to encrypt |
| WireFormat.FrameLayout | DummyClient/Network/PacketUtils.cpp:16-46 | a frame is two bytes of total size, two of id, lowest first, and the body |
| ClientStream.ClientSession.constructor | GatewayServer/Session/ClientSession.cpp:175-179 | a session starts reading with a fresh limiter and no encryption |
| ClientStream.ClientSession.HandleHeader | GatewayServer/Session/ClientSession.cpp:188-221 | a header counts against the limit; the fifth drop in a row ends reading |
| ClientStream.ClientSession.HandleBody | GatewayServer/Session/ClientSession.cpp:223-311 | handler lookup, decryption, dispatch |
| ClientStream.ClientSession.HandleFrame | GatewayServer/Session/ClientSession.cpp:188-311 | limit, look up, decrypt, dispatch, in that order |
| ClientStream.ClientSession.ReadStream | GatewayServer/Session/ClientSession.cpp:175-320 | the loop of reads computes the receiver function on the whole byte stream, a header counting before its payload is there |
| ClientStream.ParseFrame | GatewayServer/Session/ClientSession.cpp:175-202 | a stream that starts with a frame loses exactly that frame |
| ClientStream.FrameKeepsSync | GatewayServer/Session/ClientSession.cpp:188-311 | one frame keeps receiver and abstract link in step if its number passes the window; otherwise the receiver stops without delivering it |
| ClientStream.StreamRefinesLinkIff | GatewayServer/Session/ClientSession.cpp:175-320 | the byte stream delivers exactly what a link of whole packets delivers iff every number that gets as far as decryption is inside the window, under any drops, across the 2^32 wrap |
| ClientStream.WithinWindowPasses | GatewayServer/Session/ClientSession.cpp:292-304 | up to 999 skipped numbers are always inside the window |
| ClientStream.StreamRefinesLink | GatewayServer/Session/ClientSession.cpp:175-320 | so it does while no decryption comes after more than 999 skipped numbers |
| ClientStream.RoundTrip | GatewayServer/Session/ClientSession.cpp:247-310 | any list of packets within the rate limit comes out as the ids and payloads sent, in order |
| ClientStream.RoundTripBelowLimit | GatewayServer/Session/ClientSession.cpp:188-310 | in particular for at most 200 packets in any half-open second |
| ClientStream.GapPerWindow | GatewayServer/Session/ClientSession.cpp:189-221 | whatever is sent to registered handlers and whenever, drops skip at most four numbers per limiter window since the last decryption |
| ClientStream.DropsKeepWindow | GatewayServer/Session/ClientSession.cpp:189-221 | a sender that never sends 200 empty packets in a row keeps the gap within four |
| ClientStream.RateDropsAreHarmless | GatewayServer/Session/ClientSession.cpp:189-221 | for such a sender and any arrival times rate drops never break a later decryption; reading ends only after 5 drops in a row |
| ClientStream.BurstsGrowGap | GatewayServer/Session/ClientSession.cpp:189-221 | n windows of 200 empty and 4 dropped packets skip 4 * n numbers while the session goes on reading |
| ClientStream.BurstsBreakStream | GatewayServer/Session/ClientSession.cpp:189-304 | after 250 of them the next packet is allowed, but refused by the window, and the session stops |
| ClientStream.PassesIff | GatewayServer/Session/ClientSession.cpp:189-304 | exactly which gaps break the stream, for a receiver that has opened a payload and for one that has not |
| ClientStream.GapBreaksStreamIff | GatewayServer/Session/ClientSession.cpp:292-304 | an encrypted frame that skipped `gap` numbers is refused exactly outside the stated window |
| ClientStream.HeadersPerWindow | GatewayServer/Session/ClientSession.cpp:188-221 | whatever bytes arrive, a session still reading has taken at most 204 headers in its window |
| WireFormat.BadSizeStops | GatewayServer/Session/ClientSession.cpp:175-186 | a size below 4 or above 4096 ends reading at once, nothing counted or delivered |
| WireFormat.OnlyHandledAreDelivered | GatewayServer/Session/ClientSession.cpp:223-311 | whatever bytes arrive, only packets with a handler are delivered, at most one for each header |
| WireFormat.ForgeryStops | GatewayServer/Session/ClientSession.cpp:292-304 | a body that does not decrypt ends reading; nothing is delivered, the last number stays |
| SendQueue.SessionWriter.Send | GameServer/Session/GatewaySession.cpp:51-68 | queues or drops, and starts a write iff none is running |
| SendQueue.SessionWriter.OnWritten | GameServer/Session/GatewaySession.cpp:79-94 | completion pops and goes on; an error clears the queue |
| SendQueue.RunKeepsSound | GameServer/Session/GatewaySession.cpp:51-95 | over every run one write is in flight iff the queue is non-empty, it is its front, and the queue is at most SEND_QUEUE_MAX_SIZE + 1 long |
| SendQueue.WireIsAcceptedInOrder | GatewayServer/Session/ClientSession.cpp:106-143 | until a write error, written ++ waiting is the accepted posts in order |
| SendQueue.ErrorGivesUpWaiting | GameServer/Session/GatewaySession.cpp:79-94 | a write error gives up exactly what waits; what is accepted later is written or waits, in order |
| SendQueue.CompletionsDrain | GameServer/Session/GatewaySession.cpp:70-94 | each completion puts the front message on the wire, and as many as wait empty the queue |
| SendQueue.DropIff | GatewayServer/Session/ClientSession.cpp:107-110 | a post is dropped exactly when SEND_QUEUE_MAX_SIZE + 1 accepted ones are not written yet |
| SendQueue.NoStopNoEmptyPop | StressTestTool/Session/StressSession.cpp:277-309 | without a stop, a bot session never takes the front of an empty queue |
| SendQueue.StopPopsEmptyIff | StressTestTool/Session/StressSession.cpp:43-309 | a stop and then the completion of the write under way pop an empty queue iff that write completes without an error |
| SendQueue.StrayLedger | StressTestTool/Session/StressSession.cpp:43-309 | over every run: writes astray, pops of an empty queue and failed writes add up to the stops that cleared a non-empty queue |
| SendQueue.NeverPopsEmptyIff | StressTestTool/Session/StressSession.cpp:43-309 | a session that is done never popped an empty queue iff as many writes failed as stops cleared a non-empty queue |
| BotAllocator.BotNumberOfName | StressTestTool/Manager/StressManager.cpp:27 | an id tells its number, so ids never repeat |
| BotAllocator.StressManager.AcquireBotId | StressTestTool/Manager/StressManager.cpp:21-28 | the oldest returned id, or the next new one |
| BotAllocator.StressManager.Spawn | StressTestTool/Manager/StressManager.cpp:40-49 | spawns min(rate, target - spawned) sessions, none if that is negative |
| BotAllocator.StressManager.OnSessionDisconnected | StressTestTool/Manager/StressManager.cpp:70-85 | returns a non-empty id, forgets the session |
| BotAllocator.SpawnManyKeepsSound | StressTestTool/Manager/StressManager.cpp:95-118 | spawn rounds keep ids distinct, made, counted and within the target |
| BotAllocator.SpawnsInOrder | StressTestTool/Manager/StressManager.cpp:21-49 | new sessions get the returned ids in the order they came back, then new ids in order |
| BotAllocator.LiveSessionsStay | StressTestTool/Manager/StressManager.cpp:40-49 | a live session keeps its id through spawning |
| BotAllocator.RoundsFillUp | StressTestTool/Manager/StressManager.cpp:95-118 | n rounds with nobody leaving end at min(target, spawned + n * rate) |
| BotAllocator.FullIsIdle | StressTestTool/Manager/StressManager.cpp:95-118 | at or above the target a round does nothing |
| BotAllocator.DisconnectKeepsSoundIff | StressTestTool/Manager/StressManager.cpp:70-85 | a report keeps the allocator sound iff its session was live |
| BotAllocator.SoundIdsAreExact | StressTestTool/Manager/StressManager.cpp:21-28 | in a sound pool the ids in use are exactly the first n |
| BotAllocator.RunExcess | StressTestTool/Manager/StressManager.cpp:21-118 | ids in use exceed ids made by exactly the number of repeated reports |
| BotAllocator.BotIdsAreConservedIff | StressTestTool/Manager/StressManager.cpp:21-118 | after every interleaving: live and queued ids are disjoint, duplicate-free, together exactly BOT_STRESS_0..n-1 with n within the target and the counter right, if and only if no session reported twice |
| BotAllocator.DoubleReportSharesId | StressTestTool/Manager/StressManager.cpp:21-118 | concrete run: with a target of one, a session that reports twice is replaced by two live sessions with one id, the counter seeing one |
| StressSession.ReportLedger | StressTestTool/Session/StressSession.cpp:25-108 | reports of a session are paid for by its start and by connects that complete after a stop |
| StressSession.ReportsOnceIff | StressTestTool/Session/StressSession.cpp:25-92 | a stopped session reported exactly once iff no connect completed after a stop |
| StressSession.InGameIff | StressTestTool/Session/StressSession.cpp:47-198 | a session is in the game iff its last connect was to the gateway and has been welcomed, with no stop since |
| StressSession.TraceTellsState | StressTestTool/Session/StressSession.cpp:47-198 | connects, reads, writes and stops, each completing when it may, change the state as their trace of tasks says |
| StressSession.OrderlyIsNeverLate | StressTestTool/Session/StressSession.cpp:73-139 | while no write fails before the gateway connect is handled, nothing can stop a session that has a connect outstanding, so no connect is late |
| StressSession.ReportsOnceUnlessWriteFails | StressTestTool/Session/StressSession.cpp:25-198 | unless a write fails before the gateway connect is handled, a session reports exactly once when it has stopped in the end, failed in-game writes included |
| StressSession.FailedWriteReportsTwice | StressTestTool/Session/StressSession.cpp:172-305 | concrete completions: a login write fails at the close for the gateway, the connect was already finished, and the session reports twice |
| TokenRelay.TokenStore.CleanExpired | WorldServer/WorldServer.h:66-78 | exactly the entries expired before now go |
| TokenRelay.PendingTokens.VerifyAndConsumeToken | GatewayServer/GatewayServer.h:53-72 | accepts iff pending, unexpired and equal, consuming it; an expired entry goes, a wrong token leaves it |
| Links.Broadcast | GameServer/Handlers/WorldGame/WorldHandlers.cpp:59-61 | one copy to every connected peer, in order |
| TokenRelay.IssueToken | WorldServer/Handlers/WorldHandlers.cpp:29-50 | stores the token and sends every game server its expiry, now + 300000 |
| TokenRelay.StepKeepsOrder | WorldServer/Handlers/WorldHandlers.cpp:44-50 | under losses notices stay a subsequence of the issues, in order |
| TokenRelay.StepKeepsInv | GatewayServer/GatewayServer.h:53-78 | every event keeps: the gateway holds the last delivered notice of an account until it is spent or stale, and every admission took such a notice of its own |
| TokenRelay.ConnectIsAdmittedIff | GatewayServer/GatewayServer.h:53-72 | on every run a connect is admitted iff the last notice delivered for its account carries its token, was never used and has not expired |
| TokenRelay.AdmissionIsRightful | GatewayServer/GatewayServer.h:53-78 | an admission used a token issued to its account at most 300000 ms ago, the newest delivered |
| TokenRelay.TokensAreOneTime | WorldServer/Handlers/WorldHandlers.cpp:29-61 | on every run of the relay each distinct token admits at most once, only for its account, in time, never after a newer one was delivered |
| TokenRelay.CheckOutcome | GatewayServer/GatewayServer.h:53-72 | a check removes an expired entry and a matching one of its account, keeps a live one from a wrong token, and touches no other account |
| TokenRelay.CleanOutcome | WorldServer/WorldServer.h:66-78 | a cleaning keeps exactly the entries whose time is not over |
| TokenRelay.FreshTokenIsAdmitted | GatewayServer/GatewayServer.h:53-78 | after any run a fresh login gets in once its notice has arrived behind those before it |
| TokenRelay.EveryTokenArrives | WorldServer/Handlers/WorldHandlers.cpp:29-61 | without losses the gateway is told of every issued token, with its expiry, in the order of issue |
| Geometry.TowardDistance | GameServer/Monster/Monster.cpp:136-146 | a step of length s towards a point at distance d leaves abs(d - s) |
| Geometry.Triangle | GameServer/Monster/Monster.cpp:65-69 | the planar distance obeys the triangle inequality |

## Left out

- Square root: `std::sqrt` is a parameter, used only as the non-negative root; floats are reals, so rounding is not modelled.
- Path finding: the waypoints of a finished request are arbitrary, so what is proved of every run covers every behaviour of the Detour library; the concrete run of `StrandedForever` uses the straight paths of GameServer/PathFinder/PathFinder.cpp:108-132 and 176-205.
- `navmesh_` null check (GameServer/Monster/Monster.cpp:184): the only place that creates monsters passes the navigation mesh.
- Sector and PlayerInfo: values owned by their grid slot and map entry; the source shares them by pointer but never keeps two owners.
- Zone: the capacity estimate before the query loop only reserves memory; player and monster functions are one function with a kind.
- Attack callback: the tick returns a flag and the caller strikes, since the call is the last action of the update.
- MonsterTurns.CloseHolds: asks for a target nearer than the attack range by the tolerance of 0.1, since a target merely in range need not be struck (`PlayerInRangeIsNeverHit`).
- A monster listed in a wrong sector: how long a stale entry stays is not stated beyond `StepKeepsLocatedIff`.
- Chase over several corners: a positive result is stated for the last leg only, since a waypoint in range ends the chase anywhere (`StallsForever`).
- Monster movement broadcasts, respawn notices and their timers, logging, and message fields other than recipients.
- Strands, mutexes and atomics: every task and locked section is one step; Redis is always reachable.
- Attack, chat and malformed packets of a gateway session: they do not change player state and appear as quiet reads.
- Counters of 64 bits (uids, path versions) are unbounded; 32-bit sequence numbers and 16-bit frame fields are not.
- AES, hashing, random vectors and key handling: an abstract cipher that decrypts what it encrypted; failures of the crypto library are not modelled.
- ClientStream.SendPacket: does not model payloads of 64 KiB and more, whose size the source cuts to 16 bits.
- Client stream from gateway to client: the server drops empty messages when encrypting and the bot falls back to plain text; only the other direction is modelled.
- ClientStream.ClientSession.ReadStream: what a dispatched handler does is not modelled, except that switching encryption on is a method.
- ValidatePayloadSize of the packet assembler: always true once the header bounds hold; PacketAssembler is not part of this model.
- SendQueue.WireIsAcceptedInOrder: stated up to the first write error, after which the source clears the queue; `ErrorGivesUpWaiting` goes on from there.
- The send queue of a bot session is modelled on values, up to the first pop of an empty queue, whose effect C++ leaves undefined; later steps count it as no change.
- Reconnecting connections between servers: a retry clears their queue while a write may be in flight, so no order is claimed for them.
- Gateway `clientMap` and login server bookkeeping: erased by account id only, so no ownership invariant holds in general.
- TokenRelay.TokensAreOneTime: about one gateway; every gateway receives its own copy of a token, so two gateways may each admit it once. The clock is shared and does not go back.
- Stress tool metrics and bot behaviour, configuration, data loading, databases, gRPC, console clients.
