/** The monster buff of the administration interface: WorldServer/AdminAPI/AdminService.cpp:16-50,
    the only sender of the order that GameServer/Handlers/WorldGame/WorldHandlers.cpp:11-41 carries
    out.  The game server does not check the order again.
 */
module AdminService {
  import opened Geometry
  import opened Links
  import opened MonsterAI
  import opened MonsterRuns
  import opened Wrappers

  const MIN_MON_ID := 10000
  const MAX_MON_ID := 100000

  datatype BuffOrder = BuffOrder(minId: nat, maxId: nat, add: int)

  /** The guard. */
  predicate Granted(add: int) {
    0 < add
  }

  /** A request that is not granted sends nothing. */
  method BuffMonsterHp(sessions: seq<Option<seq<BuffOrder>>>, add: int)
      returns (ok: bool, sent: seq<Option<seq<BuffOrder>>>)
    ensures ok <==> Granted(add)
    ensures !ok ==> sent == sessions
    ensures ok ==>
              && |sent| == |sessions|
              && forall i :: 0 <= i < |sessions| && sessions[i].Some? ==>
                   sent[i] == Some(sessions[i].value + [BuffOrder(MIN_MON_ID, MAX_MON_ID, add)])
  {
    if add <= 0 {
      return false, sessions;
    }
    sent := Broadcast(sessions, BuffOrder(MIN_MON_ID, MAX_MON_ID, add));
    ok := true;
  }

  ghost predicate AllGranted(events: seq<Event>) {
    forall i :: 0 <= i < |events| && events[i].Buffed? ==> Granted(events[i].add)
  }

  /** With positive max HP and the buffs that are granted, a monster is dead exactly at 0 HP, after
      every run of its life. */
  lemma DeadIffNoHp(sqrt: real -> real, spawn: Vec3, maxHp: int, respawnSec: int, events: seq<Event>)
    requires 0 < maxHp && AllGranted(events)
    ensures var m := Run(sqrt, Newborn(spawn, maxHp, respawnSec), events);
            LifeInv(m) && 0 <= m.hp && (m.state == DEAD <==> m.hp == 0)
  {
    RunKeepsLife(sqrt, Newborn(spawn, maxHp, respawnSec), events);
  }

  /** The guard is needed: the order it refuses would leave a monster idle at -10 HP. */
  lemma RefusedBuffWouldNotKill(sqrt: real -> real, spawn: Vec3)
    ensures !Granted(-20)
    ensures var m := Step(sqrt, Newborn(spawn, 10, 60), Buffed(-20));
            m.hp == -10 && m.state == IDLE && !LifeInv(m)
  {
  }
}
