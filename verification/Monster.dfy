/** The monster: GameServer/Monster/Monster.h, GameServer/Monster/Monster.cpp and the per-monster
    part of the AI tick in GameServer/Monster/MonsterManager.cpp:144-242.

    `Mon` is the abstract value of a monster and the functions below say what each operation
    does to it; class `Monster` implements them on its fields.  `std::sqrt` and the path
    finder are foreign: the square root is a parameter, and the waypoints of a finished path
    request arrive as an argument.
 */
module MonsterAI {
  import opened Wrappers
  import opened Geometry

  const DEFAULT_HP := 100
  const DEFAULT_ATK := 15
  const DEFAULT_DEF := 10
  const MOVE_SPEED := 2.0
  const ATTACK_RANGE := 0.5
  const ATTACK_COOLDOWN := 2.0
  const CHASE_RANGE := 3.0
  const WAYPOINT_EPSILON := 0.1
  const RETARGET_EPSILON := 0.1
  const DEFAULT_RESPAWN_SEC := 60

  datatype MonsterState = IDLE | CHASE | ATTACK | RETURN | DEAD

  /** A path request posted to the thread pool, with what its callback captured. */
  datatype Request = Request(version: nat, start: Vec3, end: Vec3, state: MonsterState)

  datatype Mon = Mon(
    position: Vec3, spawn: Vec3, state: MonsterState,
    target: nat, goal: Vec3,
    path: seq<Vec3>, index: nat,
    version: nat, pending: set<Request>,
    hp: int, maxHp: int,
    attackTimer: real, respawnSec: int, deadTimer: real)

  // ---- Targets and path requests ----

  /** Posts a new path request for the current goal; older requests become stale. */
  function CalculatePath(m: Mon): Mon {
    m.(version := m.version + 1,
       pending := m.pending + {Request(m.version + 1, m.position, m.goal, m.state)})
  }

  function SetTarget(m: Mon, uid: nat, pos: Vec3): Mon {
    CalculatePath(m.(target := uid, goal := pos, state := CHASE))
  }

  function UpdateTargetPosition(sqrt: real -> real, m: Mon, pos: Vec3): Mon {
    if Dist(sqrt, m.goal, pos) > RETARGET_EPSILON then CalculatePath(m.(goal := pos)) else m
  }

  function GiveUpChase(m: Mon): Mon {
    if m.state == CHASE then CalculatePath(m.(state := RETURN, goal := m.spawn)) else m
  }

  function GiveUpAttack(m: Mon): Mon {
    CalculatePath(m.(state := RETURN, target := 0, goal := m.spawn))
  }

  /** A finished request may replace the path only if it is the newest one and the monster
      is still in the state of the request (or went on from CHASE to ATTACK). */
  predicate Installs(m: Mon, r: Request) {
    m.version == r.version && m.state != DEAD && (r.state == m.state || (r.state == CHASE && m.state == ATTACK))
  }

  function PathResult(sqrt: real -> real, m: Mon, r: Request, waypoints: seq<Vec3>): Mon {
    var done := m.(pending := m.pending - {r});
    if Installs(m, r) then
      done.(path := waypoints,
            index := if |waypoints| > 1 && Dist(sqrt, waypoints[0], m.position) < WAYPOINT_EPSILON then 1 else 0)
    else
      done
  }

  // ---- Life and death ----

  function TakeDamage(m: Mon, damage: int): Mon {
    m.(hp := if m.hp - damage < 0 then 0 else m.hp - damage)
  }

  function Die(m: Mon): Mon {
    m.(hp := 0, state := DEAD, version := m.version + 1)
  }

  function Respawn(m: Mon): Mon {
    m.(hp := m.maxHp, state := IDLE, position := m.spawn, deadTimer := 0.0, target := 0,
       version := m.version + 1, path := [])
  }

  // ---- Update ----

  predicate PathFinished(m: Mon) {
    m.path == [] || m.index >= |m.path|
  }

  function Walk(sqrt: real -> real, m: Mon, dt: real): Mon
    requires !PathFinished(m)
  {
    var w := m.path[m.index];
    var d := Dist(sqrt, w, m.position);
    if d < WAYPOINT_EPSILON then m.(index := m.index + 1)
    else m.(position := Toward(m.position, w, d, MOVE_SPEED * dt))
  }

  function UpdateChase(sqrt: real -> real, m: Mon, dt: real): Mon {
    if PathFinished(m) then m
    else if Dist(sqrt, m.path[m.index], m.position) <= ATTACK_RANGE then m.(state := ATTACK)
    else Walk(sqrt, m, dt)
  }

  function UpdateReturn(sqrt: real -> real, m: Mon, dt: real): Mon {
    if PathFinished(m) then m.(position := m.spawn, state := IDLE)
    else Walk(sqrt, m, dt)
  }

  predicate InReach(sqrt: real -> real, m: Mon) {
    Dist(sqrt, m.goal, m.position) <= ATTACK_RANGE
  }

  function UpdateAttack(sqrt: real -> real, m: Mon, dt: real): Mon {
    if !InReach(sqrt, m) then CalculatePath(m.(state := CHASE))
    else
      var timer := m.attackTimer + dt;
      m.(attackTimer := if timer >= ATTACK_COOLDOWN then timer - ATTACK_COOLDOWN else timer)
  }

  function Update(sqrt: real -> real, m: Mon, dt: real): Mon {
    match m.state
    case CHASE => UpdateChase(sqrt, m, dt)
    case RETURN => UpdateReturn(sqrt, m, dt)
    case ATTACK => UpdateAttack(sqrt, m, dt)
    case _ => m
  }

  /** The update calls the attack callback. */
  predicate Fires(sqrt: real -> real, m: Mon, dt: real) {
    m.state == ATTACK && InReach(sqrt, m) && m.attackTimer + dt >= ATTACK_COOLDOWN
  }

  // ---- One monster's turn in an AI tick ----

  /** What the turn reads from the world: the player an idle monster picks, and the position
      of the current target if it is online. */
  datatype View = View(candidate: Option<(nat, Vec3)>, whereabouts: Option<Vec3>)

  predicate Followed(sqrt: real -> real, m: Mon, view: View) {
    view.whereabouts.Some? && Dist(sqrt, view.whereabouts.value, m.position) <= CHASE_RANGE
  }

  /** The state-specific step before the update. */
  function Decide(sqrt: real -> real, m: Mon, view: View): Mon {
    match m.state
    case IDLE => if view.candidate.Some? then SetTarget(m, view.candidate.value.0, view.candidate.value.1) else m
    case CHASE =>
      if Followed(sqrt, m, view) then UpdateTargetPosition(sqrt, m, view.whereabouts.value) else GiveUpChase(m)
    case ATTACK =>
      if Followed(sqrt, m, view) then UpdateTargetPosition(sqrt, m, view.whereabouts.value) else GiveUpAttack(m)
    case _ => m
  }

  function Rest(m: Mon, dt: real): Mon {
    var later := m.(deadTimer := m.deadTimer + dt);
    if later.deadTimer < m.respawnSec as real then later else Respawn(later)
  }

  function Turn(sqrt: real -> real, m: Mon, dt: real, view: View): Mon {
    if m.state == DEAD then Rest(m, dt) else Update(sqrt, Decide(sqrt, m, view), dt)
  }

  predicate TurnFires(sqrt: real -> real, m: Mon, dt: real, view: View) {
    m.state != DEAD && Fires(sqrt, Decide(sqrt, m, view), dt)
  }

  function Newborn(spawn: Vec3, maxHp: int, respawnSec: int): Mon {
    Mon(spawn, spawn, IDLE, 0, Vec3(0.0, 0.0, 0.0), [], 0, 0, {}, maxHp, maxHp, ATTACK_COOLDOWN, respawnSec, 0.0)
  }

  // ---- The object ----

  class Monster {
    const id: nat
    const sqrt: real -> real
    const attackPower := DEFAULT_ATK
    const defensePower := DEFAULT_DEF
    var position: Vec3
    var spawnPosition: Vec3
    var state: MonsterState
    var targetUserId: nat
    var targetLastPos: Vec3
    var currentPath: seq<Vec3>
    var pathIndex: nat
    var pathRequestVersion: nat
    var pendingRequests: set<Request>
    var hp: int
    var maxHp: int
    var attackTimer: real
    var respawnSec: int
    var deadTimer: real

    ghost function Value(): Mon
      reads this
    {
      Mon(position, spawnPosition, state, targetUserId, targetLastPos, currentPath, pathIndex,
          pathRequestVersion, pendingRequests, hp, maxHp, attackTimer, respawnSec, deadTimer)
    }

    constructor (id: nat, sqrt: real -> real)
      ensures this.id == id && this.sqrt == sqrt
      ensures Value() == Newborn(Vec3(0.0, 0.0, 0.0), DEFAULT_HP, DEFAULT_RESPAWN_SEC)
    {
      this.id, this.sqrt := id, sqrt;
      position, spawnPosition, targetLastPos := Vec3(0.0, 0.0, 0.0), Vec3(0.0, 0.0, 0.0), Vec3(0.0, 0.0, 0.0);
      state, targetUserId, currentPath, pathIndex := IDLE, 0, [], 0;
      pathRequestVersion, pendingRequests := 0, {};
      hp, maxHp, attackTimer := DEFAULT_HP, DEFAULT_HP, ATTACK_COOLDOWN;
      respawnSec, deadTimer := DEFAULT_RESPAWN_SEC, 0.0;
    }

    /** The setters run on a fresh monster at server start. */
    method Settle(x: real, y: real, maxHp: int, respawnSec: int)
      modifies this
      ensures Value() == old(Value()).(position := Vec3(x, y, 0.0), spawn := Vec3(x, y, 0.0),
                                       hp := maxHp, maxHp := maxHp, respawnSec := respawnSec)
    {
      this.maxHp, hp, this.respawnSec := maxHp, maxHp, respawnSec;
      position, spawnPosition := Vec3(x, y, 0.0), Vec3(x, y, 0.0);
    }

    method RequestPath()
      modifies this
      ensures Value() == CalculatePath(old(Value()))
    {
      pathRequestVersion := pathRequestVersion + 1;
      pendingRequests := pendingRequests + {Request(pathRequestVersion, position, targetLastPos, state)};
    }

    method Aim(uid: nat, pos: Vec3)
      modifies this
      ensures Value() == SetTarget(old(Value()), uid, pos)
    {
      targetUserId := uid;
      targetLastPos := pos;
      if state != CHASE {
        state := CHASE;
      }
      RequestPath();
    }

    method Follow(pos: Vec3)
      modifies this
      ensures Value() == UpdateTargetPosition(sqrt, old(Value()), pos)
    {
      if Dist(sqrt, targetLastPos, pos) > RETARGET_EPSILON {
        targetLastPos := pos;
        RequestPath();
      }
    }

    method LoseChase()
      modifies this
      ensures Value() == GiveUpChase(old(Value()))
    {
      if state == CHASE {
        state := RETURN;
        targetLastPos := spawnPosition;
        RequestPath();
      }
    }

    method LoseAttack()
      modifies this
      ensures Value() == GiveUpAttack(old(Value()))
    {
      state := RETURN;
      targetUserId := 0;
      targetLastPos := spawnPosition;
      RequestPath();
    }

    /** The strand callback of a finished path request. */
    method OnPathResult(r: Request, waypoints: seq<Vec3>)
      modifies this
      ensures Value() == PathResult(sqrt, old(Value()), r, waypoints)
    {
      pendingRequests := pendingRequests - {r};
      if pathRequestVersion != r.version {
        return;
      }
      if state == DEAD {
        return;
      }
      if r.state != state && !(r.state == CHASE && state == ATTACK) {
        return;
      }
      currentPath := waypoints;
      pathIndex := 0;
      if |currentPath| > 1 {
        if Dist(sqrt, currentPath[0], position) < WAYPOINT_EPSILON {
          pathIndex := 1;
        }
      }
    }

    /** Moves one step along the path, or goes on to the next waypoint. */
    method Advance(dt: real)
      requires !PathFinished(Value())
      modifies this
      ensures Value() == Walk(sqrt, old(Value()), dt)
    {
      var next := currentPath[pathIndex];
      var distance := Dist(sqrt, next, position);
      if distance < WAYPOINT_EPSILON {
        pathIndex := pathIndex + 1;
        return;
      }
      position := Toward(position, next, distance, MOVE_SPEED * dt);
    }

    /** Runs the update of the current state; `fired` stands for the attack callback, which is
        the last thing the source's update does. */
    method Tick(dt: real) returns (fired: bool)
      modifies this
      ensures Value() == Update(sqrt, old(Value()), dt)
      ensures fired == Fires(sqrt, old(Value()), dt)
    {
      fired := false;
      match state {
        case CHASE =>
          if currentPath == [] || pathIndex >= |currentPath| {
            return;
          }
          if Dist(sqrt, currentPath[pathIndex], position) <= ATTACK_RANGE {
            state := ATTACK;
            return;
          }
          Advance(dt);
        case RETURN =>
          if currentPath == [] || pathIndex >= |currentPath| {
            position := spawnPosition;
            state := IDLE;
            return;
          }
          Advance(dt);
        case ATTACK =>
          if Dist(sqrt, targetLastPos, position) > ATTACK_RANGE {
            state := CHASE;
            RequestPath();
            return;
          }
          attackTimer := attackTimer + dt;
          if attackTimer >= ATTACK_COOLDOWN {
            attackTimer := attackTimer - ATTACK_COOLDOWN;
            fired := true;
          }
        case IDLE =>
        case DEAD =>
      }
    }

    method Suffer(damage: int) returns (left: int)
      modifies this
      ensures Value() == TakeDamage(old(Value()), damage) && left == hp
    {
      hp := hp - damage;
      if hp < 0 {
        hp := 0;
      }
      left := hp;
    }

    method Kill()
      modifies this
      ensures Value() == Die(old(Value()))
    {
      hp := 0;
      state := DEAD;
      pathRequestVersion := pathRequestVersion + 1;
    }

    method AddHp(add: int)
      modifies this
      ensures Value() == old(Value()).(hp := old(hp) + add)
    {
      hp := hp + add;
    }

    method Revive()
      modifies this
      ensures Value() == Respawn(old(Value()))
    {
      hp := maxHp;
      state := IDLE;
      position := spawnPosition;
      deadTimer := 0.0;
      targetUserId := 0;
      pathRequestVersion := pathRequestVersion + 1;
      if currentPath != [] {
        currentPath := [];
      }
    }

    /** A dead monster's turn. */
    method ProcessDead(dt: real) returns (revived: bool)
      modifies this
      ensures Value() == Rest(old(Value()), dt)
      ensures revived <==> old(deadTimer) + dt >= respawnSec as real
    {
      deadTimer := deadTimer + dt;
      if deadTimer < respawnSec as real {
        return false;
      }
      Revive();
      revived := true;
    }
  }
}
