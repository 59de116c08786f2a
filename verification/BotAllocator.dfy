/** The bot-id allocator of the stress tool: StressTestTool/Manager/StressManager.cpp:21-118.
    Each step runs under the manager's mutex.  A session is identified by a number, and the
    allocator is generic in the type of ids: `name` makes the n-th id, `BotName` in the tool.
 */
module BotAllocator {
  import opened Wrappers

  type Handle = nat

  // ---- Names ----

  /** `std::to_string` of a non-negative number. */
  function Digits(n: nat): string {
    if n < 10 then [Digit(n)] else Digits(n / 10) + [Digit(n % 10)]
  }

  function Digit(d: nat): char
    requires d < 10
  {
    '0' + d as char
  }

  function BotName(n: nat): string {
    "BOT_STRESS_" + Digits(n)
  }

  /** The number written by a string of digits. */
  ghost function Number(s: string): int {
    if s == "" then 0 else Number(s[..|s| - 1]) * 10 + (s[|s| - 1] as int - '0' as int)
  }

  /** The number at the end of an id. */
  ghost function BotNumber(id: string): int {
    if |id| < |"BOT_STRESS_"| then 0 else Number(id[|"BOT_STRESS_"|..])
  }

  lemma {:induction false} NumberOfDigits(n: nat)
    ensures Number(Digits(n)) == n
  {
    if n >= 10 {
      NumberOfDigits(n / 10);
      assert Digits(n)[..|Digits(n)| - 1] == Digits(n / 10);
    }
  }

  lemma BotNumberOfName(n: nat)
    ensures BotNumber(BotName(n)) == n
  {
    NumberOfDigits(n);
    assert BotName(n)[|"BOT_STRESS_"|..] == Digits(n);
  }

  /** Every id tells its number, so different numbers give different ids. */
  ghost predicate Numbered<T>(name: nat -> T, number: T -> int) {
    forall n: nat :: number(name(n)) == n
  }

  // ---- The pool ----

  datatype Pool<T> = Pool(queue: seq<T>, live: map<Handle, T>, spawned: int, total: nat, nextHandle: Handle)

  function EmptyPool<T>(): Pool<T> {
    Pool([], map[], 0, 0, 0)
  }

  /** A reusable id first, a new one only when none is left. */
  function SpawnOne<T>(name: nat -> T, p: Pool<T>): Pool<T> {
    if |p.queue| > 0 then
      Pool(p.queue[1..], p.live[p.nextHandle := p.queue[0]], p.spawned + 1, p.total, p.nextHandle + 1)
    else
      Pool([], p.live[p.nextHandle := name(p.total)], p.spawned + 1, p.total + 1, p.nextHandle + 1)
  }

  function SpawnMany<T>(name: nat -> T, p: Pool<T>, n: nat): Pool<T>
    decreases n
  {
    if n == 0 then p else SpawnMany(name, SpawnOne(name, p), n - 1)
  }

  function SpawnCount(spawned: int, target: int, rate: int): nat {
    var n := if rate <= target - spawned then rate else target - spawned;
    if n < 0 then 0 else n
  }

  /** One round of the ramp-up or of the reconnect loop. */
  function SpawnRound<T>(name: nat -> T, p: Pool<T>, target: int, rate: int): Pool<T> {
    SpawnMany(name, p, SpawnCount(p.spawned, target, rate))
  }

  /** A session reports that it is gone and hands back its id. */
  function Disconnect<T>(p: Pool<T>, h: Handle, back: seq<T>): Pool<T> {
    p.(queue := p.queue + back, live := p.live - {h}, spawned := p.spawned - 1)
  }

  class StressManager {
    const target: int
    const rate: int
    var currentSpawned: int
    var totalSpawnCount: nat
    var sessions: map<Handle, string>
    var nextHandle: Handle
    var reusableIds: seq<string>

    ghost function Value(): Pool<string>
      reads this
    {
      Pool(reusableIds, sessions, currentSpawned, totalSpawnCount, nextHandle)
    }

    constructor (target: int, rate: int)
      ensures this.target == target && this.rate == rate && Value() == EmptyPool()
    {
      this.target, this.rate := target, rate;
      currentSpawned, totalSpawnCount, sessions, nextHandle, reusableIds := 0, 0, map[], 0, [];
    }

    method AcquireBotId() returns (id: string)
      modifies this`reusableIds, this`totalSpawnCount
      ensures id == if |old(reusableIds)| > 0 then old(reusableIds)[0] else BotName(old(totalSpawnCount))
      ensures reusableIds == if |old(reusableIds)| > 0 then old(reusableIds)[1..] else []
      ensures totalSpawnCount == if |old(reusableIds)| > 0 then old(totalSpawnCount) else old(totalSpawnCount) + 1
    {
      if |reusableIds| > 0 {
        id := reusableIds[0];
        reusableIds := reusableIds[1..];
        return;
      }
      id := BotName(totalSpawnCount);
      totalSpawnCount := totalSpawnCount + 1;
    }

    /** The spawn loop of ScheduleNextSpawn and of StartReconnectLoop. */
    method Spawn()
      modifies this
      ensures Value() == SpawnRound(BotName, old(Value()), target, rate)
    {
      var count := if rate <= target - currentSpawned then rate else target - currentSpawned;
      var i := 0;
      while i < count
        invariant 0 <= i && (i <= count || i == 0)
        invariant SpawnMany(BotName, Value(), if i < count then count - i else 0)
               == SpawnRound(BotName, old(Value()), target, rate)
      {
        var id := AcquireBotId();
        sessions := sessions[nextHandle := id];
        nextHandle := nextHandle + 1;
        currentSpawned := currentSpawned + 1;
        i := i + 1;
      }
    }

    /** An empty id is not queued. */
    method OnSessionDisconnected(h: Handle, id: string)
      modifies this
      ensures Value() == Disconnect(old(Value()), h, if |id| == 0 then [] else [id])
    {
      if |id| > 0 {
        reusableIds := reusableIds + [id];
      }
      sessions := sessions - {h};
      currentSpawned := currentSpawned - 1;
    }
  }

  // ---- The invariant ----

  ghost predicate NoDuplicates<T>(queue: seq<T>) {
    forall i, j :: 0 <= i < j < |queue| ==> queue[i] != queue[j]
  }

  ghost predicate OneEach<T>(live: map<Handle, T>) {
    forall g, h :: g in live && h in live && g != h ==> live[g] != live[h]
  }

  ghost predicate Apart<T>(queue: seq<T>, live: map<Handle, T>) {
    forall i, h :: 0 <= i < |queue| && h in live ==> queue[i] != live[h]
  }

  /** Live and queued ids are disjoint and duplicate-free. */
  ghost predicate Distinct<T>(queue: seq<T>, live: map<Handle, T>) {
    NoDuplicates(queue) && OneEach(live) && Apart(queue, live)
  }

  /** The id is one of the first n. */
  ghost predicate Made<T>(name: nat -> T, number: T -> int, n: nat, id: T) {
    0 <= number(id) < n && name(number(id)) == id
  }

  /** Every id in use is one of the first n. */
  ghost predicate AllMade<T>(name: nat -> T, number: T -> int, n: nat, queue: seq<T>, live: map<Handle, T>) {
    && (forall i :: 0 <= i < |queue| ==> Made(name, number, n, queue[i]))
    && (forall h :: h in live ==> Made(name, number, n, live[h]))
  }

  /** No handle is used twice. */
  ghost predicate Handled<T>(p: Pool<T>) {
    forall h :: h in p.live ==> h < p.nextHandle
  }

  /** Ids in use beyond those made. */
  ghost function Excess<T>(p: Pool<T>): int {
    |p.live| + |p.queue| - p.total
  }

  /** The counters agree with the queue and the sessions, and stay within the target. */
  ghost predicate Counted<T>(p: Pool<T>, target: int) {
    && Handled(p) && p.spawned == |p.live| && Excess(p) == 0
    && (p.total == 0 || p.total <= target)
  }

  ghost predicate Sound<T>(name: nat -> T, number: T -> int, p: Pool<T>, target: int) {
    && Distinct(p.queue, p.live)
    && AllMade(name, number, p.total, p.queue, p.live)
    && Counted(p, target)
  }

  lemma SpawnKeepsCounted<T>(name: nat -> T, p: Pool<T>, target: int)
    requires Counted(p, target) && p.spawned < target
    ensures Counted(SpawnOne(name, p), target)
  {
    assert p.nextHandle !in p.live;
  }

  lemma SpawnKeepsIds<T>(name: nat -> T, number: T -> int, p: Pool<T>)
    requires Numbered(name, number)
    requires Distinct(p.queue, p.live) && AllMade(name, number, p.total, p.queue, p.live)
    requires p.nextHandle !in p.live
    ensures var q := SpawnOne(name, p);
            Distinct(q.queue, q.live) && AllMade(name, number, q.total, q.queue, q.live)
  {
    var q := SpawnOne(name, p);
    if |p.queue| > 0 {
      assert p.queue == [p.queue[0]] + q.queue;
    } else {
      assert number(name(p.total)) == p.total;
    }
  }

  lemma SpawnKeepsSound<T>(name: nat -> T, number: T -> int, p: Pool<T>, target: int)
    requires Numbered(name, number) && Sound(name, number, p, target) && p.spawned < target
    ensures Sound(name, number, SpawnOne(name, p), target)
  {
    SpawnKeepsCounted(name, p, target);
    SpawnKeepsIds(name, number, p);
  }

  lemma {:induction false} SpawnManyKeepsSound<T>(name: nat -> T, number: T -> int, p: Pool<T>, target: int, n: nat)
    requires Numbered(name, number) && Sound(name, number, p, target) && (n == 0 || p.spawned + n <= target)
    ensures Sound(name, number, SpawnMany(name, p, n), target)
    decreases n
  {
    if n > 0 {
      SpawnKeepsSound(name, number, p, target);
      SpawnManyKeepsSound(name, number, SpawnOne(name, p), target, n - 1);
    }
  }

  /** n spawns make n sessions, from the reusable ids first. */
  lemma {:induction false} SpawnCounts<T>(name: nat -> T, p: Pool<T>, n: nat)
    ensures var q, k := SpawnMany(name, p, n), if n <= |p.queue| then n else |p.queue|;
            && q.queue == p.queue[k..] && q.total == p.total + n - k
            && q.spawned == p.spawned + n && q.nextHandle == p.nextHandle + n
    decreases n
  {
    if n > 0 {
      SpawnCounts(name, SpawnOne(name, p), n - 1);
    }
  }

  /** A session that is live keeps its id. */
  lemma {:induction false} LiveSessionsStay<T>(name: nat -> T, p: Pool<T>, n: nat, h: Handle)
    requires h < p.nextHandle
    ensures var q := SpawnMany(name, p, n);
            (h in q.live <==> h in p.live) && (h in p.live ==> q.live[h] == p.live[h])
    decreases n
  {
    if n > 0 {
      LiveSessionsStay(name, SpawnOne(name, p), n - 1, h);
    }
  }

  /** The i-th new session has the i-th id that came back, and a new id when none is left. */
  lemma {:induction false} SpawnsInOrder<T>(name: nat -> T, p: Pool<T>, n: nat, i: nat)
    requires i < n
    ensures var q, h := SpawnMany(name, p, n), p.nextHandle + i;
            h in q.live && q.live[h] == if i < |p.queue| then p.queue[i] else name(p.total + (i - |p.queue|))
    decreases n
  {
    var next := SpawnOne(name, p);
    if i > 0 {
      SpawnsInOrder(name, next, n - 1, i - 1);
    } else {
      LiveSessionsStay(name, next, n - 1, p.nextHandle);
    }
  }

  /** Whole rounds of spawning with nobody leaving. */
  function Rounds<T>(name: nat -> T, p: Pool<T>, target: int, rate: int, n: nat): Pool<T>
    decreases n
  {
    if n == 0 then p else Rounds(name, SpawnRound(name, p, target, rate), target, rate, n - 1)
  }

  /** Rounds fill up to the target and never beyond: each adds `rate` sessions or what is missing. */
  lemma {:induction false} RoundsFillUp<T>(name: nat -> T, p: Pool<T>, target: int, rate: nat, n: nat, goal: int)
    requires p.spawned <= target && goal == p.spawned + n * rate
    ensures Rounds(name, p, target, rate, n).spawned == if goal <= target then goal else target
    decreases n
  {
    if n > 0 {
      var next := SpawnRound(name, p, target, rate);
      SpawnCounts(name, p, SpawnCount(p.spawned, target, rate));
      assert goal == p.spawned + (n - 1) * rate + rate;
      if p.spawned + rate <= target {
        RoundsFillUp(name, next, target, rate, n - 1, goal);
      } else {
        RoundsFillUp(name, next, target, rate, n - 1, target + (n - 1) * rate);
      }
    }
  }

  /** At or above the target nothing is spawned. */
  lemma FullIsIdle<T>(name: nat -> T, p: Pool<T>, target: int, rate: int)
    ensures p.spawned >= target || rate <= 0 ==> SpawnRound(name, p, target, rate) == p
  {
  }

  lemma LiveAfter<T>(live: map<Handle, T>, h: Handle)
    ensures |live - {h}| == |live| - (if h in live then 1 else 0)
  {
    if h in live {
      assert live.Keys == (live - {h}).Keys + {h};
    } else {
      assert live - {h} == live;
    }
  }

  lemma ReportExcess<T>(p: Pool<T>, h: Handle, id: T)
    requires Handled(p)
    ensures Handled(Disconnect(p, h, [id]))
    ensures Excess(Disconnect(p, h, [id])) == Excess(p) + (if h in p.live then 0 else 1)
  {
    LiveAfter(p.live, h);
  }

  /** A disconnect report keeps the allocator sound if and only if the session was live, that
      is, if it is the only report of that session. */
  lemma DisconnectKeepsSoundIff<T>(name: nat -> T, number: T -> int, p: Pool<T>, target: int, h: Handle, id: T)
    requires Sound(name, number, p, target)
    requires h in p.live ==> p.live[h] == id
    ensures Sound(name, number, Disconnect(p, h, [id]), target) <==> h in p.live
  {
    ReportExcess(p, h, id);
    LiveAfter(p.live, h);
  }

  // ---- From counting to equality ----

  /** Ids waiting for reuse or held by a live session. */
  ghost function InUse<T>(queue: seq<T>, live: map<Handle, T>): set<T> {
    (set id | id in queue) + live.Values
  }

  /** The first n ids. */
  ghost function NamesBelow<T>(name: nat -> T, n: nat): set<T> {
    set k: nat | k < n :: name(k)
  }

  lemma {:induction false} QueuedCount<T>(queue: seq<T>)
    requires NoDuplicates(queue)
    ensures |set id | id in queue| == |queue|
    decreases |queue|
  {
    if queue != [] {
      QueuedCount(queue[1..]);
      assert queue == [queue[0]] + queue[1..];
      assert (set id | id in queue) == (set id | id in queue[1..]) + {queue[0]};
    }
  }

  lemma {:induction false} LiveCount<T>(live: map<Handle, T>)
    requires OneEach(live)
    ensures |live.Values| == |live|
    decreases |live|
  {
    if live != map[] {
      var h :| h in live;
      var fewer := live - {h};
      assert live.Keys == fewer.Keys + {h};
      LiveCount(fewer);
      forall x ensures x in live.Values <==> x in fewer.Values + {live[h]} {
        if x in live.Values {
          var g :| g in live && live[g] == x;
          assert g == h || (g in fewer && fewer[g] == x);
        }
      }
      assert live.Values == fewer.Values + {live[h]};
    } else {
      assert live.Values == {};
    }
  }

  lemma {:induction false} NamesCount<T>(name: nat -> T, number: T -> int, n: nat)
    requires Numbered(name, number)
    ensures |NamesBelow(name, n)| == n
    decreases n
  {
    if n > 0 {
      NamesCount(name, number, n - 1);
      assert NamesBelow(name, n) == NamesBelow(name, n - 1) + {name(n - 1)};
      assert name(n - 1) !in NamesBelow(name, n - 1);
    } else {
      assert NamesBelow(name, 0) == {};
    }
  }

  lemma {:induction false} SubsetOfSameSize<T>(a: set<T>, b: set<T>)
    requires a <= b && |a| == |b|
    ensures a == b
  {
    if x :| x in b && x !in a {
      SizeOfSubset(a, b - {x});
    }
  }

  /** In a sound pool the ids in use are exactly the first `total` ones. */
  lemma SoundIdsAreExact<T>(name: nat -> T, number: T -> int, p: Pool<T>, target: int)
    requires Numbered(name, number) && Sound(name, number, p, target)
    ensures InUse(p.queue, p.live) == NamesBelow(name, p.total)
  {
    QueuedCount(p.queue);
    LiveCount(p.live);
    NamesCount(name, number, p.total);
    assert (set id | id in p.queue) !! p.live.Values;
    forall id | id in InUse(p.queue, p.live) ensures id in NamesBelow(name, p.total) {
      assert Made(name, number, p.total, id);
      assert name(number(id)) == id;
    }
    SubsetOfSameSize(InUse(p.queue, p.live), NamesBelow(name, p.total));
  }

  // ---- Whole runs ----

  datatype Event<T> = Round | Gone(h: Handle, id: T)

  /** Spawn rounds and disconnect reports; a live session reports the id it was given. */
  function Step<T>(name: nat -> T, p: Pool<T>, target: int, rate: int, e: Event<T>): Pool<T> {
    match e
    case Round => SpawnRound(name, p, target, rate)
    case Gone(h, id) => Disconnect(p, h, [if h in p.live then p.live[h] else id])
  }

  function Run<T>(name: nat -> T, p: Pool<T>, target: int, rate: int, events: seq<Event<T>>): Pool<T>
    decreases |events|
  {
    if events == [] then p else Run(name, Step(name, p, target, rate, events[0]), target, rate, events[1..])
  }

  /** How many reports come from sessions that are not live, having reported before. */
  function Repeated<T>(name: nat -> T, p: Pool<T>, target: int, rate: int, events: seq<Event<T>>): nat
    decreases |events|
  {
    if events == [] then 0
    else (if events[0].Gone? && events[0].h !in p.live then 1 else 0)
         + Repeated(name, Step(name, p, target, rate, events[0]), target, rate, events[1..])
  }

  lemma {:induction false} RunKeepsSound<T>(name: nat -> T, number: T -> int, p: Pool<T>, target: int, rate: int,
                                            events: seq<Event<T>>)
    requires Numbered(name, number) && Sound(name, number, p, target)
    requires Repeated(name, p, target, rate, events) == 0
    ensures Sound(name, number, Run(name, p, target, rate, events), target)
    decreases |events|
  {
    if events != [] {
      match events[0] {
        case Round => SpawnManyKeepsSound(name, number, p, target, SpawnCount(p.spawned, target, rate));
        case Gone(h, id) => DisconnectKeepsSoundIff(name, number, p, target, h, p.live[h]);
      }
      RunKeepsSound(name, number, Step(name, p, target, rate, events[0]), target, rate, events[1..]);
    }
  }

  lemma {:induction false} SpawnKeepsExcess<T>(name: nat -> T, p: Pool<T>, n: nat)
    requires Handled(p)
    ensures Handled(SpawnMany(name, p, n)) && Excess(SpawnMany(name, p, n)) == Excess(p)
    decreases n
  {
    if n > 0 {
      assert p.nextHandle !in p.live;
      SpawnKeepsExcess(name, SpawnOne(name, p), n - 1);
    }
  }

  lemma {:induction false} RunExcess<T>(name: nat -> T, p: Pool<T>, target: int, rate: int, events: seq<Event<T>>)
    requires Handled(p)
    ensures Excess(Run(name, p, target, rate, events)) == Excess(p) + Repeated(name, p, target, rate, events)
    decreases |events|
  {
    if events != [] {
      match events[0] {
        case Round => SpawnKeepsExcess(name, p, SpawnCount(p.spawned, target, rate));
        case Gone(h, id) => ReportExcess(p, h, if h in p.live then p.live[h] else id);
      }
      RunExcess(name, Step(name, p, target, rate, events[0]), target, rate, events[1..]);
    }
  }

  /** Live and queued ids are disjoint, duplicate-free and together exactly BOT_STRESS_0 ..
      BOT_STRESS_(n-1), the spawn counter is the number of live sessions, and n is within the
      target. */
  ghost predicate Conserved(p: Pool<string>, target: int) {
    && Distinct(p.queue, p.live) && InUse(p.queue, p.live) == NamesBelow(BotName, p.total)
    && p.spawned == |p.live| && (p.total == 0 || p.total <= target)
  }

  lemma ConservedHasNoExcess(p: Pool<string>, target: int)
    requires Conserved(p, target)
    ensures Excess(p) == 0
  {
    BotNamesAreNumbered();
    QueuedCount(p.queue);
    LiveCount(p.live);
    NamesCount(BotName, BotNumber, p.total);
    assert (set id | id in p.queue) !! p.live.Values;
  }

  lemma BotNamesAreNumbered()
    ensures Numbered(BotName, BotNumber)
  {
    forall n: nat ensures BotNumber(BotName(n)) == n {
      BotNumberOfName(n);
    }
  }

  /** After every interleaving of spawn rounds and reports the ids are conserved if and only if
      no session reported twice. */
  lemma BotIdsAreConservedIff(target: int, rate: int, events: seq<Event<string>>)
    ensures Conserved(Run(BotName, EmptyPool(), target, rate, events), target)
       <==> Repeated(BotName, EmptyPool(), target, rate, events) == 0
  {
    var p := Run(BotName, EmptyPool(), target, rate, events);
    BotNamesAreNumbered();
    RunExcess(BotName, EmptyPool(), target, rate, events);
    if Conserved(p, target) {
      ConservedHasNoExcess(p, target);
    }
    if Repeated(BotName, EmptyPool(), target, rate, events) == 0 {
      RunKeepsSound(BotName, BotNumber, EmptyPool(), target, rate, events);
      SoundIdsAreExact(BotName, BotNumber, p, target);
    }
  }

  /** With a target of one session, a session that reports twice is replaced by two live sessions
      with the same id, and the counter sees only one of them. */
  lemma DoubleReportSharesId(id: string, e: Event<string>)
    requires id == BotName(0) && e == Gone(0, id)
    ensures Run(BotName, EmptyPool(), 1, 2, [Round, e, e, Round]) == Pool([], map[1 := id, 2 := id], 1, 1, 3)
  {
    var p0: Pool<string> := EmptyPool();
    var p1 := Pool([], map[0 := id], 1, 1, 1);
    assert Step(BotName, p0, 1, 2, Round) == SpawnMany(BotName, p0, 1) == SpawnOne(BotName, p0) == p1;
    var p2 := Pool([id], map[], 0, 1, 1);
    assert Step(BotName, p1, 1, 2, e) == p2;
    var p3 := Pool([id, id], map[], -1, 1, 1);
    assert Step(BotName, p2, 1, 2, e) == p3;
    var q := Pool([id], map[1 := id], 0, 1, 2);
    assert SpawnOne(BotName, p3) == q by { assert [id, id][1..] == [id]; }
    var last := Pool([], q.live[2 := id], 1, 1, 3);
    assert SpawnOne(BotName, q) == last;
    assert Step(BotName, p3, 1, 2, Round) == SpawnMany(BotName, p3, 2) == SpawnMany(BotName, q, 1) == last;
    FirstEvent(p0, Round, [e, e, Round]);
    FirstEvent(p1, e, [e, Round]);
    FirstEvent(p2, e, [Round]);
    FirstEvent(p3, Round, []);
    assert [Round, e, e, Round] == [Round] + [e, e, Round] && [e, e, Round] == [e] + [e, Round];
    var none: seq<Event<string>> := [];
    assert [e, Round] == [e] + [Round] && [Round] == [Round] + none;
    assert q.live[2 := id] == map[1 := id, 2 := id];
  }

  lemma FirstEvent(p: Pool<string>, e: Event<string>, rest: seq<Event<string>>)
    ensures Run(BotName, p, 1, 2, [e] + rest) == Run(BotName, Step(BotName, p, 1, 2, e), 1, 2, rest)
  {
    assert ([e] + rest)[1..] == rest;
  }
}
