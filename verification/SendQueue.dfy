/** The one-writer send queue of a session on its strand:
    GameServer/Session/GatewaySession.cpp:51-95 and GatewayServer/Session/ClientSession.cpp:106-143.
    Messages are abstract; `inFlight` is the message of the outstanding asynchronous write.
 */
module SendQueue {
  import opened Wrappers

  const SEND_QUEUE_MAX_SIZE := 100000

  datatype Queue<M> = Queue(waiting: seq<M>, inFlight: Option<M>, wire: seq<M>)

  datatype Event<M> = Post(m: M) | Written | WriteError

  predicate Accepts<M>(q: Queue<M>) {
    |q.waiting| <= SEND_QUEUE_MAX_SIZE
  }

  /** A write completion can only come for an outstanding write; on success the message is on
      the wire and the front of the queue is removed. */
  function Step<M>(q: Queue<M>, e: Event<M>): Queue<M> {
    match e
    case Post(m) =>
      if !Accepts(q) then q
      else if q.waiting == [] then q.(waiting := [m], inFlight := Some(m))
      else q.(waiting := q.waiting + [m])
    case Written =>
      if q.inFlight.None? || q.waiting == [] then q
      else
        var rest := q.waiting[1..];
        Queue(rest, if rest == [] then None else Some(rest[0]), q.wire + [q.inFlight.value])
    case WriteError =>
      if q.inFlight.None? then q else q.(waiting := [], inFlight := None)
  }

  function Run<M>(q: Queue<M>, events: seq<Event<M>>): Queue<M>
    decreases |events|
  {
    if events == [] then q else Run(Step(q, events[0]), events[1..])
  }

  /** The posts that were not dropped, in order. */
  function Accepted<M>(q: Queue<M>, events: seq<Event<M>>): seq<M>
    decreases |events|
  {
    if events == [] then []
    else (if events[0].Post? && Accepts(q) then [events[0].m] else []) + Accepted(Step(q, events[0]), events[1..])
  }

  /** One write is in flight exactly when the queue is non-empty, it is the front message, and
      the queue is bounded. */
  predicate Sound<M(==)>(q: Queue<M>) {
    && q.inFlight == (if q.waiting == [] then None else Some(q.waiting[0]))
    && |q.waiting| <= SEND_QUEUE_MAX_SIZE + 1
  }

  class SessionWriter<M(==)> {
    var queue: seq<M>
    var inFlight: Option<M>
    ghost var wire: seq<M>

    ghost function Value(): Queue<M>
      reads this
    {
      Queue(queue, inFlight, wire)
    }

    constructor ()
      ensures Value() == Queue([], None, [])
    {
      queue, inFlight, wire := [], None, [];
    }

    /** Starts the write of the front message. */
    method DoWrite()
      requires queue != []
      modifies this`inFlight
      ensures inFlight == Some(queue[0])
    {
      inFlight := Some(queue[0]);
    }

    method Send(m: M)
      modifies this
      ensures Value() == Step(old(Value()), Post(m))
    {
      if |queue| > SEND_QUEUE_MAX_SIZE {
        return;
      }
      var writeInProgress := queue != [];
      queue := queue + [m];
      if !writeInProgress {
        DoWrite();
      }
    }

    /** The completion callback. */
    method OnWritten(ok: bool)
      requires inFlight.Some? && Sound(Value())
      modifies this
      ensures Sound(Value())
      ensures Value() == Step(old(Value()), if ok then Written else WriteError)
    {
      var sent := inFlight.value;
      inFlight := None;
      if ok {
        wire := wire + [sent];
        queue := queue[1..];
        if queue != [] {
          DoWrite();
        }
      } else {
        queue := [];
      }
    }
  }

  lemma {:induction false} RunKeepsSound<M>(q: Queue<M>, events: seq<Event<M>>)
    requires Sound(q)
    ensures Sound(Run(q, events))
    decreases |events|
  {
    if events != [] {
      RunKeepsSound(Step(q, events[0]), events[1..]);
    }
  }

  /** Without a write error, what is on the wire followed by what still waits is exactly the
      accepted posts in order: nothing is lost, doubled or reordered. */
  lemma {:induction false} WireIsAcceptedInOrder<M>(q: Queue<M>, events: seq<Event<M>>)
    requires Sound(q) && WriteError !in events
    ensures Run(q, events).wire + Run(q, events).waiting == q.wire + q.waiting + Accepted(q, events)
    decreases |events|
  {
    if events != [] {
      var next := Step(q, events[0]);
      WireIsAcceptedInOrder(next, events[1..]);
      assert events[0] in events;
      if events[0] == Written && q.waiting != [] {
        assert q.wire + q.waiting == next.wire + next.waiting;
      } else if events[0].Post? && Accepts(q) {
        assert q.wire + q.waiting + [events[0].m] == next.wire + next.waiting;
      }
    }
  }

  /** From a new session, a post is dropped exactly when SEND_QUEUE_MAX_SIZE + 1 accepted
      messages are not on the wire yet. */
  lemma DropIff<M>(events: seq<Event<M>>)
    requires WriteError !in events
    ensures var q := Queue([], None, []);
            !Accepts(Run(q, events)) <==> |Accepted(q, events)| - |Run(q, events).wire| == SEND_QUEUE_MAX_SIZE + 1
  {
    var q: Queue<M> := Queue([], None, []);
    RunKeepsSound(q, events);
    WireIsAcceptedInOrder(q, events);
    assert q.wire + q.waiting + Accepted(q, events) == Accepted(q, events);
  }

  lemma {:induction false} RunSplit<M>(q: Queue<M>, a: seq<Event<M>>, b: seq<Event<M>>)
    ensures Run(q, a + b) == Run(Run(q, a), b)
    decreases |a|
  {
    if a == [] {
      assert a + b == b;
    } else {
      assert (a + b)[1..] == a[1..] + b;
      RunSplit(Step(q, a[0]), a[1..], b);
    }
  }

  /** A write error gives up exactly what was waiting: nothing of it is ever sent, what was on the wire
      stays, and everything accepted after the error is sent or waits, in order. */
  lemma ErrorGivesUpWaiting<M>(q: Queue<M>, before: seq<Event<M>>, after: seq<Event<M>>)
    requires Sound(q) && Run(q, before).inFlight.Some? && WriteError !in after
    ensures var failed := Queue([], None, Run(q, before).wire);
            var last := Run(q, before + ([WriteError] + after));
            last.wire + last.waiting == Run(q, before).wire + Accepted(failed, after)
  {
    var mid := Run(q, before);
    RunSplit(q, before, [WriteError] + after);
    assert ([WriteError] + after)[1..] == after;
    WireIsAcceptedInOrder(Step(mid, WriteError), after);
  }

  function Completions<M>(n: nat): seq<Event<M>> {
    if n == 0 then [] else [Written] + Completions(n - 1)
  }

  /** Each completion puts the front message on the wire, and after one for each the queue is empty. */
  lemma {:induction false} CompletionsDrain<M>(q: Queue<M>, n: nat)
    requires Sound(q) && n <= |q.waiting|
    ensures Run(q, Completions(n)) ==
              Queue(q.waiting[n..], if n < |q.waiting| then Some(q.waiting[n]) else None, q.wire + q.waiting[..n])
    decreases n
  {
    if n > 0 {
      var next := Step(q, Written);
      assert Completions<M>(n)[1..] == Completions(n - 1);
      CompletionsDrain(next, n - 1);
      assert next.wire + next.waiting[..n - 1] == q.wire + q.waiting[..n];
    }
  }

  // ---- The queue of a bot session, which Stop clears ----

  /** StressTestTool/Session/StressSession.cpp:25-45 and 277-309.  `writing` counts the writes under
      way: a post after a Stop may start one before the last one is done. */
  datatype BotQueue<M> = BotQueue(waiting: seq<M>, writing: nat)

  datatype BotEvent<M> = BotPost(m: M) | BotWritten(ok: bool) | BotStop

  /** A write that failed posts a Stop, which is an event of its own. */
  function BotStep<M>(q: BotQueue<M>, e: BotEvent<M>): BotQueue<M> {
    match e
    case BotPost(m) => BotQueue(q.waiting + [m], if q.waiting == [] then q.writing + 1 else q.writing)
    case BotWritten(ok) =>
      if q.writing == 0 then q
      else if !ok || q.waiting == [] then q.(writing := q.writing - 1)
      else
        var rest := q.waiting[1..];
        BotQueue(rest, if rest == [] then q.writing - 1 else q.writing)
    case BotStop => q.(waiting := [])
  }

  function BotRun<M>(q: BotQueue<M>, events: seq<BotEvent<M>>): BotQueue<M>
    decreases |events|
  {
    if events == [] then q else BotRun(BotStep(q, events[0]), events[1..])
  }

  /** The completion takes the front of an empty queue. */
  predicate PopsEmpty<M(==)>(q: BotQueue<M>, e: BotEvent<M>) {
    e.BotWritten? && e.ok && q.writing > 0 && q.waiting == []
  }

  function EmptyPops<M(==)>(q: BotQueue<M>, events: seq<BotEvent<M>>): nat
    decreases |events|
  {
    if events == [] then 0
    else (if PopsEmpty(q, events[0]) then 1 else 0) + EmptyPops(BotStep(q, events[0]), events[1..])
  }

  /** Stops that clear a queue with messages in it. */
  function Clearings<M(==)>(q: BotQueue<M>, events: seq<BotEvent<M>>): nat
    decreases |events|
  {
    if events == [] then 0
    else (if events[0].BotStop? && q.waiting != [] then 1 else 0) + Clearings(BotStep(q, events[0]), events[1..])
  }

  function FailedWrites<M(==)>(q: BotQueue<M>, events: seq<BotEvent<M>>): nat
    decreases |events|
  {
    if events == [] then 0
    else
      (if events[0].BotWritten? && !events[0].ok && q.writing > 0 then 1 else 0) +
      FailedWrites(BotStep(q, events[0]), events[1..])
  }

  /** Writes under way beyond the one a non-empty queue has. */
  function Strays<M(==)>(q: BotQueue<M>): int {
    q.writing - if q.waiting == [] then 0 else 1
  }

  /** Every clearing leaves a write astray; it ends by failing or by popping an empty queue. */
  lemma {:induction false} StrayLedger<M>(q: BotQueue<M>, events: seq<BotEvent<M>>)
    ensures Strays(BotRun(q, events)) + EmptyPops(q, events) + FailedWrites(q, events)
         == Strays(q) + Clearings(q, events)
    decreases |events|
  {
    if events != [] {
      StrayLedger(BotStep(q, events[0]), events[1..]);
    }
  }

  /** A session that is done, with nothing waiting and no write under way, never took the front of
      an empty queue if and only if as many writes failed as stops cleared a non-empty queue. */
  lemma NeverPopsEmptyIff<M>(events: seq<BotEvent<M>>)
    requires BotRun(BotQueue([], 0), events) == BotQueue([], 0)
    ensures EmptyPops(BotQueue([], 0), events) == 0
       <==> FailedWrites(BotQueue([], 0), events) == Clearings(BotQueue([], 0), events)
  {
    StrayLedger(BotQueue([], 0), events);
  }

  /** At any moment: a stop and then the completion of the only write pop an empty queue if and only
      if the write was under way and completes without an error. */
  lemma StopPopsEmptyIff<M>(q: BotQueue<M>, ok: bool)
    requires Strays(q) == 0
    ensures EmptyPops(q, [BotStop, BotWritten(ok)]) > 0 <==> q.waiting != [] && ok
  {
    var e: seq<BotEvent<M>> := [BotStop, BotWritten(ok)];
    assert e[1..] == [BotWritten(ok)] && e[1..][1..] == [];
    assert EmptyPops(BotStep(q, BotStop), e[1..]) == if PopsEmpty(BotStep(q, BotStop), e[1]) then 1 else 0;
  }

  /** Without a stop the queue of a bot is like that of the servers. */
  lemma {:induction false} NoStopNoEmptyPop<M>(q: BotQueue<M>, events: seq<BotEvent<M>>)
    requires Strays(q) <= 0 && BotStop !in events
    ensures EmptyPops(q, events) == 0
    decreases |events|
  {
    if events != [] {
      assert events[0] in events;
      NoStopNoEmptyPop(BotStep(q, events[0]), events[1..]);
    }
  }
}
