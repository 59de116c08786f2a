/** The per-session packet limiter: Common/PacketDispatcher.h:33-63.  The clock is a parameter. */
module RateLimiter {
  import opened Wrappers

  const RATE_WINDOW_SECONDS := 1
  const MAX_PACKETS_PER_SECOND := 200

  datatype Limiter = Limiter(windowStart: real, count: nat)

  /** A whole second has passed since the window began. */
  predicate Expired(l: Limiter, now: real) {
    (now - l.windowStart).Floor >= RATE_WINDOW_SECONDS
  }

  function Counted(l: Limiter, now: real): Limiter {
    if Expired(l, now) then Limiter(now, 1) else l.(count := l.count + 1)
  }

  predicate Allows(l: Limiter, now: real) {
    Expired(l, now) || l.count + 1 <= MAX_PACKETS_PER_SECOND
  }

  class PacketRateLimiter {
    var windowStart: real
    var packetCount: nat

    ghost function Value(): Limiter
      reads this
    {
      Limiter(windowStart, packetCount)
    }

    constructor (now: real)
      ensures Value() == Limiter(now, 0)
    {
      windowStart, packetCount := now, 0;
    }

    method AllowPacket(now: real) returns (ok: bool)
      modifies this
      ensures Value() == Counted(old(Value()), now) && ok == Allows(old(Value()), now)
    {
      var elapsed := (now - windowStart).Floor;
      if elapsed >= RATE_WINDOW_SECONDS {
        windowStart := now;
        packetCount := 1;
        return true;
      }
      packetCount := packetCount + 1;
      if packetCount > MAX_PACKETS_PER_SECOND {
        return false;
      }
      ok := true;
    }
  }

  // ---- Bounds over whole arrival traces ----

  /** Arrival times never go back, and none precedes the current window. */
  ghost predicate Monotone(l: Limiter, times: seq<real>) {
    && (forall i :: 0 <= i < |times| ==> l.windowStart <= times[i])
    && (forall i, j :: 0 <= i < j < |times| ==> times[i] <= times[j])
  }

  /** How many of the packets whose time satisfies `inside` are allowed. */
  function AllowedCount(l: Limiter, times: seq<real>, inside: real -> bool): nat
    decreases |times|
  {
    if times == [] then 0
    else
      (if Allows(l, times[0]) && inside(times[0]) then 1 else 0) +
      AllowedCount(Counted(l, times[0]), times[1..], inside)
  }

  function UpTo(end: real): real -> bool {
    t => t <= end
  }

  /** The half-open second from `start`. */
  function SecondFrom(start: real): real -> bool {
    t => start <= t < start + 1.0
  }

  /** Packets the current window still has room for. */
  function Room(l: Limiter): int {
    if l.count <= MAX_PACKETS_PER_SECOND then MAX_PACKETS_PER_SECOND - l.count else 0
  }

  lemma MonotoneTail(l: Limiter, times: seq<real>)
    requires Monotone(l, times) && times != []
    ensures Monotone(Counted(l, times[0]), times[1..])
  {
  }

  lemma {:induction false} NoneAfter(l: Limiter, times: seq<real>, inside: real -> bool)
    requires forall i :: 0 <= i < |times| ==> !inside(times[i])
    ensures AllowedCount(l, times, inside) == 0
    decreases |times|
  {
    if times != [] {
      NoneAfter(Counted(l, times[0]), times[1..], inside);
    }
  }

  lemma {:induction false} WindowsBound(l: Limiter, times: seq<real>, end: real, inside: real -> bool)
    requires Monotone(l, times) && l.windowStart <= end
    requires forall t :: inside(t) ==> t <= end
    ensures AllowedCount(l, times, inside) <= Room(l) + MAX_PACKETS_PER_SECOND * (end - l.windowStart).Floor
    decreases |times|
  {
    if times != [] {
      var now := times[0];
      if now > end {
        NoneAfter(l, times, inside);
      } else {
        MonotoneTail(l, times);
        WindowsBound(Counted(l, now), times[1..], end, inside);
        if Expired(l, now) {
          assert (end - now).Floor <= (end - l.windowStart).Floor - 1;
        }
      }
    }
  }

  /** A limiter created at time 0 allows at most 200 * (floor(T) + 1) packets up to time T. */
  lemma FirstSeconds(times: seq<real>, end: real)
    requires Monotone(Limiter(0.0, 0), times) && 0.0 <= end
    ensures AllowedCount(Limiter(0.0, 0), times, UpTo(end)) <= MAX_PACKETS_PER_SECOND * (end.Floor + 1)
  {
    WindowsBound(Limiter(0.0, 0), times, end, UpTo(end));
  }

  /** From the first packet of the interval on: the rest of the current window and at most one
      more window. */
  lemma {:induction false} IntervalBound(l: Limiter, times: seq<real>, start: real, inside: real -> bool)
    requires Monotone(l, times)
    requires forall i :: 0 <= i < |times| ==> start <= times[i]
    requires forall t :: inside(t) ==> start <= t < start + 1.0
    ensures AllowedCount(l, times, inside) <= Room(l) + if l.windowStart < start then MAX_PACKETS_PER_SECOND else 0
    decreases |times|
  {
    if times != [] {
      var now := times[0];
      MonotoneTail(l, times);
      if now >= start + 1.0 {
        NoneAfter(l, times, inside);
      } else {
        IntervalBound(Counted(l, now), times[1..], start, inside);
      }
    }
  }

  lemma {:induction false} SecondBound(l: Limiter, times: seq<real>, start: real, inside: real -> bool)
    requires Monotone(l, times)
    requires forall t :: inside(t) ==> start <= t < start + 1.0
    ensures AllowedCount(l, times, inside) <= 2 * MAX_PACKETS_PER_SECOND
    decreases |times|
  {
    if times != [] && times[0] < start {
      MonotoneTail(l, times);
      SecondBound(Counted(l, times[0]), times[1..], start, inside);
    } else {
      IntervalBound(l, times, start, inside);
    }
  }

  /** In any half-open interval of one second at most 400 packets are allowed. */
  lemma AnySecond(times: seq<real>, start: real)
    requires Monotone(Limiter(0.0, 0), times)
    ensures AllowedCount(Limiter(0.0, 0), times, SecondFrom(start)) <= 2 * MAX_PACKETS_PER_SECOND
  {
    SecondBound(Limiter(0.0, 0), times, start, SecondFrom(start));
  }

  // ---- Senders that stay below the limit ----

  /** Every packet of the trace is allowed. */
  predicate AllAllowed(l: Limiter, times: seq<real>)
    decreases |times|
  {
    times == [] || (Allows(l, times[0]) && AllAllowed(Counted(l, times[0]), times[1..]))
  }

  /** The packets that arrive in the half-open second from `start`. */
  ghost function InSecond(times: seq<real>, start: real): set<int> {
    set i | 0 <= i < |times| && start <= times[i] < start + 1.0
  }

  ghost predicate AtMostPerSecond(times: seq<real>, n: nat) {
    forall start: real :: |InSecond(times, start)| <= n
  }

  /** The indices from a to b - 1. */
  ghost function Span(a: nat, b: nat): (span: set<int>)
    requires a <= b
    ensures |span| == b - a && forall i :: i in span ==> a <= i < b
    decreases b - a
  {
    if a == b then {} else Span(a, b - 1) + {b - 1}
  }

  lemma SpanCount(times: seq<real>, start: real, a: nat, b: nat)
    requires a <= b <= |times|
    requires forall i :: a <= i < b ==> start <= times[i] < start + 1.0
    ensures b - a <= |InSecond(times, start)|
  {
    SizeOfSubset(Span(a, b), InSecond(times, start));
  }

  /** The count of the limiter covers the packets before the k-th that fell into its window. */
  ghost predicate Covers(l: Limiter, times: seq<real>, k: nat)
    requires k <= |times|
  {
    l.count <= k && forall i :: k - l.count <= i < k ==> l.windowStart <= times[i] < l.windowStart + 1.0
  }

  lemma {:induction false} SlowFrom(l: Limiter, times: seq<real>, k: nat)
    requires k <= |times| && Covers(l, times, k)
    requires forall i :: k <= i < |times| ==> l.windowStart <= times[i]
    requires forall i, j :: 0 <= i < j < |times| ==> times[i] <= times[j]
    requires AtMostPerSecond(times, MAX_PACKETS_PER_SECOND)
    ensures AllAllowed(l, times[k..])
    decreases |times| - k
  {
    if k < |times| {
      var now := times[k];
      if !Expired(l, now) {
        SpanCount(times, l.windowStart, k - l.count, k + 1);
        assert |InSecond(times, l.windowStart)| <= MAX_PACKETS_PER_SECOND;
      }
      SlowFrom(Counted(l, now), times, k + 1);
      assert times[k..][1..] == times[k + 1..];
    }
  }

  /** A new window allows every trace with at most 200 packets in any half-open second. */
  lemma SlowSendersAreAllowed(l: Limiter, times: seq<real>)
    requires l.count == 0 && Monotone(l, times)
    requires AtMostPerSecond(times, MAX_PACKETS_PER_SECOND)
    ensures AllAllowed(l, times)
  {
    SlowFrom(l, times, 0);
    assert times[0..] == times;
  }
}
