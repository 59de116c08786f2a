/** The read chain of a gateway session (GameServer/Session/GatewaySession.cpp:109-225): why the
    cleanup is the last task of its session on the game strand, and when there is no cleanup.

    A chain of reads is the list of its results.  Each packet posts one task and starts the next
    read, where `Quiet` packets (attacks, chat, anything malformed or unknown) post tasks that
    leave the player state alone; a failed read posts the cleanup; a header with an impossible
    size stops the chain without posting anything.
 */
module GatewayReader {
  import opened ZoneIndex
  import opened World
  import opened WorldRuns

  datatype Read = Packet(task: Event) | Quiet | BadHeader | Failed

  /** The tasks on players a session posts to the game strand, in posting order. */
  function Posted(gw: Gateway, chain: seq<Read>): seq<Event> {
    if chain == [] then []
    else match chain[0]
      case Packet(task) => [task] + Posted(gw, chain[1..])
      case Quiet => Posted(gw, chain[1..])
      case BadHeader => []
      case Failed => [Down(gw)]
  }

  /** Packets on players are moves and leaves dispatched with their session. */
  ghost predicate OwnReads(gw: Gateway, chain: seq<Read>) {
    forall i :: 0 <= i < |chain| && chain[i].Packet? ==>
      (chain[i].task.Move? || chain[i].task.Leave?) && chain[i].task.gw == gw
  }

  /** The reads up to and including the one that ends the chain. */
  function Chain(chain: seq<Read>): seq<Read> {
    if chain == [] then []
    else if chain[0].Packet? || chain[0].Quiet? then [chain[0]] + Chain(chain[1..])
    else [chain[0]]
  }

  predicate EndsInFailure(chain: seq<Read>) {
    |Chain(chain)| > 0 && Chain(chain)[|Chain(chain)| - 1] == Failed
  }

  /** The tasks of one session among the tasks of the strand. */
  function OfGateway(events: seq<Event>, g: Gateway): seq<Event> {
    if events == [] then []
    else if FromGateway(events[0], g) then [events[0]] + OfGateway(events[1..], g)
    else OfGateway(events[1..], g)
  }

  /** `events` interleaves the posted tasks of the sessions, each in posting order. */
  ghost predicate StrandLog(events: seq<Event>, sessions: map<Gateway, seq<Read>>) {
    && (forall g :: g in sessions ==> OwnReads(g, sessions[g]) && OfGateway(events, g) <= Posted(g, sessions[g]))
    && (forall e :: e in events && !e.Hit? ==> e.gw in sessions)
  }

  lemma {:induction false} DownIsLast(gw: Gateway, chain: seq<Read>, i: nat)
    requires OwnReads(gw, chain) && i < |Posted(gw, chain)|
    ensures Posted(gw, chain)[i].Down? ==> i == |Posted(gw, chain)| - 1
    decreases |chain|
  {
    if chain != [] {
      if chain[0].Quiet? {
        DownIsLast(gw, chain[1..], i);
      } else if chain[0].Packet? && i > 0 {
        DownIsLast(gw, chain[1..], i - 1);
      }
    }
  }

  /** How many of the reads are packets on players. */
  function Packets(chain: seq<Read>): nat {
    if chain == [] then 0 else (if chain[0].Packet? then 1 else 0) + Packets(chain[1..])
  }

  /** Every packet read before the chain ends is posted, in the order of arrival. */
  lemma {:induction false} PacketIsPosted(gw: Gateway, chain: seq<Read>, i: nat)
    requires i < |chain| && chain[i].Packet?
    requires forall j :: 0 <= j < i ==> chain[j].Packet? || chain[j].Quiet?
    ensures Packets(chain[..i]) < |Posted(gw, chain)| && Posted(gw, chain)[Packets(chain[..i])] == chain[i].task
    decreases i
  {
    if i > 0 {
      assert chain[..i][1..] == chain[1..][..i - 1];
      PacketIsPosted(gw, chain[1..], i - 1);
    }
  }

  /** The session posts its cleanup if and only if its chain ends in a failed read. */
  lemma {:induction false} CleanupPostedIff(gw: Gateway, chain: seq<Read>)
    requires OwnReads(gw, chain)
    ensures Down(gw) in Posted(gw, chain) <==> EndsInFailure(chain)
  {
    if chain != [] && (chain[0].Packet? || chain[0].Quiet?) {
      CleanupPostedIff(gw, chain[1..]);
      assert chain[0].Packet? ==> chain[0].task != Down(gw);
      var rest := Chain(chain[1..]);
      assert Chain(chain) == [chain[0]] + rest;
      assert rest != [] ==> Chain(chain)[|Chain(chain)| - 1] == rest[|rest| - 1];
    }
  }

  lemma {:induction false} OfGatewaySplit(a: seq<Event>, b: seq<Event>, g: Gateway)
    ensures OfGateway(a + b, g) == OfGateway(a, g) + OfGateway(b, g)
  {
    if a == [] {
      assert a + b == b;
    } else {
      assert (a + b)[1..] == a[1..] + b;
      OfGatewaySplit(a[1..], b, g);
    }
  }

  lemma {:induction false} OfGatewayMember(events: seq<Event>, g: Gateway, e: Event)
    ensures FromGateway(e, g) ==> (e in events <==> e in OfGateway(events, g))
  {
    if events != [] {
      OfGatewayMember(events[1..], g, e);
      assert events == [events[0]] + events[1..];
    }
  }

  /** Whatever the interleaving, no task of a session runs after its cleanup. */
  lemma LogIsFifo(events: seq<Event>, sessions: map<Gateway, seq<Read>>)
    requires StrandLog(events, sessions)
    ensures Fifo(events)
  {
    forall i, j | 0 <= i < j < |events| && events[i].Down?
      ensures !FromGateway(events[j], events[i].gw)
    {
      NothingAfterCleanup(events, sessions, i, j);
    }
  }

  lemma NothingAfterCleanup(events: seq<Event>, sessions: map<Gateway, seq<Read>>, i: nat, j: nat)
    requires StrandLog(events, sessions)
    requires i < j < |events| && events[i].Down?
    ensures !FromGateway(events[j], events[i].gw)
  {
    var g := events[i].gw;
    assert events[i] in events;
    var before, after := events[..i], events[i + 1..];
    assert events == before + ([events[i]] + after);
    OfGatewaySplit(before, [events[i]] + after, g);
    OfGatewaySplit([events[i]], after, g);
    assert OfGateway([events[i]], g) == [events[i]] + OfGateway([], g);
    var k := |OfGateway(before, g)|;
    assert OfGateway(events, g)[k] == events[i];
    DownIsLast(g, sessions[g], k);
    assert OfGateway(after, g) == [];
    assert after[j - i - 1] == events[j];
    OfGatewayMember(after, g, events[j]);
  }

  /** Only moves create gateway sets. */
  lemma {:induction false} EveryGatewayMoved(layout: Layout, events: seq<Event>, g: Gateway) returns (e: Event)
    requires layout.Positive() && g in Run(layout, Empty, events).gateways
    ensures e in events && e.Move? && e.gw == g
    decreases |events|
  {
    var init, last := events[..|events| - 1], events[|events| - 1];
    if g in Run(layout, Empty, init).gateways {
      e := EveryGatewayMoved(layout, init, g);
    } else {
      e := last;
    }
  }

  /** Once the strand has run everything the sessions posted, every online account is covered
      by a session whose chain did not end in a failed read. */
  lemma OnlineAccountsHaveNoFailedSession(layout: Layout, events: seq<Event>, sessions: map<Gateway, seq<Read>>,
                                          acc: string)
    requires layout.Positive() && StrandLog(events, sessions)
    requires forall g :: g in sessions ==> OfGateway(events, g) == Posted(g, sessions[g])
    requires acc in Run(layout, Empty, events).players
    ensures exists g :: g in Run(layout, Empty, events).gateways && acc in Run(layout, Empty, events).gateways[g] &&
                        g in sessions && !EndsInFailure(sessions[g])
  {
    var w := Run(layout, Empty, events);
    LogIsFifo(events, sessions);
    NoZombies(layout, events);
    var g :| g in w.gateways && acc in w.gateways[g] && Down(g) !in events;
    var e := EveryGatewayMoved(layout, events, g);
    OfGatewayMember(events, g, Down(g));
    CleanupPostedIff(g, sessions[g]);
  }

  /** A chain that stops at a bad header leaves its accounts online for good. */
  lemma BadHeaderKeepsAccounts(layout: Layout)
    requires layout.Positive()
    ensures var chain := [Packet(Move(3, "a", 0.0, 0.0)), BadHeader, Failed];
            !EndsInFailure(chain) && "a" in Run(layout, Empty, Posted(3, chain)).players
  {
    var e := Move(3, "a", 0.0, 0.0);
    var chain := [Packet(e), BadHeader, Failed];
    assert chain[1..][0] == BadHeader && Posted(3, chain[1..]) == [] && Chain(chain[1..]) == [BadHeader];
    assert Posted(3, chain) == [e] + [] == [e];
    assert [e][..0] == [];
    assert Run(layout, Empty, [e]) == Step(layout, Run(layout, Empty, []), e);
  }
}
