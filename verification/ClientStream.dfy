/** The packet stream from a client to its gateway session: the sender is `SendPacket` of
    DummyClient/Network/PacketUtils.cpp and StressTestTool/Session/StressSession.cpp, the
    receiver the read chain of GatewayServer/Session/ClientSession.cpp:175-320.
 */
module ClientStream {
  import opened Wrappers
  import opened Crypto
  import opened RateLimiter

  const HEADER_SIZE := 4
  const MAX_PACKET_SIZE := 4096
  const MAX_RATE_VIOLATIONS := 5
  /** Largest number of sequence numbers the receiver may have missed since its last packet. */
  const MAX_GAP := 999

  /** A packet to send, with the random vector drawn for it. */
  datatype Packet = Packet(id: nat, payload: seq<Byte>, iv: seq<Byte>)

  datatype Message = Message(id: nat, payload: seq<Byte>)

  // ---- Sender ----

  function Frame(id: nat, body: seq<Byte>): seq<Byte> {
    ToBytes(HEADER_SIZE + |body|, 2) + ToBytes(id, 2) + body
  }

  /** An empty payload cannot be encrypted and is sent as it is. */
  function Body(c: Cipher, secure: bool, seqNum: nat, p: Packet): seq<Byte> {
    if secure && p.payload != [] then Seal(c, seqNum, p.iv, p.payload) else p.payload
  }

  function NextSequence(secure: bool, seqNum: nat, p: Packet): nat {
    if secure && p.payload != [] then (seqNum + 1) % SEQUENCES else seqNum
  }

  function Encode(c: Cipher, secure: bool, seqNum: nat, packets: seq<Packet>): seq<Byte>
    decreases |packets|
  {
    if packets == [] then []
    else Frame(packets[0].id, Body(c, secure, seqNum, packets[0])) +
         Encode(c, secure, NextSequence(secure, seqNum, packets[0]), packets[1..])
  }

  function FrameSize(secure: bool, n: nat): nat {
    if secure && n > 0 then HEADER_SIZE + SEQUENCE_NUM_SIZE + IV_SIZE + AES_BLOCK_SIZE * (n / AES_BLOCK_SIZE + 1)
    else HEADER_SIZE + n
  }

  predicate Sendable(secure: bool, p: Packet) {
    p.id < 0x1_0000 && |p.iv| == IV_SIZE && FrameSize(secure, |p.payload|) <= MAX_PACKET_SIZE
  }

  /** The size limit of the receiver in terms of the payload. */
  lemma LargestPayload(n: nat)
    ensures FrameSize(true, n) <= MAX_PACKET_SIZE <==> n <= 4063
    ensures FrameSize(false, n) <= MAX_PACKET_SIZE <==> n <= 4092
  {
  }

  /** Builds and returns the frame written to the socket; null stands for no encryption. */
  method SendPacket(crypto: PacketCrypto?, id: nat, payload: seq<Byte>, iv: seq<Byte>) returns (frame: seq<Byte>)
    requires crypto != null ==> crypto.Valid()
    modifies crypto
    ensures crypto == null ==> frame == Frame(id, payload)
    ensures crypto != null ==>
              && crypto.Valid()
              && frame == Frame(id, Body(crypto.cipher, true, old(crypto.sendSequence), Packet(id, payload, iv)))
              && crypto.sendSequence == NextSequence(true, old(crypto.sendSequence), Packet(id, payload, iv))
              && crypto.recvSequence == old(crypto.recvSequence)
  {
    var final := payload;
    if crypto != null {
      var sealed := crypto.Encrypt(payload, iv);
      if sealed.Some? {
        final := sealed.value;
      }
    }
    frame := ToBytes(HEADER_SIZE + |final|, 2);
    frame := frame + ToBytes(id, 2);
    frame := frame + final;
  }

  // ---- Receiver ----

  datatype Config = Config(cipher: Cipher, secure: bool, handlers: set<nat>)

  datatype Receiver = Receiver(limiter: Limiter, violations: nat, lastSeq: nat, reading: bool, delivered: seq<Message>)

  /** A header counts against the limit before its payload is read. */
  function OnHeader(r: Receiver, now: real): Receiver {
    var counted := r.(limiter := Counted(r.limiter, now));
    if Allows(r.limiter, now) then counted.(violations := 0)
    else counted.(violations := r.violations + 1, reading := r.violations + 1 < MAX_RATE_VIOLATIONS)
  }

  /** What the payload of an allowed frame does: look up, decrypt, dispatch. */
  function OnBody(cfg: Config, r: Receiver, id: nat, body: seq<Byte>): Receiver {
    if id !in cfg.handlers then r
    else if body == [] || !cfg.secure then r.(delivered := r.delivered + [Message(id, body)])
    else
      match Open(cfg.cipher, r.lastSeq, body)
      case Some((plain, seqNum)) => r.(lastSeq := seqNum, delivered := r.delivered + [Message(id, plain)])
      case None => r.(reading := false)
  }

  /** A frame over the limit is read and dropped. */
  function OnFrame(cfg: Config, r: Receiver, id: nat, body: seq<Byte>, now: real): Receiver {
    if Allows(r.limiter, now) then OnBody(cfg, OnHeader(r, now), id, body) else OnHeader(r, now)
  }

  /** Reads a byte stream; the i-th header arrives at times[i].  An incomplete header waits; an
      incomplete payload waits too, but its header has been counted. */
  function Receive(cfg: Config, r: Receiver, stream: seq<Byte>, times: seq<real>): Receiver
    decreases |stream|
  {
    if !r.reading || |stream| < HEADER_SIZE || times == [] then r
    else
      var size, id := FromBytes(stream[..2]), FromBytes(stream[2..4]);
      if size < HEADER_SIZE || size > MAX_PACKET_SIZE then r.(reading := false)
      else if size > |stream| then OnHeader(r, times[0])
      else Receive(cfg, OnFrame(cfg, r, id, stream[HEADER_SIZE..size], times[0]), stream[size..], times[1..])
  }

  class ClientSession {
    const handlers: set<nat>
    const limiter: PacketRateLimiter
    const crypto: PacketCrypto
    var cryptoEnabled: bool
    var violations: nat
    var reading: bool
    var delivered: seq<Message>

    ghost predicate Valid()
      reads crypto
    {
      crypto.Valid()
    }

    ghost function Cfg(): Config
      reads this`cryptoEnabled
    {
      Config(crypto.cipher, cryptoEnabled, handlers)
    }

    ghost function Value(): Receiver
      reads this, limiter, crypto
    {
      Receiver(limiter.Value(), violations, crypto.recvSequence, reading, delivered)
    }

    constructor (cipher: Cipher, handlers: set<nat>, now: real)
      ensures Valid() && fresh(limiter) && fresh(crypto) && Cfg() == Config(cipher, false, handlers)
      ensures Value() == Receiver(Limiter(now, 0), 0, 0, true, [])
    {
      this.handlers := handlers;
      limiter := new PacketRateLimiter(now);
      crypto := new PacketCrypto(cipher);
      cryptoEnabled, violations, reading, delivered := false, 0, true, [];
    }

    method EnableEncryption()
      modifies this`cryptoEnabled
      ensures Cfg() == old(Cfg()).(secure := true)
    {
      cryptoEnabled := true;
    }

    /** The rate limit, on arrival of a header. */
    method HandleHeader(now: real) returns (ok: bool)
      requires Valid() && reading
      modifies this`violations, this`reading, limiter
      ensures Valid() && Value() == OnHeader(old(Value()), now)
      ensures ok == Allows(old(limiter.Value()), now)
    {
      ok := limiter.AllowPacket(now);
      if ok {
        violations := 0;
      } else {
        violations := violations + 1;
        if violations >= MAX_RATE_VIOLATIONS {
          reading := false;
        }
      }
    }

    /** The payload of an allowed frame. */
    method HandleBody(id: nat, body: seq<Byte>)
      requires Valid() && reading
      modifies this`reading, this`delivered, crypto`recvSequence
      ensures Valid() && Value() == OnBody(Cfg(), old(Value()), id, body)
    {
      if id !in handlers {
        return;
      }
      if |body| == 0 {
        delivered := delivered + [Message(id, [])];
        return;
      }
      if !cryptoEnabled {
        delivered := delivered + [Message(id, body)];
        return;
      }
      var plain := crypto.Decrypt(body);
      if plain.None? {
        reading := false;
        return;
      }
      delivered := delivered + [Message(id, plain.value)];
    }

    method HandleFrame(id: nat, body: seq<Byte>, now: real)
      requires Valid() && reading
      modifies this`violations, this`reading, this`delivered, limiter, crypto`recvSequence
      ensures Valid() && Value() == OnFrame(Cfg(), old(Value()), id, body, now)
    {
      var ok := HandleHeader(now);
      if ok {
        HandleBody(id, body);
      }
    }

    /** The chain of header and payload reads. */
    method ReadStream(stream: seq<Byte>, times: seq<real>)
      requires Valid()
      modifies this`violations, this`reading, this`delivered, limiter, crypto`recvSequence
      ensures Valid() && Value() == Receive(Cfg(), old(Value()), stream, times)
    {
      var pos, i := 0, 0;
      while reading && pos + HEADER_SIZE <= |stream| && i < |times|
        invariant Valid() && 0 <= pos <= |stream| && 0 <= i <= |times|
        invariant Receive(Cfg(), old(Value()), stream, times) == Receive(Cfg(), Value(), stream[pos..], times[i..])
        decreases |times| - i
      {
        ghost var rest, ahead := stream[pos..], times[i..];
        assert rest[..2] == stream[pos..pos + 2] && rest[2..4] == stream[pos + 2..pos + 4];
        var size, id := FromBytes(stream[pos..pos + 2]), FromBytes(stream[pos + 2..pos + 4]);
        if size < HEADER_SIZE || size > MAX_PACKET_SIZE {
          reading := false;
          return;
        }
        if size > |stream| - pos {
          var _ := HandleHeader(times[i]);
          return;
        }
        assert rest[HEADER_SIZE..size] == stream[pos + HEADER_SIZE..pos + size] && rest[size..] == stream[pos + size..];
        assert ahead[1..] == times[i + 1..];
        HandleFrame(id, stream[pos + HEADER_SIZE..pos + size], times[i]);
        pos, i := pos + size, i + 1;
      }
    }
  }

  // ---- The abstract link ----

  /** A link that moves packets instead of bytes: it limits and filters like the session, but
      keeps no key and no numbers, only how many numbers were skipped since the last decryption. */
  datatype Link = Link(limiter: Limiter, violations: nat, gap: nat, reading: bool, delivered: seq<Message>)

  function Skipped(secure: bool, p: Packet): nat {
    if secure && p.payload != [] then 1 else 0
  }

  function Transfer(secure: bool, handlers: set<nat>, l: Link, p: Packet, now: real): Link {
    var counted := l.(limiter := Counted(l.limiter, now));
    if !l.reading then l
    else if !Allows(l.limiter, now) then
      counted.(violations := l.violations + 1, reading := l.violations + 1 < MAX_RATE_VIOLATIONS,
               gap := l.gap + Skipped(secure, p))
    else if p.id !in handlers then counted.(violations := 0, gap := l.gap + Skipped(secure, p))
    else counted.(violations := 0, gap := if Skipped(secure, p) == 1 then 0 else l.gap,
                  delivered := l.delivered + [Message(p.id, p.payload)])
  }

  function TransferAll(secure: bool, handlers: set<nat>, l: Link, packets: seq<Packet>, times: seq<real>): Link
    requires |packets| == |times|
    decreases |packets|
  {
    if packets == [] then l
    else TransferAll(secure, handlers, Transfer(secure, handlers, l, packets[0], times[0]), packets[1..], times[1..])
  }

  /** No decryption happens after more than MAX_GAP skipped numbers. */
  predicate WithinWindow(secure: bool, handlers: set<nat>, l: Link, packets: seq<Packet>, times: seq<real>)
    requires |packets| == |times|
    decreases |packets|
  {
    packets == [] || !l.reading ||
    (&& (Opens(secure, handlers, l, packets[0], times[0]) ==> l.gap <= MAX_GAP)
     && WithinWindow(secure, handlers, Transfer(secure, handlers, l, packets[0], times[0]), packets[1..], times[1..]))
  }

  /** The packet gets as far as decryption. */
  predicate Opens(secure: bool, handlers: set<nat>, l: Link, p: Packet, now: real) {
    l.reading && Skipped(secure, p) == 1 && p.id in handlers && Allows(l.limiter, now)
  }

  /** A link with the numbers on both sides: the last one opened and the next one to send. */
  datatype Numbered = Numbered(link: Link, last: nat, next: nat)

  function Advance(secure: bool, handlers: set<nat>, k: Numbered, p: Packet, now: real): Numbered {
    if !k.link.reading then k
    else Numbered(Transfer(secure, handlers, k.link, p, now),
                  if Opens(secure, handlers, k.link, p, now) then k.next else k.last,
                  NextSequence(secure, k.next, p))
  }

  function AdvanceAll(secure: bool, handlers: set<nat>, k: Numbered, packets: seq<Packet>, times: seq<real>): Numbered
    requires |packets| == |times|
    decreases |packets|
  {
    if packets == [] then k
    else AdvanceAll(secure, handlers, Advance(secure, handlers, k, packets[0], times[0]), packets[1..], times[1..])
  }

  /** If the packet gets as far as decryption, its number is inside the window. */
  predicate Passes(secure: bool, handlers: set<nat>, k: Numbered, p: Packet, now: real) {
    Opens(secure, handlers, k.link, p, now) ==> ValidSequence(k.last, k.next)
  }

  predicate AllPass(secure: bool, handlers: set<nat>, k: Numbered, packets: seq<Packet>, times: seq<real>)
    requires |packets| == |times|
    decreases |packets|
  {
    packets == [] ||
    (&& Passes(secure, handlers, k, packets[0], times[0])
     && AllPass(secure, handlers, Advance(secure, handlers, k, packets[0], times[0]), packets[1..], times[1..]))
  }

  /** The receiver agrees with the link and its numbers. */
  ghost predicate InSync(secure: bool, k: Numbered, r: Receiver) {
    && k.link.limiter == r.limiter && k.link.violations == r.violations
    && k.link.reading == r.reading && k.link.delivered == r.delivered
    && (secure && r.reading ==> k.next < SEQUENCES && k.last == r.lastSeq)
  }

  /** The last number is `gap` + 1 behind the next one, or nothing was opened yet. */
  ghost predicate Spaced(k: Numbered) {
    && k.last < SEQUENCES && k.next < SEQUENCES
    && (k.next == (k.last + 1 + k.link.gap) % SEQUENCES || (k.last == 0 && k.next == k.link.gap % SEQUENCES))
  }

  lemma SealedLength(c: Cipher, secure: bool, seqNum: nat, p: Packet)
    requires Works(c) && Sendable(secure, p)
    ensures HEADER_SIZE + |Body(c, secure, seqNum, p)| == FrameSize(secure, |p.payload|)
    ensures Body(c, secure, seqNum, p) == [] <==> p.payload == []
  {
  }

  /** Parsing a stream that begins with a frame takes off exactly that frame. */
  lemma ParseFrame(cfg: Config, r: Receiver, id: nat, body: seq<Byte>, rest: seq<Byte>, times: seq<real>)
    requires r.reading && times != [] && id < 0x1_0000 && HEADER_SIZE + |body| <= MAX_PACKET_SIZE
    ensures Receive(cfg, r, Frame(id, body) + rest, times)
         == Receive(cfg, OnFrame(cfg, r, id, body, times[0]), rest, times[1..])
  {
    var size, stream := HEADER_SIZE + |body|, Frame(id, body) + rest;
    SmallPowers();
    BytesRoundTrip(size, 2);
    BytesRoundTrip(id, 2);
    assert stream[..2] == ToBytes(size, 2);
    assert stream[2..4] == ToBytes(id, 2);
    assert stream[HEADER_SIZE..size] == body;
    assert stream[size..] == rest;
  }

  lemma NextInWindow(last: nat, seqNum: nat, gap: nat)
    requires last < SEQUENCES && seqNum < SEQUENCES && gap <= MAX_GAP
    requires seqNum == (last + 1 + gap) % SEQUENCES || (last == 0 && seqNum == gap % SEQUENCES)
    ensures ValidSequence(last, seqNum)
  {
    if seqNum == (last + 1 + gap) % SEQUENCES {
      ForwardWindow(last, 1 + gap);
    }
  }

  lemma SkipKeepsDistance(last: nat, seqNum: nat, gap: nat)
    requires last < SEQUENCES && seqNum < SEQUENCES
    requires seqNum == (last + 1 + gap) % SEQUENCES || (last == 0 && seqNum == gap % SEQUENCES)
    ensures (seqNum + 1) % SEQUENCES == (last + 1 + (gap + 1)) % SEQUENCES ||
            (last == 0 && (seqNum + 1) % SEQUENCES == (gap + 1) % SEQUENCES)
  {
    if seqNum == (last + 1 + gap) % SEQUENCES {
      NextResidue(last + 1 + gap);
    } else {
      NextResidue(gap);
    }
  }

  lemma NextResidue(n: nat)
    ensures (n % SEQUENCES + 1) % SEQUENCES == (n + 1) % SEQUENCES
  {
    var q, r := n / SEQUENCES, n % SEQUENCES;
    assert n + 1 == q * SEQUENCES + (r + 1);
  }

  /** One frame keeps receiver and link in step if its number passes the window; otherwise the
      receiver stops without delivering it. */
  lemma FrameKeepsSync(cfg: Config, k: Numbered, r: Receiver, p: Packet, now: real)
    requires Works(cfg.cipher) && Sendable(cfg.secure, p) && r.reading && InSync(cfg.secure, k, r)
    ensures var out := OnFrame(cfg, r, p.id, Body(cfg.cipher, cfg.secure, k.next, p), now);
            if Passes(cfg.secure, cfg.handlers, k, p, now) then
              InSync(cfg.secure, Advance(cfg.secure, cfg.handlers, k, p, now), out)
            else
              !out.reading && out.delivered == r.delivered
  {
    SealedLength(cfg.cipher, cfg.secure, k.next, p);
    if Opens(cfg.secure, cfg.handlers, k.link, p, now) {
      SealOpens(cfg.cipher, r.lastSeq, k.next, p.iv, p.payload);
    }
  }

  lemma {:induction false} DeliveredGrows(secure: bool, handlers: set<nat>, l: Link, packets: seq<Packet>,
                                          times: seq<real>)
    requires |packets| == |times|
    ensures |TransferAll(secure, handlers, l, packets, times).delivered| >= |l.delivered|
    decreases |packets|
  {
    if packets != [] {
      DeliveredGrows(secure, handlers, Transfer(secure, handlers, l, packets[0], times[0]), packets[1..], times[1..]);
    }
  }

  /** The byte stream delivers exactly what the link delivers if and only if every number that
      gets as far as decryption is inside the window, across the wrap of the 32-bit number. */
  lemma {:induction false} StreamRefinesLinkIff(cfg: Config, k: Numbered, r: Receiver, packets: seq<Packet>,
                                                times: seq<real>)
    requires Works(cfg.cipher) && |packets| == |times| && InSync(cfg.secure, k, r)
    requires forall i :: 0 <= i < |packets| ==> Sendable(cfg.secure, packets[i])
    ensures var out := Receive(cfg, r, Encode(cfg.cipher, cfg.secure, k.next, packets), times);
            var ideal := TransferAll(cfg.secure, cfg.handlers, k.link, packets, times);
            if AllPass(cfg.secure, cfg.handlers, k, packets, times) then
              out.delivered == ideal.delivered && out.reading == ideal.reading && out.violations == ideal.violations
            else
              !out.reading && |out.delivered| < |ideal.delivered|
    decreases |packets|
  {
    if !r.reading {
      ClosedLinkStays(cfg.secure, cfg.handlers, k.link, packets, times);
      ClosedLinkPasses(cfg.secure, cfg.handlers, k, packets, times);
    } else if packets != [] {
      var p, next := packets[0], Advance(cfg.secure, cfg.handlers, k, packets[0], times[0]);
      var body := Body(cfg.cipher, cfg.secure, k.next, p);
      SealedLength(cfg.cipher, cfg.secure, k.next, p);
      ParseFrame(cfg, r, p.id, body, Encode(cfg.cipher, cfg.secure, next.next, packets[1..]), times);
      FrameKeepsSync(cfg, k, r, p, times[0]);
      if Passes(cfg.secure, cfg.handlers, k, p, times[0]) {
        StreamRefinesLinkIff(cfg, next, OnFrame(cfg, r, p.id, body, times[0]), packets[1..], times[1..]);
      } else {
        DeliveredGrows(cfg.secure, cfg.handlers, next.link, packets[1..], times[1..]);
      }
    }
  }

  lemma {:induction false} ClosedLinkPasses(secure: bool, handlers: set<nat>, k: Numbered, packets: seq<Packet>,
                                            times: seq<real>)
    requires |packets| == |times| && !k.link.reading
    ensures AllPass(secure, handlers, k, packets, times)
    decreases |packets|
  {
    if packets != [] {
      ClosedLinkPasses(secure, handlers, k, packets[1..], times[1..]);
    }
  }

  /** Up to MAX_GAP skipped numbers are always inside the window. */
  lemma {:induction false} WithinWindowPasses(secure: bool, handlers: set<nat>, k: Numbered, packets: seq<Packet>,
                                              times: seq<real>)
    requires |packets| == |times| && Spaced(k)
    requires WithinWindow(secure, handlers, k.link, packets, times)
    ensures AllPass(secure, handlers, k, packets, times)
    decreases |packets|
  {
    if !k.link.reading {
      ClosedLinkPasses(secure, handlers, k, packets, times);
    } else if packets != [] {
      if Opens(secure, handlers, k.link, packets[0], times[0]) {
        NextInWindow(k.last, k.next, k.link.gap);
      } else if Skipped(secure, packets[0]) == 1 {
        SkipKeepsDistance(k.last, k.next, k.link.gap);
      }
      var next := Advance(secure, handlers, k, packets[0], times[0]);
      WithinWindowPasses(secure, handlers, next, packets[1..], times[1..]);
    }
  }

  lemma {:induction false} ClosedLinkStays(secure: bool, handlers: set<nat>, l: Link, packets: seq<Packet>,
                                           times: seq<real>)
    requires |packets| == |times| && !l.reading
    ensures TransferAll(secure, handlers, l, packets, times) == l
    decreases |packets|
  {
    if packets != [] {
      ClosedLinkStays(secure, handlers, l, packets[1..], times[1..]);
    }
  }

  /** While no decryption comes after more than MAX_GAP skipped numbers, the byte stream delivers
      exactly what the link delivers. */
  lemma StreamRefinesLink(cfg: Config, k: Numbered, r: Receiver, packets: seq<Packet>, times: seq<real>)
    requires Works(cfg.cipher) && |packets| == |times| && InSync(cfg.secure, k, r) && Spaced(k)
    requires forall i :: 0 <= i < |packets| ==> Sendable(cfg.secure, packets[i])
    requires WithinWindow(cfg.secure, cfg.handlers, k.link, packets, times)
    ensures var out := Receive(cfg, r, Encode(cfg.cipher, cfg.secure, k.next, packets), times);
            var ideal := TransferAll(cfg.secure, cfg.handlers, k.link, packets, times);
            out.delivered == ideal.delivered && out.reading == ideal.reading && out.violations == ideal.violations
  {
    WithinWindowPasses(cfg.secure, cfg.handlers, k, packets, times);
    StreamRefinesLinkIff(cfg, k, r, packets, times);
  }

  /** A receiver with the sender one number ahead, or both new. */
  function Fresh(r: Receiver, seqNum: nat): Numbered {
    Numbered(Link(r.limiter, r.violations, 0, r.reading, r.delivered), r.lastSeq, seqNum)
  }

  ghost predicate InStep(r: Receiver, seqNum: nat) {
    && r.lastSeq < SEQUENCES && seqNum < SEQUENCES
    && (seqNum == (r.lastSeq + 1) % SEQUENCES || (seqNum == 0 && r.lastSeq == 0))
  }

  lemma FreshIsSpaced(secure: bool, r: Receiver, seqNum: nat)
    requires InStep(r, seqNum)
    ensures Spaced(Fresh(r, seqNum)) && InSync(secure, Fresh(r, seqNum), r)
  {
  }

  // ---- What the link guarantees ----

  function Messages(packets: seq<Packet>): seq<Message> {
    if packets == [] then [] else [Message(packets[0].id, packets[0].payload)] + Messages(packets[1..])
  }

  lemma {:induction false} AllowedPacketsArrive(secure: bool, handlers: set<nat>, l: Link, packets: seq<Packet>,
                                                times: seq<real>)
    requires |packets| == |times| && l.reading && l.gap == 0
    requires forall i :: 0 <= i < |packets| ==> packets[i].id in handlers
    requires AllAllowed(l.limiter, times)
    ensures WithinWindow(secure, handlers, l, packets, times)
    ensures TransferAll(secure, handlers, l, packets, times).reading
    ensures TransferAll(secure, handlers, l, packets, times).delivered == l.delivered + Messages(packets)
    decreases |packets|
  {
    if packets != [] {
      var next := Transfer(secure, handlers, l, packets[0], times[0]);
      var head := [Message(packets[0].id, packets[0].payload)];
      assert next.delivered == l.delivered + head && next.gap == 0 && next.reading;
      AllowedPacketsArrive(secure, handlers, next, packets[1..], times[1..]);
      assert (l.delivered + head) + Messages(packets[1..]) == l.delivered + (head + Messages(packets[1..]));
    }
  }

  /** Round trip: packets with handled ids, sent within the rate limit by a sender in step with
      the receiver, come out as the ids and payloads sent, in order. */
  lemma RoundTrip(cfg: Config, r: Receiver, seqNum: nat, packets: seq<Packet>, times: seq<real>)
    requires Works(cfg.cipher) && |packets| == |times| && r.reading && InStep(r, seqNum)
    requires forall i :: 0 <= i < |packets| ==> Sendable(cfg.secure, packets[i]) && packets[i].id in cfg.handlers
    requires AllAllowed(r.limiter, times)
    ensures var out := Receive(cfg, r, Encode(cfg.cipher, cfg.secure, seqNum, packets), times);
            out.reading && out.delivered == r.delivered + Messages(packets)
  {
    AllowedPacketsArrive(cfg.secure, cfg.handlers, Fresh(r, seqNum).link, packets, times);
    FreshIsSpaced(cfg.secure, r, seqNum);
    StreamRefinesLink(cfg, Fresh(r, seqNum), r, packets, times);
  }

  /** In particular from a new window, when at most 200 packets arrive in any half-open second. */
  lemma RoundTripBelowLimit(cfg: Config, r: Receiver, seqNum: nat, packets: seq<Packet>, times: seq<real>)
    requires Works(cfg.cipher) && |packets| == |times| && r.reading && InStep(r, seqNum)
    requires forall i :: 0 <= i < |packets| ==> Sendable(cfg.secure, packets[i]) && packets[i].id in cfg.handlers
    requires r.limiter.count == 0 && Monotone(r.limiter, times) && AtMostPerSecond(times, MAX_PACKETS_PER_SECOND)
    ensures var out := Receive(cfg, r, Encode(cfg.cipher, cfg.secure, seqNum, packets), times);
            out.reading && out.delivered == r.delivered + Messages(packets)
  {
    SlowSendersAreAllowed(r.limiter, times);
    RoundTrip(cfg, r, seqNum, packets, times);
  }

  // ---- Rate drops ----

  /** Violations are exactly the headers of the current window beyond the limit. */
  ghost predicate Paced(limiter: Limiter, violations: nat) {
    && violations < MAX_RATE_VIOLATIONS
    && violations == if limiter.count <= MAX_PACKETS_PER_SECOND then 0 else limiter.count - MAX_PACKETS_PER_SECOND
  }

  lemma TransferKeepsPace(secure: bool, handlers: set<nat>, l: Link, p: Packet, now: real)
    requires l.reading && Paced(l.limiter, l.violations)
    ensures var next := Transfer(secure, handlers, l, p, now);
            if next.reading then Paced(next.limiter, next.violations) else next.violations == MAX_RATE_VIOLATIONS
  {
  }

  /** How many limiter windows have begun since the last decryption, w of them before. */
  function Windows(secure: bool, handlers: set<nat>, l: Link, w: nat, packets: seq<Packet>, times: seq<real>): nat
    requires |packets| == |times|
    decreases |packets|
  {
    if packets == [] then w
    else
      var w' := if Opens(secure, handlers, l, packets[0], times[0]) then 0
                else if Expired(l.limiter, times[0]) then w + 1 else w;
      Windows(secure, handlers, Transfer(secure, handlers, l, packets[0], times[0]), w', packets[1..], times[1..])
  }

  /** Whatever is sent and whenever, drops skip at most four numbers per limiter window. */
  lemma {:induction false} GapPerWindow(secure: bool, handlers: set<nat>, l: Link, w: nat, packets: seq<Packet>,
                                        times: seq<real>)
    requires |packets| == |times| && l.reading && Paced(l.limiter, l.violations)
    requires l.gap <= 4 * w + l.violations
    requires forall i :: 0 <= i < |packets| ==> packets[i].id in handlers
    ensures var out := TransferAll(secure, handlers, l, packets, times);
            out.reading ==> out.gap <= 4 * (Windows(secure, handlers, l, w, packets, times) + 1)
    decreases |packets|
  {
    if packets != [] {
      var next := Transfer(secure, handlers, l, packets[0], times[0]);
      TransferKeepsPace(secure, handlers, l, packets[0], times[0]);
      if next.reading {
        var w' := if Opens(secure, handlers, l, packets[0], times[0]) then 0
                  else if Expired(l.limiter, times[0]) then w + 1 else w;
        GapPerWindow(secure, handlers, next, w', packets[1..], times[1..]);
      } else {
        ClosedLinkStays(secure, handlers, next, packets[1..], times[1..]);
      }
    }
  }

  /** Never 200 empty packets in a row, of which e came before. */
  predicate Talkative(packets: seq<Packet>, e: nat)
    decreases |packets|
  {
    packets == [] ||
    var e' := if packets[0].payload == [] then e + 1 else 0;
    e' < MAX_PACKETS_PER_SECOND && Talkative(packets[1..], e')
  }

  /** The gap is covered by the violations of the current window, or the window has seen nothing
      but empty packets, e of them or fewer, so that it cannot drop any yet. */
  ghost predicate SmallGap(l: Link, e: nat) {
    l.gap <= l.violations || (l.gap <= 4 && l.violations == 0 && l.limiter.count <= e)
  }

  lemma {:induction false} DropsKeepWindow(secure: bool, handlers: set<nat>, l: Link, e: nat, packets: seq<Packet>,
                                           times: seq<real>)
    requires |packets| == |times| && l.reading && Paced(l.limiter, l.violations) && (secure ==> SmallGap(l, e))
    requires e < MAX_PACKETS_PER_SECOND && Talkative(packets, e)
    requires forall i :: 0 <= i < |packets| ==> packets[i].id in handlers
    ensures WithinWindow(secure, handlers, l, packets, times)
    ensures var out := TransferAll(secure, handlers, l, packets, times);
            !out.reading ==> out.violations == MAX_RATE_VIOLATIONS
    decreases |packets|
  {
    if packets != [] {
      var next := Transfer(secure, handlers, l, packets[0], times[0]);
      TransferKeepsPace(secure, handlers, l, packets[0], times[0]);
      if next.reading {
        var e' := if packets[0].payload == [] then e + 1 else 0;
        DropsKeepWindow(secure, handlers, next, e', packets[1..], times[1..]);
      } else {
        ClosedLinkStays(secure, handlers, next, packets[1..], times[1..]);
      }
    }
  }

  /** Rate drops alone never break a later decryption of a sender that never sends 200 empty
      packets in a row: with handled ids and any arrival times the stream delivers what the
      limiter lets through, and reading ends only after MAX_RATE_VIOLATIONS drops in a row. */
  lemma RateDropsAreHarmless(cfg: Config, r: Receiver, seqNum: nat, packets: seq<Packet>, times: seq<real>)
    requires Works(cfg.cipher) && |packets| == |times| && r.reading && InStep(r, seqNum)
    requires Paced(r.limiter, r.violations) && Talkative(packets, 0)
    requires forall i :: 0 <= i < |packets| ==> Sendable(cfg.secure, packets[i]) && packets[i].id in cfg.handlers
    ensures var out := Receive(cfg, r, Encode(cfg.cipher, cfg.secure, seqNum, packets), times);
            var ideal := TransferAll(cfg.secure, cfg.handlers, Fresh(r, seqNum).link, packets, times);
            out.delivered == ideal.delivered && (!out.reading ==> out.violations == MAX_RATE_VIOLATIONS)
  {
    DropsKeepWindow(cfg.secure, cfg.handlers, Fresh(r, seqNum).link, 0, packets, times);
    FreshIsSpaced(cfg.secure, r, seqNum);
    StreamRefinesLink(cfg, Fresh(r, seqNum), r, packets, times);
  }

  // ---- The drops that do break the stream ----

  function Times<T>(x: T, n: nat): (xs: seq<T>)
    ensures |xs| == n && forall i :: 0 <= i < n ==> xs[i] == x
  {
    if n == 0 then [] else [x] + Times(x, n - 1)
  }

  /** One window's worth: 200 empty packets, then four that are dropped. */
  function Burst(e: Packet, p: Packet): (burst: seq<Packet>)
    ensures |burst| == 204
  {
    Times(e, 200) + Times(p, 4)
  }

  function Bursts(e: Packet, p: Packet, n: nat): (packets: seq<Packet>)
    ensures |packets| == 204 * n
  {
    if n == 0 then [] else Bursts(e, p, n - 1) + Burst(e, p)
  }

  /** The i-th burst arrives i seconds after `start`. */
  function BurstTimes(start: real, n: nat): (times: seq<real>)
    ensures |times| == 204 * n
  {
    if n == 0 then [] else BurstTimes(start, n - 1) + Times(start + (n - 1) as real, 204)
  }

  lemma {:induction false} AdvanceSplit(secure: bool, handlers: set<nat>, k: Numbered,
                                        a: seq<Packet>, b: seq<Packet>, ta: seq<real>, tb: seq<real>)
    requires |a| == |ta| && |b| == |tb|
    ensures AdvanceAll(secure, handlers, k, a + b, ta + tb)
         == AdvanceAll(secure, handlers, AdvanceAll(secure, handlers, k, a, ta), b, tb)
    ensures AllPass(secure, handlers, k, a + b, ta + tb) ==>
              AllPass(secure, handlers, AdvanceAll(secure, handlers, k, a, ta), b, tb)
    decreases |a|
  {
    if a == [] {
      assert a + b == b && ta + tb == tb;
    } else {
      assert (a + b)[1..] == a[1..] + b && (ta + tb)[1..] == ta[1..] + tb;
      AdvanceSplit(secure, handlers, Advance(secure, handlers, k, a[0], ta[0]), a[1..], b, ta[1..], tb);
    }
  }

  /** The link reads, and its window has `count` headers and began at t. */
  ghost predicate Busy(k: Numbered, t: real, count: nat) {
    k.link.reading && k.link.limiter == Limiter(t, count)
    && k.link.violations == if count <= MAX_PACKETS_PER_SECOND then 0 else count - MAX_PACKETS_PER_SECOND
  }

  lemma {:induction false} EmptiesPass(handlers: set<nat>, k: Numbered, e: Packet, t: real, count: nat, n: nat)
    requires Busy(k, t, count) && count + n <= MAX_PACKETS_PER_SECOND && e.payload == [] && e.id in handlers
    ensures var out := AdvanceAll(true, handlers, k, Times(e, n), Times(t, n));
            Busy(out, t, count + n) && out.last == k.last && out.next == k.next && out.link.gap == k.link.gap
    decreases n
  {
    if n > 0 {
      assert Times(e, n)[1..] == Times(e, n - 1) && Times(t, n)[1..] == Times(t, n - 1);
      EmptiesPass(handlers, Advance(true, handlers, k, e, t), e, t, count + 1, n - 1);
    }
  }

  lemma {:induction false} FullWindowDrops(handlers: set<nat>, k: Numbered, p: Packet, t: real, count: nat, n: nat)
    requires Busy(k, t, count)
    requires MAX_PACKETS_PER_SECOND <= count && count + n < MAX_PACKETS_PER_SECOND + MAX_RATE_VIOLATIONS
    requires p.payload != [] && k.next + n < SEQUENCES
    ensures var out := AdvanceAll(true, handlers, k, Times(p, n), Times(t, n));
            Busy(out, t, count + n) && out.last == k.last && out.next == k.next + n && out.link.gap == k.link.gap + n
    decreases n
  {
    if n > 0 {
      assert Times(p, n)[1..] == Times(p, n - 1) && Times(t, n)[1..] == Times(t, n - 1);
      FullWindowDrops(handlers, Advance(true, handlers, k, p, t), p, t, count + 1, n - 1);
    }
  }

  /** One burst in a new window skips four numbers and opens none. */
  lemma BurstSkipsFour(handlers: set<nat>, k: Numbered, e: Packet, p: Packet, t: real)
    requires k.link.reading && Expired(k.link.limiter, t) && k.next + 4 < SEQUENCES
    requires e.payload == [] && e.id in handlers && p.payload != []
    ensures var out := AdvanceAll(true, handlers, k, Burst(e, p), Times(t, 204));
            Busy(out, t, 204) && out.last == k.last && out.next == k.next + 4 && out.link.gap == k.link.gap + 4
  {
    var first := Advance(true, handlers, k, e, t);
    var full := AdvanceAll(true, handlers, k, Times(e, 200), Times(t, 200));
    assert Times(e, 200)[1..] == Times(e, 199) && Times(t, 200)[1..] == Times(t, 199);
    EmptiesPass(handlers, first, e, t, 1, 199);
    FullWindowDrops(handlers, full, p, t, 200, 4);
    assert Times(t, 204) == Times(t, 200) + Times(t, 4);
    AdvanceSplit(true, handlers, k, Times(e, 200), Times(p, 4), Times(t, 200), Times(t, 4));
  }

  /** n bursts skip 4 * n numbers, and the link goes on reading. */
  lemma {:induction false} BurstsGrowGap(handlers: set<nat>, k: Numbered, e: Packet, p: Packet, start: real, n: nat)
    requires k.link.reading && Expired(k.link.limiter, start) && k.next + 4 * n < SEQUENCES
    requires e.payload == [] && e.id in handlers && p.payload != []
    ensures var out := AdvanceAll(true, handlers, k, Bursts(e, p, n), BurstTimes(start, n));
            && out.link.reading && Expired(out.link.limiter, start + n as real)
            && out.last == k.last && out.next == k.next + 4 * n && out.link.gap == k.link.gap + 4 * n
    decreases n
  {
    if n > 0 {
      BurstsGrowGap(handlers, k, e, p, start, n - 1);
      var mid := AdvanceAll(true, handlers, k, Bursts(e, p, n - 1), BurstTimes(start, n - 1));
      var t := start + (n - 1) as real;
      BurstSkipsFour(handlers, mid, e, p, t);
      AdvanceSplit(true, handlers, k, Bursts(e, p, n - 1), Burst(e, p), BurstTimes(start, n - 1), Times(t, 204));
      assert start + n as real == t + 1.0;
    }
  }

  /** Rate drops that break the stream: after 250 such bursts the next packet is allowed, but the
      receiver refuses its number and stops. */
  lemma BurstsBreakStream(cfg: Config, r: Receiver, seqNum: nat, e: Packet, p: Packet, start: real)
    requires Works(cfg.cipher) && cfg.secure && r.reading && Expired(r.limiter, start)
    requires seqNum == r.lastSeq + 1 && seqNum + 1000 < SEQUENCES
    requires Sendable(true, e) && e.payload == [] && e.id in cfg.handlers
    requires Sendable(true, p) && p.payload != [] && p.id in cfg.handlers
    ensures var packets, times := Bursts(e, p, 250) + [p], BurstTimes(start, 250) + [start + 250.0];
            var out := Receive(cfg, r, Encode(cfg.cipher, true, seqNum, packets), times);
            var ideal := TransferAll(true, cfg.handlers, Fresh(r, seqNum).link, packets, times);
            !out.reading && |out.delivered| < |ideal.delivered|
  {
    var k, packets, times := Fresh(r, seqNum), Bursts(e, p, 250) + [p], BurstTimes(start, 250) + [start + 250.0];
    BurstsGrowGap(cfg.handlers, k, e, p, start, 250);
    AdvanceSplit(true, cfg.handlers, k, Bursts(e, p, 250), [p], BurstTimes(start, 250), [start + 250.0]);
    BurstsAreSendable(e, p, 250);
    StreamRefinesLinkIff(cfg, k, r, packets, times);
  }

  lemma {:induction false} BurstsAreSendable(e: Packet, p: Packet, n: nat)
    requires Sendable(true, e) && Sendable(true, p)
    ensures forall i :: 0 <= i < |Bursts(e, p, n)| ==> Sendable(true, Bursts(e, p, n)[i])
    decreases n
  {
    if n > 0 {
      BurstsAreSendable(e, p, n - 1);
    }
  }

  /** Exactly which gaps break it, as long as fewer than 2^32 - 1 numbers were skipped; a receiver
      that has opened nothing yet is one number more tolerant. */
  lemma PassesIff(secure: bool, handlers: set<nat>, k: Numbered, p: Packet, now: real)
    requires Spaced(k) && Opens(secure, handlers, k.link, p, now)
    requires k.link.gap < SEQUENCES - 1
    ensures Passes(secure, handlers, k, p, now) <==>
              if k.next == (k.last + 1 + k.link.gap) % SEQUENCES then
                k.link.gap <= MAX_GAP
                || (k.last + 1 + k.link.gap >= SEQUENCES && k.link.gap < SEQUENCES - SEQUENCE_WINDOW)
              else
                k.link.gap <= MAX_GAP + 1
  {
    if k.next == (k.last + 1 + k.link.gap) % SEQUENCES {
      ForwardWindow(k.last, 1 + k.link.gap);
    }
  }

  /** Exactly when the window stops an encrypted frame of a receiver that has decrypted before:
      `gap` is the number of sequence numbers it skipped. */
  lemma GapBreaksStreamIff(cfg: Config, r: Receiver, gap: nat, p: Packet, now: real)
    requires Works(cfg.cipher) && cfg.secure && Sendable(true, p) && p.payload != [] && p.id in cfg.handlers
    requires r.reading && r.lastSeq < SEQUENCES && gap < SEQUENCES - 1 && Allows(r.limiter, now)
    ensures var seqNum := (r.lastSeq + 1 + gap) % SEQUENCES;
            OnFrame(cfg, r, p.id, Body(cfg.cipher, true, seqNum, p), now).reading <==>
              gap <= MAX_GAP || (r.lastSeq + 1 + gap >= SEQUENCES && gap < SEQUENCES - SEQUENCE_WINDOW)
  {
    var seqNum := (r.lastSeq + 1 + gap) % SEQUENCES;
    ForwardWindow(r.lastSeq, 1 + gap);
    SealOpens(cfg.cipher, r.lastSeq, seqNum, p.iv, p.payload);
  }

  // ---- Headers per window ----

  lemma FrameKeepsPace(cfg: Config, r: Receiver, id: nat, body: seq<Byte>, now: real)
    requires r.reading && Paced(r.limiter, r.violations)
    ensures var out := OnHeader(r, now); out.reading ==> Paced(out.limiter, out.violations)
    ensures var out := OnFrame(cfg, r, id, body, now); out.reading ==> Paced(out.limiter, out.violations)
  {
  }

  /** Whatever bytes arrive and whenever, a session still reading has taken at most 204 headers
      in its current window. */
  lemma {:induction false} HeadersPerWindow(cfg: Config, r: Receiver, stream: seq<Byte>, times: seq<real>)
    requires r.reading ==> Paced(r.limiter, r.violations)
    ensures var out := Receive(cfg, r, stream, times);
            out.reading ==>
              Paced(out.limiter, out.violations)
              && out.limiter.count <= MAX_PACKETS_PER_SECOND + MAX_RATE_VIOLATIONS - 1
    decreases |stream|
  {
    if r.reading && |stream| >= HEADER_SIZE && times != [] {
      var size, id := FromBytes(stream[..2]), FromBytes(stream[2..4]);
      if HEADER_SIZE <= size <= MAX_PACKET_SIZE && size <= |stream| {
        FrameKeepsPace(cfg, r, id, stream[HEADER_SIZE..size], times[0]);
        HeadersPerWindow(cfg, OnFrame(cfg, r, id, stream[HEADER_SIZE..size], times[0]), stream[size..], times[1..]);
      }
    }
  }
}
