/** The bytes on the wire, one by one, and what any byte stream does to a session. */
module WireFormat {
  import opened Wrappers
  import opened Crypto
  import opened RateLimiter
  import opened ClientStream

  /** The i-th byte is the i-th digit to the base 256, the lowest first. */
  lemma {:induction false} DigitAt(n: nat, k: nat, i: nat)
    requires i < k
    ensures ToBytes(n, k)[i] == n / Pow256(i) % 256
    decreases k
  {
    if i > 0 {
      DigitAt(n / 256, k - 1, i - 1);
      DivTwice(n, Pow256(i - 1));
    }
  }

  lemma DivTwice(n: nat, p: nat)
    requires 0 < p
    ensures n / 256 / p == n / (256 * p)
  {
    var a, r := n / 256, n % 256;
    var b, s := a / p, a % p;
    Quotient(n, 256 * p, b, 256 * s + r);
  }

  lemma Quotient(n: nat, d: nat, q: nat, r: nat)
    requires 0 < d && n == q * d + r && r < d
    ensures n / d == q
  {
    var q', r' := n / d, n % d;
    assert n == q' * d + r';
    if q' < q {
      Apart(q, q', d, q * d, q' * d);
    } else if q < q' {
      Apart(q', q, d, q' * d, q * d);
    }
  }

  lemma Apart(a: int, b: int, d: nat, ad: int, bd: int)
    requires b < a && ad == a * d && bd == b * d
    ensures ad >= bd + d
  {
    var x := a - b - 1;
    NonNegative(x, d, x * d);
    assert (b + 1 + x) * d == b * d + d + x * d;
  }

  lemma NonNegative(x: nat, d: nat, xd: int)
    requires xd == x * d
    ensures 0 <= xd
  {
  }

  /** Two bytes, the lower one first. */
  function Word(low: int, high: int): int {
    low + 256 * high
  }

  /** A sealed payload: four bytes of sequence number, the vector, the ciphertext under it. */
  lemma SealLayout(c: Cipher, seqNum: nat, iv: seq<Byte>, plain: seq<Byte>)
    requires |iv| == IV_SIZE
    ensures var sealed := Seal(c, seqNum, iv, plain);
            && |sealed| >= 20
            && sealed[0] == seqNum % 256 && sealed[1] == seqNum / 256 % 256
            && sealed[2] == seqNum / 65536 % 256 && sealed[3] == seqNum / 16777216 % 256
            && sealed[4..20] == iv && sealed[20..] == c.encrypt(iv, plain)
  {
    var sealed, number := Seal(c, seqNum, iv, plain), ToBytes(seqNum, 4);
    assert sealed == number + iv + c.encrypt(iv, plain);
    assert sealed[4..20] == iv && sealed[20..] == c.encrypt(iv, plain);
    assert Pow256(1) == 256 * Pow256(0) && Pow256(3) == 256 * Pow256(2);
    SmallPowers();
    DigitAt(seqNum, 4, 0);
    DigitAt(seqNum, 4, 1);
    DigitAt(seqNum, 4, 2);
    DigitAt(seqNum, 4, 3);
  }

  /** A frame: two bytes of total size, two bytes of packet id, the body. */
  lemma FrameLayout(id: nat, body: seq<Byte>)
    requires id < 0x1_0000 && |body| + 4 < 0x1_0000
    ensures var frame := Frame(id, body);
            && |frame| == |body| + 4 && frame[4..] == body
            && Word(frame[0], frame[1]) == |body| + 4 && Word(frame[2], frame[3]) == id
  {
    var size, number := ToBytes(4 + |body|, 2), ToBytes(id, 2);
    assert Frame(id, body) == size + number + body;
    assert Pow256(1) == 256 * Pow256(0);
    DigitAt(4 + |body|, 2, 0);
    DigitAt(4 + |body|, 2, 1);
    DigitAt(id, 2, 0);
    DigitAt(id, 2, 1);
  }

  /** The size field of the first header. */
  function SizeField(stream: seq<Byte>): int
    requires |stream| >= 2
  {
    Word(stream[0], stream[1])
  }

  lemma TwoBytes(stream: seq<Byte>)
    requires |stream| >= 2
    ensures FromBytes(stream[..2]) == SizeField(stream)
  {
    var word := stream[..2];
    var high := word[1..];
    assert high == [stream[1]] && high[1..] == [];
    assert FromBytes(high) == high[0] + 256 * FromBytes(high[1..]);
  }

  /** A header with a size below 4 or above 4096 ends the reading at once: it is not counted, and nothing
      is delivered, whatever follows. */
  lemma BadSizeStops(cfg: Config, r: Receiver, stream: seq<Byte>, times: seq<real>)
    requires r.reading && |stream| >= 4 && times != []
    requires SizeField(stream) < 4 || SizeField(stream) > 4096
    ensures Receive(cfg, r, stream, times) == r.(reading := false)
  {
    TwoBytes(stream);
  }

  /** Whatever the bytes are, a session only adds to what it delivered, and only packets with a
      handler, at most one for each header. */
  lemma {:induction false} OnlyHandledAreDelivered(cfg: Config, r: Receiver, stream: seq<Byte>, times: seq<real>)
    ensures var after := Receive(cfg, r, stream, times).delivered;
            && r.delivered <= after && |after| <= |r.delivered| + |times|
            && forall i :: |r.delivered| <= i < |after| ==> after[i].id in cfg.handlers
    decreases |stream|
  {
    if r.reading && |stream| >= HEADER_SIZE && times != [] {
      var size, id := FromBytes(stream[..2]), FromBytes(stream[2..4]);
      if HEADER_SIZE <= size <= MAX_PACKET_SIZE && size <= |stream| {
        var next := OnFrame(cfg, r, id, stream[HEADER_SIZE..size], times[0]);
        OnlyHandledAreDelivered(cfg, next, stream[size..], times[1..]);
      }
    }
  }

  /** A frame for a handler that does not decrypt ends the reading; nothing of it, and nothing after
      it, is delivered. */
  lemma ForgeryStops(cfg: Config, r: Receiver, id: nat, body: seq<Byte>, now: real)
    requires cfg.secure && id in cfg.handlers && body != [] && Allows(r.limiter, now)
    requires Open(cfg.cipher, r.lastSeq, body).None?
    ensures var after := OnFrame(cfg, r, id, body, now);
            !after.reading && after.delivered == r.delivered && after.lastSeq == r.lastSeq
  {
  }
}
