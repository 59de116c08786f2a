/** Packet encryption with a sequence number: Common/Network/PacketCrypto.cpp:103-254.

    The block cipher is foreign: `Cipher` carries an encryption and a decryption function, and
    `Works` states what is used of AES-128-CBC with PKCS#7 padding (section 6.3 of RFC 5652).
    Random initialization vectors are parameters.
 */
module Crypto {
  import opened Wrappers

  type Byte = b: int | 0 <= b < 256

  const SEQUENCE_NUM_SIZE := 4
  const IV_SIZE := 16
  const AES_BLOCK_SIZE := 16
  const SEQUENCE_WINDOW := 100
  const SEQUENCES := 0x1_0000_0000

  // ---- Little-endian numbers, as memcpy writes them ----

  function Pow256(k: nat): (p: nat)
    ensures 0 < p
  {
    if k == 0 then 1 else 256 * Pow256(k - 1)
  }

  function ToBytes(n: nat, k: nat): (s: seq<Byte>)
    ensures |s| == k
    decreases k
  {
    if k == 0 then [] else [n % 256] + ToBytes(n / 256, k - 1)
  }

  function FromBytes(s: seq<Byte>): nat {
    if s == [] then 0 else s[0] + 256 * FromBytes(s[1..])
  }

  lemma {:induction false} BytesRoundTrip(n: nat, k: nat)
    requires n < Pow256(k)
    ensures FromBytes(ToBytes(n, k)) == n
    decreases k
  {
    if k > 0 {
      BytesRoundTrip(n / 256, k - 1);
    }
  }

  lemma SmallPowers()
    ensures Pow256(2) == 0x1_0000 && Pow256(4) == SEQUENCES
  {
    assert Pow256(1) == 256 * Pow256(0);
    assert Pow256(3) == 256 * Pow256(2);
  }

  // ---- The cipher ----

  datatype Cipher = Cipher(
    encrypt: (seq<Byte>, seq<Byte>) -> seq<Byte>,
    decrypt: (seq<Byte>, seq<Byte>) -> Option<seq<Byte>>)

  /** Decryption under the same vector inverts encryption; padding fills up to the next block. */
  ghost predicate Works(c: Cipher) {
    forall iv: seq<Byte>, plain: seq<Byte> :: |iv| == IV_SIZE && plain != [] ==>
      && |c.encrypt(iv, plain)| == AES_BLOCK_SIZE * (|plain| / AES_BLOCK_SIZE + 1)
      && c.decrypt(iv, c.encrypt(iv, plain)) == Some(plain)
  }

  /** Sequence number, vector and ciphertext of one payload. */
  function Seal(c: Cipher, seqNum: nat, iv: seq<Byte>, plain: seq<Byte>): seq<Byte> {
    ToBytes(seqNum, SEQUENCE_NUM_SIZE) + iv + c.encrypt(iv, plain)
  }

  /** The replay window check on 32-bit sequence numbers. */
  predicate ValidSequence(last: nat, received: nat) {
    if last == 0 && received == 0 then true
    else if received <= last then last - received >= SEQUENCE_WINDOW
    else received - last <= SEQUENCE_WINDOW * 10
  }

  /** The plaintext and the new last sequence number, or None for a rejected payload. */
  function Open(c: Cipher, last: nat, data: seq<Byte>): Option<(seq<Byte>, nat)> {
    if |data| < SEQUENCE_NUM_SIZE + IV_SIZE + AES_BLOCK_SIZE then None
    else
      var received := FromBytes(data[..SEQUENCE_NUM_SIZE]);
      if !ValidSequence(last, received) then None
      else
        match c.decrypt(data[SEQUENCE_NUM_SIZE..SEQUENCE_NUM_SIZE + IV_SIZE], data[SEQUENCE_NUM_SIZE + IV_SIZE..])
        case Some(plain) => Some((plain, received))
        case None => None
  }

  class PacketCrypto {
    const cipher: Cipher
    var sendSequence: nat
    var recvSequence: nat

    ghost predicate Valid()
      reads this
    {
      sendSequence < SEQUENCES && recvSequence < SEQUENCES
    }

    constructor (cipher: Cipher)
      ensures Valid() && this.cipher == cipher && sendSequence == 0 && recvSequence == 0
    {
      this.cipher := cipher;
      sendSequence, recvSequence := 0, 0;
    }

    /** An empty payload fails and uses no sequence number. */
    method Encrypt(plain: seq<Byte>, iv: seq<Byte>) returns (sealed: Option<seq<Byte>>)
      requires Valid()
      modifies this`sendSequence
      ensures Valid()
      ensures plain == [] ==> sealed == None && sendSequence == old(sendSequence)
      ensures plain != [] ==> sealed == Some(Seal(cipher, old(sendSequence), iv, plain)) &&
                              sendSequence == (old(sendSequence) + 1) % SEQUENCES
    {
      if |plain| == 0 {
        return None;
      }
      var seqNum := sendSequence;
      sendSequence := if sendSequence == SEQUENCES - 1 then 0 else sendSequence + 1;
      var output := ToBytes(seqNum, SEQUENCE_NUM_SIZE);
      output := output + iv;
      output := output + cipher.encrypt(iv, plain);
      sealed := Some(output);
    }

    method ValidateSequence(received: nat) returns (ok: bool)
      ensures ok == ValidSequence(recvSequence, received)
    {
      if recvSequence == 0 && received == 0 {
        return true;
      }
      if received <= recvSequence {
        if recvSequence - received < SEQUENCE_WINDOW {
          return false;
        }
        return true;
      }
      if received - recvSequence > SEQUENCE_WINDOW * 10 {
        return false;
      }
      ok := true;
    }

    method Decrypt(data: seq<Byte>) returns (plain: Option<seq<Byte>>)
      requires Valid()
      modifies this`recvSequence
      ensures Valid()
      ensures Open(cipher, old(recvSequence), data) ==
                if plain.Some? then Some((plain.value, recvSequence)) else None
      ensures plain.None? ==> recvSequence == old(recvSequence)
    {
      if |data| < SEQUENCE_NUM_SIZE + IV_SIZE + AES_BLOCK_SIZE {
        return None;
      }
      var received := FromBytes(data[..SEQUENCE_NUM_SIZE]);
      FourBytesBound(data[..SEQUENCE_NUM_SIZE]);
      var ok := ValidateSequence(received);
      if !ok {
        return None;
      }
      var iv := data[SEQUENCE_NUM_SIZE..SEQUENCE_NUM_SIZE + IV_SIZE];
      plain := cipher.decrypt(iv, data[SEQUENCE_NUM_SIZE + IV_SIZE..]);
      if plain.Some? {
        recvSequence := received;
      }
    }
  }

  lemma {:induction false} BytesBound(s: seq<Byte>)
    ensures FromBytes(s) < Pow256(|s|)
    decreases |s|
  {
    if s != [] {
      BytesBound(s[1..]);
    }
  }

  lemma FourBytesBound(s: seq<Byte>)
    requires |s| == SEQUENCE_NUM_SIZE
    ensures FromBytes(s) < SEQUENCES
  {
    BytesBound(s);
    SmallPowers();
  }

  // ---- The window modulo 2^32 ----

  /** Exactly which forward distances are accepted: up to ten windows, and, when the number
      wraps around, everything that is not less than one window behind. */
  lemma ForwardWindow(last: nat, d: nat)
    requires last < SEQUENCES && 0 < d < SEQUENCES
    ensures ValidSequence(last, (last + d) % SEQUENCES) <==>
              d <= SEQUENCE_WINDOW * 10 || (last + d >= SEQUENCES && d <= SEQUENCES - SEQUENCE_WINDOW)
  {
    if last + d >= SEQUENCES {
      assert (last + d) % SEQUENCES == last + d - SEQUENCES;
    }
  }

  /** From every receiver state, the last number and the 99 before it are rejected, modulo
      2^32, except that 0 repeats after 0. */
  lemma BackwardWindow(last: nat, b: nat)
    requires last < SEQUENCES && b < SEQUENCE_WINDOW
    ensures ValidSequence(last, (last + SEQUENCES - b) % SEQUENCES) <==> (last == 0 && b == 0)
  {
    if b <= last {
      assert (last + SEQUENCES - b) % SEQUENCES == last - b;
    }
  }

  /** A sealed payload opens to the plaintext if and only if its number passes the window. */
  lemma SealOpens(c: Cipher, last: nat, seqNum: nat, iv: seq<Byte>, plain: seq<Byte>)
    requires Works(c) && seqNum < SEQUENCES && |iv| == IV_SIZE && plain != []
    ensures |Seal(c, seqNum, iv, plain)|
         == SEQUENCE_NUM_SIZE + IV_SIZE + AES_BLOCK_SIZE * (|plain| / AES_BLOCK_SIZE + 1)
    ensures Open(c, last, Seal(c, seqNum, iv, plain)) ==
              if ValidSequence(last, seqNum) then Some((plain, seqNum)) else None
  {
    var number, sealed := ToBytes(seqNum, SEQUENCE_NUM_SIZE), Seal(c, seqNum, iv, plain);
    assert sealed[..SEQUENCE_NUM_SIZE] == number;
    assert sealed[SEQUENCE_NUM_SIZE..SEQUENCE_NUM_SIZE + IV_SIZE] == iv;
    assert sealed[SEQUENCE_NUM_SIZE + IV_SIZE..] == c.encrypt(iv, plain);
    SmallPowers();
    BytesRoundTrip(seqNum, SEQUENCE_NUM_SIZE);
  }

  // ---- Replays ----

  /** The last number after a run of payloads; a rejected one leaves it alone. */
  function LastAfter(c: Cipher, last: nat, payloads: seq<seq<Byte>>): nat
    decreases |payloads|
  {
    if payloads == [] then last
    else LastAfter(c, match Open(c, last, payloads[0]) case Some((_, n)) => n case None => last, payloads[1..])
  }

  /** A payload that was opened with number n and comes again after any other payloads: it opens
      again exactly if, by then, the last number is at least one window ahead of n, or behind n
      by up to ten windows, or both are 0. */
  lemma ReplayOpensIff(c: Cipher, last: nat, payload: seq<Byte>, between: seq<seq<Byte>>)
    requires Open(c, last, payload).Some?
    ensures var n := Open(c, last, payload).value.1;
            var now := LastAfter(c, n, between);
            (Open(c, now, payload).Some? <==>
              now - n >= SEQUENCE_WINDOW || 0 < n - now <= SEQUENCE_WINDOW * 10 || (now == 0 && n == 0))
  {
  }

  /** Payloads sealed with the numbers after n, as one sender does. */
  function Onward(c: Cipher, n: nat, plains: seq<(seq<Byte>, seq<Byte>)>): seq<seq<Byte>>
    decreases |plains|
  {
    if plains == [] then []
    else
      var next := (n + 1) % SEQUENCES;
      [Seal(c, next, plains[0].0, plains[0].1)] + Onward(c, next, plains[1..])
  }

  /** The payload opens after number n and carries the next number. */
  ghost predicate OpensNext(c: Cipher, n: nat, payload: seq<Byte>) {
    Open(c, n, payload).Some? && Open(c, n, payload).value.1 == (n + 1) % SEQUENCES
  }

  lemma SealOpensNext(c: Cipher, n: nat, iv: seq<Byte>, plain: seq<Byte>)
    requires Works(c) && n < SEQUENCES && |iv| == IV_SIZE && plain != []
    ensures OpensNext(c, n, Seal(c, (n + 1) % SEQUENCES, iv, plain))
  {
    ForwardWindow(n, 1);
    SealOpens(c, n, (n + 1) % SEQUENCES, iv, plain);
  }

  /** Each payload opens after the one before it. */
  ghost predicate OpenInTurn(c: Cipher, n: nat, payloads: seq<seq<Byte>>)
    decreases |payloads|
  {
    payloads == [] || (OpensNext(c, n, payloads[0]) && OpenInTurn(c, (n + 1) % SEQUENCES, payloads[1..]))
  }

  lemma {:induction false} OnwardOpens(c: Cipher, n: nat, plains: seq<(seq<Byte>, seq<Byte>)>)
    requires Works(c) && n < SEQUENCES
    requires forall i :: 0 <= i < |plains| ==> |plains[i].0| == IV_SIZE && plains[i].1 != []
    ensures |Onward(c, n, plains)| == |plains| && OpenInTurn(c, n, Onward(c, n, plains))
    decreases |plains|
  {
    if plains != [] {
      SealOpensNext(c, n, plains[0].0, plains[0].1);
      OnwardOpens(c, (n + 1) % SEQUENCES, plains[1..]);
      assert Onward(c, n, plains)[1..] == Onward(c, (n + 1) % SEQUENCES, plains[1..]);
    }
  }

  lemma {:induction false} LastInTurn(c: Cipher, n: nat, payloads: seq<seq<Byte>>)
    requires n < SEQUENCES && OpenInTurn(c, n, payloads)
    ensures LastAfter(c, n, payloads) == (n + |payloads|) % SEQUENCES
    decreases |payloads|
  {
    if payloads != [] {
      LastInTurn(c, (n + 1) % SEQUENCES, payloads[1..]);
      ResidueOfSum(n + 1, |payloads| - 1);
    }
  }

  lemma ResidueOfSum(a: nat, b: nat)
    ensures (a % SEQUENCES + b) % SEQUENCES == (a + b) % SEQUENCES
  {
    var q := a / SEQUENCES;
    assert a == q * SEQUENCES + a % SEQUENCES;
    AddMultiples(a % SEQUENCES + b, q);
  }

  lemma {:induction false} AddMultiples(x: nat, q: nat)
    ensures (x + q * SEQUENCES) % SEQUENCES == x % SEQUENCES
    decreases q
  {
    if q > 0 {
      AddMultiples(x, q - 1);
      assert x + q * SEQUENCES == x + (q - 1) * SEQUENCES + SEQUENCES;
    }
  }

  /** A payload opened with number n, replayed after k more payloads that opened in turn, as those
      of one sender do: with k taken modulo 2^32, it opens again exactly if at least 100 came since
      and the number did not wrap, or it wrapped and is within 1000 of n again, or n and k are 0. */
  lemma ReplayInStreamIff(c: Cipher, last: nat, payload: seq<Byte>, between: seq<seq<Byte>>)
    requires Open(c, last, payload).Some? && OpenInTurn(c, Open(c, last, payload).value.1, between)
    ensures var n := Open(c, last, payload).value.1;
            var k := |between| % SEQUENCES;
            (Open(c, LastAfter(c, n, between), payload).Some? <==>
              if n + k < SEQUENCES then k >= SEQUENCE_WINDOW || n + k == 0
              else k >= SEQUENCES - SEQUENCE_WINDOW * 10)
  {
    var n := Open(c, last, payload).value.1;
    FourBytesBound(payload[..SEQUENCE_NUM_SIZE]);
    LastInTurn(c, n, between);
    ReplayOpensIff(c, last, payload, between);
    ResidueOfSum(|between|, n);
    WindowAfter(n, |between| % SEQUENCES);
  }

  lemma WindowAfter(n: nat, k: nat)
    requires n < SEQUENCES && k < SEQUENCES
    ensures var now := (n + k) % SEQUENCES;
            (now - n >= SEQUENCE_WINDOW || 0 < n - now <= SEQUENCE_WINDOW * 10 || (now == 0 && n == 0)) <==>
              if n + k < SEQUENCES then k >= SEQUENCE_WINDOW || n + k == 0
              else k >= SEQUENCES - SEQUENCE_WINDOW * 10
  {
    assert (n + k) % SEQUENCES == if n + k < SEQUENCES then n + k else n + k - SEQUENCES;
  }

  /** A plain replay: a payload sealed with number 300 opens after 299, and again when 500 is the
      last number. */
  lemma OldPayloadOpensAgain(c: Cipher, iv: seq<Byte>, plain: seq<Byte>)
    requires Works(c) && |iv| == IV_SIZE && plain != []
    ensures Open(c, 299, Seal(c, 300, iv, plain)) == Some((plain, 300))
    ensures Open(c, 500, Seal(c, 300, iv, plain)) == Some((plain, 300))
  {
    SealOpens(c, 299, 300, iv, plain);
    SealOpens(c, 500, 300, iv, plain);
  }
}
