/** Nonces and counters of the encrypted frames. */
module Nonces {
  import opened Bytes

  const NONCE_TOTAL_BYTES := 12
  const NONCE_PEER_PREFIX_BYTES := 4
  const COUNTER_BYTES := 8
  const COUNTER_LIMIT: nat := 0x1_0000_0000_0000_0000

  type PeerId = string

  // ---- Big-endian numbers ----

  function Pow256(n: nat): (p: nat)
    ensures p > 0
  {
    if n == 0 then 1 else 256 * Pow256(n - 1)
  }

  function BigEndian(value: nat, n: nat): (bytes: seq<byte>)
    ensures |bytes| == n
  {
    if n == 0 then [] else BigEndian(value / 256, n - 1) + [(value % 256) as byte]
  }

  function Value(bytes: seq<byte>): nat {
    if bytes == [] then 0 else 256 * Value(bytes[..|bytes| - 1]) + bytes[|bytes| - 1] as nat
  }

  lemma {:induction false} ValueOfBigEndian(value: nat, n: nat)
    requires value < Pow256(n)
    ensures Value(BigEndian(value, n)) == value
  {
    if n > 0 {
      ValueOfBigEndian(value / 256, n - 1);
      var front := BigEndian(value / 256, n - 1);
      assert (front + [(value % 256) as byte])[..n - 1] == front;
    }
  }

  lemma {:induction false} BigEndianOfValue(bytes: seq<byte>)
    ensures BigEndian(Value(bytes), |bytes|) == bytes
    ensures Value(bytes) < Pow256(|bytes|)
  {
    if bytes != [] {
      var front, last := bytes[..|bytes| - 1], bytes[|bytes| - 1];
      BigEndianOfValue(front);
      assert front + [last] == bytes;
      assert Value(bytes) / 256 == Value(front) && Value(bytes) % 256 == last as nat;
    }
  }

  lemma CounterRange()
    ensures Pow256(COUNTER_BYTES) == COUNTER_LIMIT
  {
    assert Pow256(2) == 65536;
    assert Pow256(4) == 256 * (256 * Pow256(2));
    assert Pow256(6) == 256 * (256 * Pow256(4));
    assert Pow256(8) == 256 * (256 * Pow256(6));
  }

  /** The byte at each place: the first is the highest. */
  lemma {:induction false} ByteAt(value: nat, n: nat, i: nat)
    requires i < n
    ensures BigEndian(value, n)[i] as nat == value / Pow256(n - 1 - i) % 256
  {
    if i < n - 1 {
      ByteAt(value / 256, n - 1, i);
      DivideTwice(value, Pow256(n - 2 - i));
      assert Pow256(n - 1 - i) == 256 * Pow256(n - 2 - i);
    }
  }

  lemma DivideTwice(value: nat, d: nat)
    requires d > 0
    ensures value / 256 / d == value / (256 * d)
  {
    var q := value / (256 * d);
    var r := value - 256 * d * q;
    assert 0 <= r < 256 * d;
    assert value / 256 == d * q + r / 256;
    assert 0 <= r / 256 < d;
    QuotientIs(value / 256, d, q, r / 256);
  }

  lemma QuotientIs(n: nat, d: nat, q: nat, r: nat)
    requires d > 0 && n == d * q + r && r < d
    ensures n / d == q
  {
    assert d * (n / d - q) == r - n % d;
    Multiples(d, n / d - q);
  }

  lemma Multiples(d: int, k: int)
    requires d >= 0
    ensures k >= 1 ==> d * k >= d
    ensures k <= -1 ==> d * k <= -d
  {
    if k >= 1 { assert d * k == d + d * (k - 1); }
    if k <= -1 { assert d * k == d * (k + 1) - d; }
  }

  // ---- Nonces ----

  /** The nonce of a prefix and a counter; a 64-bit field holds the counter modulo 2^64. */
  function Nonce(prefix: seq<byte>, counter: nat): (nonce: seq<byte>)
    ensures |nonce| == |prefix| + COUNTER_BYTES
  {
    prefix + BigEndian(counter % COUNTER_LIMIT, COUNTER_BYTES)
  }

  function CounterOf(nonce: seq<byte>): nat
    requires |nonce| == NONCE_TOTAL_BYTES
  {
    Value(nonce[NONCE_PEER_PREFIX_BYTES..])
  }

  method BuildNonce(prefix: seq<byte>, counter: nat) returns (nonce: array<byte>)
    requires |prefix| == NONCE_PEER_PREFIX_BYTES
    ensures fresh(nonce) && nonce[..] == Nonce(prefix, counter)
  {
    nonce := new byte[NONCE_TOTAL_BYTES];
    forall i | 0 <= i < NONCE_PEER_PREFIX_BYTES { nonce[i] := prefix[i]; }
    var field := BigEndian(counter % COUNTER_LIMIT, COUNTER_BYTES);
    forall i | 0 <= i < COUNTER_BYTES { nonce[NONCE_PEER_PREFIX_BYTES + i] := field[i]; }
  }

  method ExtractCounter(nonce: array<byte>) returns (counter: nat)
    requires nonce.Length == NONCE_TOTAL_BYTES
    ensures counter == CounterOf(nonce[..]) < COUNTER_LIMIT
  {
    counter := Value(nonce[NONCE_PEER_PREFIX_BYTES..]);
    BigEndianOfValue(nonce[NONCE_PEER_PREFIX_BYTES..]);
    CounterRange();
    assert nonce[..][NONCE_PEER_PREFIX_BYTES..] == nonce[NONCE_PEER_PREFIX_BYTES..];
  }

  /** The layout: four bytes of prefix, then the counter modulo 2^64, its highest byte first. */
  lemma NonceBytes(prefix: seq<byte>, counter: nat, i: nat)
    requires |prefix| == 4 && i < 8
    ensures |Nonce(prefix, counter)| == 12 && Nonce(prefix, counter)[..4] == prefix
    ensures Nonce(prefix, counter)[4 + i] as nat == counter % 0x1_0000_0000_0000_0000 / Pow256(7 - i) % 256
  {
    ByteAt(counter % COUNTER_LIMIT, COUNTER_BYTES, i);
  }

  /** A nonce gives back its prefix, and its counter exactly when that is below 2^64. */
  lemma NonceRoundTrip(prefix: seq<byte>, counter: nat)
    requires |prefix| == NONCE_PEER_PREFIX_BYTES
    ensures Nonce(prefix, counter)[..NONCE_PEER_PREFIX_BYTES] == prefix
    ensures CounterOf(Nonce(prefix, counter)) == counter % COUNTER_LIMIT
    ensures CounterOf(Nonce(prefix, counter)) == counter <==> counter < COUNTER_LIMIT
  {
    CounterRange();
    ValueOfBigEndian(counter % COUNTER_LIMIT, COUNTER_BYTES);
    assert Nonce(prefix, counter)[NONCE_PEER_PREFIX_BYTES..] == BigEndian(counter % COUNTER_LIMIT, COUNTER_BYTES);
  }

  /** Every 12 bytes are the nonce of their prefix and counter. */
  lemma NonceOfParts(nonce: seq<byte>)
    requires |nonce| == NONCE_TOTAL_BYTES
    ensures CounterOf(nonce) < COUNTER_LIMIT
    ensures Nonce(nonce[..NONCE_PEER_PREFIX_BYTES], CounterOf(nonce)) == nonce
  {
    hide Pow256, BigEndian, Value;
    CounterRange();
    var prefix, field := nonce[..NONCE_PEER_PREFIX_BYTES], nonce[NONCE_PEER_PREFIX_BYTES..];
    BigEndianOfValue(field);
    assert prefix + field == nonce;
  }

  /** Two nonces are the same only for the same prefix and for counters equal modulo 2^64. */
  lemma NoncesDiffer(p: seq<byte>, c: nat, q: seq<byte>, d: nat)
    requires |p| == |q| == NONCE_PEER_PREFIX_BYTES
    ensures Nonce(p, c) == Nonce(q, d) <==> p == q && c % COUNTER_LIMIT == d % COUNTER_LIMIT
  {
    NonceRoundTrip(p, c);
    NonceRoundTrip(q, d);
  }

  lemma SmallCountersDiffer(prefix: seq<byte>, c: nat, d: nat)
    requires |prefix| == NONCE_PEER_PREFIX_BYTES && c < d < COUNTER_LIMIT
    ensures Nonce(prefix, c) != Nonce(prefix, d)
  {
    NonceRoundTrip(prefix, c);
    NonceRoundTrip(prefix, d);
  }

  // ---- Counters ----

  /** The last counter issued or accepted for a peer. */
  function Last(counters: map<PeerId, nat>, peer: PeerId): int {
    if peer in counters then counters[peer] else -1
  }

  class NonceCounter {
    var counters: map<PeerId, nat>

    constructor ()
      ensures counters == map[]
    {
      counters := map[];
    }

    method Increment(peer: PeerId) returns (next: nat)
      modifies this
      ensures next == Last(old(counters), peer) + 1
      ensures counters == old(counters)[peer := next]
    {
      next := Last(counters, peer) + 1;
      counters := counters[peer := next];
    }

    method Validate(peer: PeerId, counter: nat) returns (ok: bool)
      modifies this
      ensures ok <==> counter > Last(old(counters), peer)
      ensures counters == if ok then old(counters)[peer := counter] else old(counters)
    {
      if counter <= Last(counters, peer) { return false; }
      counters := counters[peer := counter];
      return true;
    }
  }
}
