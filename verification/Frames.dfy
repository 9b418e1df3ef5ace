/** The binary frame: type byte, two-byte length, file id, nonce, ciphertext. */
module Frames {
  import opened Bytes
  import opened Nonces

  const ID_LIMIT: nat := 0x1_0000

  datatype Frame = Frame(kind: byte, fileId: seq<byte>, nonce: seq<byte>, ciphertext: seq<byte>)

  datatype Decoded = Whole(frame: Frame) | TruncatedFileId | TruncatedNonce

  function Header(kind: byte, idLength: nat): seq<byte> {
    [kind, (idLength / 256 % 256) as byte, (idLength % 256) as byte]
  }

  function Encoded(f: Frame): seq<byte> {
    Header(f.kind, |f.fileId|) + f.fileId + f.nonce + f.ciphertext
  }

  function IdLength(d: seq<byte>): nat
    requires |d| >= 3
  {
    256 * d[1] as nat + d[2] as nat
  }

  function Parsed(d: seq<byte>): Decoded {
    if |d| < 3 || 3 + IdLength(d) > |d| then TruncatedFileId
    else
      var n := 3 + IdLength(d);
      if n + NONCE_TOTAL_BYTES > |d| then TruncatedNonce
      else Whole(Frame(d[0], d[3..n], d[n..n + NONCE_TOTAL_BYTES], d[n + NONCE_TOTAL_BYTES..]))
  }

  /** Copies bytes into a buffer, as `Uint8Array.set` does. */
  method Set(buf: array<byte>, bytes: seq<byte>, offset: nat)
    requires offset + |bytes| <= buf.Length
    modifies buf
    ensures buf[..] == old(buf[..offset]) + bytes + old(buf[offset + |bytes|..])
  {
    forall i | 0 <= i < |bytes| { buf[offset + i] := bytes[i]; }
  }

  method EncodeFrame(kind: byte, fileId: seq<byte>, nonce: seq<byte>, ciphertext: seq<byte>) returns (buf: array<byte>)
    requires |nonce| == NONCE_TOTAL_BYTES
    ensures fresh(buf) && buf[..] == Encoded(Frame(kind, fileId, nonce, ciphertext))
  {
    var offset: nat := 0;
    buf := new byte[1 + 2 + |fileId| + NONCE_TOTAL_BYTES + |ciphertext|];
    buf[offset] := kind;
    offset := offset + 1;
    buf[offset] := (|fileId| / 256 % 256) as byte;
    offset := offset + 1;
    buf[offset] := (|fileId| % 256) as byte;
    offset := offset + 1;
    assert buf[..offset] == Header(kind, |fileId|);
    Set(buf, fileId, offset);
    offset := offset + |fileId|;
    assert buf[..offset] == Header(kind, |fileId|) + fileId;
    Set(buf, nonce, offset);
    offset := offset + NONCE_TOTAL_BYTES;
    assert buf[..offset] == Header(kind, |fileId|) + fileId + nonce;
    Set(buf, ciphertext, offset);
  }

  /** Decoding never reads outside the input, however long that is; fewer than three bytes end, as
      every cut input does, in an error. */
  method DecodeFrame(data: array<byte>) returns (r: Decoded)
    ensures r == Parsed(data[..])
  {
    var offset: nat := 0;
    if data.Length < 3 { return TruncatedFileId; }
    var kind := data[offset];
    offset := offset + 1;
    var idLength := 256 * data[offset] as nat + data[offset + 1] as nat;
    offset := offset + 2;
    if offset + idLength > data.Length { return TruncatedFileId; }
    var fileId := data[offset..offset + idLength];
    offset := offset + idLength;
    if offset + NONCE_TOTAL_BYTES > data.Length { return TruncatedNonce; }
    var nonce := data[offset..offset + NONCE_TOTAL_BYTES];
    offset := offset + NONCE_TOTAL_BYTES;
    r := Whole(Frame(kind, fileId, nonce, data[offset..]));
  }

  /** The input is accepted exactly when it is long enough for the id it announces and a nonce. */
  lemma AcceptedIff(d: seq<byte>)
    ensures Parsed(d).Whole? <==> |d| >= 3 && |d| >= 3 + (256 * d[1] as nat + d[2] as nat) + 12
    ensures Parsed(d).Whole? ==> |d| >= 15 && |Parsed(d).frame.nonce| == NONCE_TOTAL_BYTES
    ensures Parsed(d).TruncatedFileId? <==> |d| < 3 || |d| < 3 + (256 * d[1] as nat + d[2] as nat)
  {
  }

  /** The layout: type, length of the id with its high byte first, id, nonce, ciphertext. */
  lemma Layout(f: Frame)
    requires |f.nonce| == NONCE_TOTAL_BYTES
    ensures var d, n := Encoded(f), |f.fileId|;
      && |d| == 15 + n + |f.ciphertext|
      && d[0] == f.kind && d[1] as nat == n / 256 % 256 && d[2] as nat == n % 256
      && d[3..3 + n] == f.fileId && d[3 + n..15 + n] == f.nonce && d[15 + n..] == f.ciphertext
  {
    var d, head := Encoded(f), Header(f.kind, |f.fileId|);
    assert d == head + (f.fileId + f.nonce + f.ciphertext);
    assert d[..3] == head && d[1] == head[1] && d[2] == head[2];
  }

  /** Re-encoding an accepted input gives the same bytes. */
  lemma EncodeUndoesParse(d: seq<byte>)
    requires Parsed(d).Whole?
    ensures Encoded(Parsed(d).frame) == d && |Parsed(d).frame.fileId| < ID_LIMIT
  {
    var n := 3 + IdLength(d);
    var f := Parsed(d).frame;
    assert |f.fileId| == IdLength(d) && IdLength(d) / 256 % 256 == d[1] as nat && IdLength(d) % 256 == d[2] as nat;
    assert Header(f.kind, |f.fileId|) == d[..3];
    assert d[..3] + d[3..n] == d[..n];
    assert d[..n] + d[n..n + NONCE_TOTAL_BYTES] == d[..n + NONCE_TOTAL_BYTES];
  }

  /** What an encoded frame is read as: the two-byte field holds the id's length modulo 2^16, and
      the id ends there. */
  lemma ParseOfEncoded(f: Frame)
    requires |f.nonce| == NONCE_TOTAL_BYTES
    ensures var r := Parsed(Encoded(f));
      r.Whole? && r.frame.kind == f.kind && r.frame.fileId == f.fileId[..|f.fileId| % ID_LIMIT]
  {
    var d := Encoded(f);
    var k := |f.fileId| % ID_LIMIT;
    HeaderLength(|f.fileId|);
    assert d[..3] == Header(f.kind, |f.fileId|) && d[1] == d[..3][1] && d[2] == d[..3][2];
    assert IdLength(d) == k;
    assert d[3..] == f.fileId + (f.nonce + f.ciphertext);
    assert d[3..3 + k] == d[3..][..k] == f.fileId[..k];
  }

  lemma HeaderLength(n: nat)
    ensures 256 * (n / 256 % 256) + n % 256 == n % ID_LIMIT
  {
    var q := n / 256;
    assert n == 256 * q + n % 256;
    assert q == 256 * (q / 256) + q % 256;
    var low := 256 * (q % 256) + n % 256;
    assert n == ID_LIMIT * (q / 256) + low && 0 <= low < ID_LIMIT;
    ModOf(n, q / 256, low);
  }

  lemma ModOf(n: nat, q: nat, low: nat)
    requires n == ID_LIMIT * q + low && low < ID_LIMIT
    ensures n % ID_LIMIT == low
  {
  }

  /** The round trip, and exactly when it holds: for ids shorter than 65536 bytes. */
  lemma ParseUndoesEncodeIff(f: Frame)
    requires |f.nonce| == NONCE_TOTAL_BYTES
    ensures Parsed(Encoded(f)) == Whole(f) <==> |f.fileId| < ID_LIMIT
  {
    ParseOfEncoded(f);
    if |f.fileId| < ID_LIMIT {
      var d := Encoded(f);
      var n := 3 + |f.fileId|;
      EncodeUndoesParse(d);
      var g := Parsed(d).frame;
      assert g.fileId == f.fileId;
      var head := Header(f.kind, |f.fileId|) + f.fileId;
      assert Encoded(g) == head + (g.nonce + g.ciphertext) && d == head + (f.nonce + f.ciphertext);
      assert g.nonce + g.ciphertext == d[n..] == f.nonce + f.ciphertext;
      assert g.nonce == (g.nonce + g.ciphertext)[..NONCE_TOTAL_BYTES] == f.nonce;
      assert g.ciphertext == (g.nonce + g.ciphertext)[NONCE_TOTAL_BYTES..] == f.ciphertext;
    }
  }
}
