/** The bytes `ComputeDedupKey` hashes: window, projection type and key hash, each behind the four
    big-endian bytes of its length. */
module Dedup {
  import opened Types

  const U32: nat := 0x1_0000_0000

  /** A length as four bytes, most significant first; a length that needs more loses its high bits. */
  function Length32(n: nat): (b: string)
    ensures |b| == 4
  {
    var m := n % U32;
    [(m / 0x100_0000) as char, (m / 0x1_0000 % 0x100) as char, (m / 0x100 % 0x100) as char, (m % 0x100) as char]
  }

  function Segment(s: string): string {
    Length32(|s|) + s
  }

  function Frame(window: string, projectionType: string, keyHash: string): string {
    Segment(window) + Segment(projectionType) + Segment(keyHash)
  }

  function ComputeDedupKey(window: string, projectionType: string, keyHash: string): (k: DedupKey)
    ensures k != NoKey
  {
    Sha256(Frame(window, projectionType, keyHash))
  }

  function ReadLength(b: string): nat
    requires |b| >= 4
  {
    b[0] as nat * 0x100_0000 + b[1] as nat * 0x1_0000 + b[2] as nat * 0x100 + b[3] as nat
  }

  /** Reads one segment and the bytes after it back. */
  function ReadSegment(b: string): Option<(string, string)> {
    if |b| < 4 || |b| - 4 < ReadLength(b) then None
    else Some((b[4..4 + ReadLength(b)], b[4 + ReadLength(b)..]))
  }

  function Parse(b: string): Option<(string, string, string)> {
    match ReadSegment(b)
    case None => None
    case Some((window, rest)) =>
      match ReadSegment(rest)
      case None => None
      case Some((projectionType, rest')) =>
        match ReadSegment(rest')
        case None => None
        case Some((keyHash, end)) => if end == "" then Some((window, projectionType, keyHash)) else None
  }

  lemma LengthRoundTrip(n: nat, rest: string)
    requires n < U32
    ensures ReadLength(Length32(n) + rest) == n
  {
    hide Length32;
    assert forall i | 0 <= i < 4 :: (Length32(n) + rest)[i] == Length32(n)[i];
    BytesOf(n);
    Digits(n);
  }

  lemma BytesOf(n: nat)
    requires n < U32
    ensures var b := Length32(n);
      && b[0] as nat == n / 0x100_0000 && b[1] as nat == n / 0x1_0000 % 0x100
      && b[2] as nat == n / 0x100 % 0x100 && b[3] as nat == n % 0x100
  {
  }

  lemma Digits(n: nat)
    ensures n == n / 0x100_0000 * 0x100_0000 + n / 0x1_0000 % 0x100 * 0x1_0000 + n / 0x100 % 0x100 * 0x100 + n % 0x100
  {
    assert n / 0x1_0000 == n / 0x100_0000 * 0x100 + n / 0x1_0000 % 0x100;
    assert n / 0x100 == n / 0x1_0000 * 0x100 + n / 0x100 % 0x100;
  }

  lemma SegmentRoundTrip(s: string, rest: string)
    requires |s| < U32
    ensures ReadSegment(Segment(s) + rest) == Some((s, rest))
  {
    var b := Segment(s) + rest;
    assert b == Length32(|s|) + (s + rest);
    LengthRoundTrip(|s|, s + rest);
    assert b[4..4 + |s|] == s && b[4 + |s|..] == rest;
  }

  lemma FrameRoundTrip(window: string, projectionType: string, keyHash: string)
    requires |window| < U32 && |projectionType| < U32 && |keyHash| < U32
    ensures Parse(Frame(window, projectionType, keyHash)) == Some((window, projectionType, keyHash))
  {
    var b := Frame(window, projectionType, keyHash);
    assert b == Segment(window) + (Segment(projectionType) + Segment(keyHash));
    SegmentRoundTrip(window, Segment(projectionType) + Segment(keyHash));
    SegmentRoundTrip(projectionType, Segment(keyHash));
    SegmentRoundTrip(keyHash, "");
    assert Segment(keyHash) + "" == Segment(keyHash);
  }

  /** Below 2^32 bytes a segment, two identities share a dedup key exactly when they are the same. */
  lemma DedupKeyIdentifies(w: string, p: string, h: string, w': string, p': string, h': string)
    requires |w| < U32 && |p| < U32 && |h| < U32
    requires |w'| < U32 && |p'| < U32 && |h'| < U32
    ensures ComputeDedupKey(w, p, h) == ComputeDedupKey(w', p', h') <==> w == w' && p == p' && h == h'
  {
    FrameRoundTrip(w, p, h);
    FrameRoundTrip(w', p', h');
  }

  function Zeros(n: nat): string {
    seq(n, _ => 0 as char)
  }

  /** At 2^32 bytes the truncated length lets two different identities share a dedup key. */
  lemma LongSegmentsCollide()
    ensures ComputeDedupKey(Zeros(U32), "", "") == ComputeDedupKey("", Zeros(U32), "")
    ensures Zeros(U32) != ""
  {
    assert Length32(U32) == Zeros(4) && Length32(0) == Zeros(4);
    assert Frame(Zeros(U32), "", "") == Zeros(U32 + 12);
    assert Frame("", Zeros(U32), "") == Zeros(U32 + 12);
  }
}
