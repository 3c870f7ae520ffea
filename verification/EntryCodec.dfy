/** The stored cache entry: a 96-byte header, the target name, the fingerprint and the cubin. */
module EntryCodec {
  import opened Prelude
  import opened Bytes

  const MAGIC: seq<Byte> := [0x43, 0x55, 0x54, 0x49, 0x4c, 0x45, 0x43, 0x55, 0x42, 0x49, 0x4e, 0]
  const FORMAT_VERSION: nat := 1
  const HEADER_LEN: nat := 96

  /** The request fields an entry is validated against. */
  datatype EntryParams = EntryParams(bcSha: Digest, gpuName: seq<Byte>, optLevel: Byte, flags: Byte, fingerprint: seq<Byte>)

  // An entry is Magic, two reserved bytes, Identity, two padding bytes, Body.

  function Magic(): (s: seq<Byte>)
    ensures |s| == 14
  {
    MAGIC + Le16(FORMAT_VERSION)
  }

  /** Header bytes 16 to 86. */
  function Identity(sha: Hash, p: EntryParams, cubin: seq<Byte>): (s: seq<Byte>)
    ensures |s| == 70
  {
    sha(cubin) + p.bcSha + (Le16(|p.gpuName|) + Le16(|p.fingerprint|) + [p.optLevel, p.flags])
  }

  /** Everything from byte 88 on. */
  function Body(p: EntryParams, cubin: seq<Byte>): (s: seq<Byte>)
    ensures |s| == 8 + |p.gpuName| + |p.fingerprint| + |cubin|
  {
    Le64(|cubin|) + p.gpuName + p.fingerprint + cubin
  }

  function Encoding(sha: Hash, p: EntryParams, cubin: seq<Byte>): seq<Byte> {
    Magic() + [0, 0] + Identity(sha, p, cubin) + [0, 0] + Body(p, cubin)
  }

  predicate Encodable(p: EntryParams) {
    |p.gpuName| < U16 && |p.fingerprint| < U16
  }

  method EncodeEntry(sha: Hash, p: EntryParams, cubin: seq<Byte>) returns (r: Option<seq<Byte>>)
    ensures r == if Encodable(p) then Some(Encoding(sha, p, cubin)) else None
  {
    hide Le16, Le64;
    if |p.gpuName| >= U16 {
      return None;
    }
    if |p.fingerprint| >= U16 {
      return None;
    }
    var out: seq<Byte> := MAGIC;
    out := out + Le16(FORMAT_VERSION);
    out := out + [0, 0];
    ghost var start := out;
    out := out + sha(cubin);
    out := out + p.bcSha;
    out := out + Le16(|p.gpuName|);
    out := out + Le16(|p.fingerprint|);
    out := out + [p.optLevel];
    out := out + [p.flags];
    assert out == start + Identity(sha, p, cubin);
    out := out + [0, 0];
    ghost var head := out;
    out := out + Le64(|cubin|);
    assert |out| == HEADER_LEN;
    out := out + p.gpuName;
    out := out + p.fingerprint;
    out := out + cubin;
    assert out == head + Body(p, cubin);
    r := Some(out);
  }

  /** Header lengths read back. */
  function GpuLen(b: seq<Byte>): nat requires |b| >= HEADER_LEN { FromLe(b[80..82]) }
  function FpLen(b: seq<Byte>): nat requires |b| >= HEADER_LEN { FromLe(b[82..84]) }
  function PayloadLen(b: seq<Byte>): nat requires |b| >= HEADER_LEN { FromLe(b[88..96]) }

  function DecodeEntry(sha: Hash, b: seq<Byte>, p: EntryParams): Option<seq<Byte>> {
    if |b| < HEADER_LEN || b[0..12] != MAGIC || FromLe(b[12..14]) != FORMAT_VERSION then None
    else
      var g, f, n := GpuLen(b), FpLen(b), PayloadLen(b);
      var total := HEADER_LEN + g + f + n;
      if total >= U64 || |b| != total then None
      else
        var payload := b[HEADER_LEN + g + f..];
        if b[48..80] != p.bcSha || b[HEADER_LEN..HEADER_LEN + g] != p.gpuName || b[84] != p.optLevel
           || b[85] != p.flags || b[HEADER_LEN + g..HEADER_LEN + g + f] != p.fingerprint || sha(payload) != b[16..48]
        then None
        else Some(payload)
  }

  /** Equal except in the two reserved and the two padding bytes, which no reader looks at. */
  predicate SameOutsidePadding(b: seq<Byte>, e: seq<Byte>) {
    |b| == |e| >= HEADER_LEN && b[..14] == e[..14] && b[16..86] == e[16..86] && b[88..] == e[88..]
  }

  lemma EncodingParts(sha: Hash, p: EntryParams, c: seq<Byte>)
    ensures var e := Encoding(sha, p, c);
            |e| == 88 + |Body(p, c)| && e[..14] == Magic() && e[16..86] == Identity(sha, p, c) && e[88..] == Body(p, c)
  {
    hide Magic, Identity, Body;
    var x := Magic() + [0, 0];
    Cut3(x, Identity(sha, p, c), [0, 0] + Body(p, c));
    assert Encoding(sha, p, c) == x + Identity(sha, p, c) + ([0, 0] + Body(p, c));
  }

  /** Identity is exactly its six fields in order. */
  lemma IdentityIs(sha: Hash, p: EntryParams, c: seq<Byte>, s: seq<Byte>)
    requires |s| == 70
    ensures s == Identity(sha, p, c) <==>
            && s[0..32] == sha(c) && s[32..64] == p.bcSha && s[64..66] == Le16(|p.gpuName|)
            && s[66..68] == Le16(|p.fingerprint|) && s[68] == p.optLevel && s[69] == p.flags
  {
    hide Le16, Le64;
    var tail := Le16(|p.gpuName|) + Le16(|p.fingerprint|) + [p.optLevel, p.flags];
    ThreePieces(s, sha(c), p.bcSha, tail);
    ThreePieces(s[64..], Le16(|p.gpuName|), Le16(|p.fingerprint|), [p.optLevel, p.flags]);
    SliceSlice(s, 64, 70, 0, 2);
    SliceSlice(s, 64, 70, 2, 4);
    assert s[64..][4..] == [s[68], s[69]];
  }

  lemma BodyIs(p: EntryParams, c: seq<Byte>, s: seq<Byte>)
    requires |s| == 8 + |p.gpuName| + |p.fingerprint| + |c|
    ensures var g, f := 8 + |p.gpuName|, 8 + |p.gpuName| + |p.fingerprint|;
            s == Body(p, c) <==>
            s[0..8] == Le64(|c|) && s[8..g] == p.gpuName && s[g..f] == p.fingerprint && s[f..] == c
  {
    hide Le64;
    FourPieces(s, Le64(|c|), p.gpuName, p.fingerprint, c);
  }

  /** The slices a reader takes, as slices of Magic, Identity and Body. */
  lemma ReaderSlices(b: seq<Byte>, g: nat, f: nat)
    requires |b| >= HEADER_LEN + g + f
    ensures var m, i, s := b[..14], b[16..86], b[88..];
            && b[0..12] == m[0..12] && b[12..14] == m[12..14]
            && b[16..48] == i[0..32] && b[48..80] == i[32..64] && b[80..82] == i[64..66] && b[82..84] == i[66..68]
            && b[84] == i[68] && b[85] == i[69]
            && b[88..96] == s[0..8] && b[96..96 + g] == s[8..8 + g] && b[96 + g..96 + g + f] == s[8 + g..8 + g + f]
            && b[96 + g + f..] == s[8 + g + f..]
  {
    assert b[..14] == b[0..14] && b[88..] == b[88..|b|];
    SliceSlice(b, 0, 14, 0, 12);
    SliceSlice(b, 0, 14, 12, 14);
    SliceSlice(b, 16, 86, 0, 32);
    SliceSlice(b, 16, 86, 32, 64);
    SliceSlice(b, 16, 86, 64, 66);
    SliceSlice(b, 16, 86, 66, 68);
    SliceSlice(b, 88, |b|, 0, 8);
    SliceSlice(b, 88, |b|, 8, 8 + g);
    SliceSlice(b, 88, |b|, 8 + g, 8 + g + f);
    SliceSlice(b, 88, |b|, 8 + g + f, |b| - 88);
  }

  lemma MagicIs(m: seq<Byte>)
    requires |m| == 14
    ensures m == Magic() <==> m[0..12] == MAGIC && FromLe(m[12..14]) == FORMAT_VERSION
  {
    assert m == m[0..12] + m[12..14];
    hide Le16, FromLe;
    Le16Reads(m[12..14], FORMAT_VERSION);
    assert Magic()[0..12] == MAGIC && Magic()[12..14] == Le16(FORMAT_VERSION);
  }

  /** An entry is accepted iff it is the encoding, up to the bytes no reader looks at. */
  lemma AcceptedIff(sha: Hash, b: seq<Byte>, p: EntryParams, c: seq<Byte>)
    requires |b| < U64
    ensures DecodeEntry(sha, b, p) == Some(c) <==> Encodable(p) && SameOutsidePadding(b, Encoding(sha, p, c))
  {
    EncodingParts(sha, p, c);
    var g, f := |p.gpuName|, |p.fingerprint|;
    hide Encoding, Magic, Identity, Body, Le16, Le64, FromLe;
    if |b| == HEADER_LEN + g + f + |c| {
      ReaderSlices(b, g, f);
      MagicIs(b[..14]);
      IdentityIs(sha, p, c, b[16..86]);
      BodyIs(p, c, b[88..]);
      Le16Reads(b[80..82], g);
      Le16Reads(b[82..84], f);
      Le64Reads(b[88..96], |c|);
    }
  }

  /** Where everything in an entry is. */
  lemma EncodingLayout(sha: Hash, p: EntryParams, c: seq<Byte>)
    ensures MAGIC[11] == 0 && forall i :: 0 <= i < 11 ==> MAGIC[i] == "CUTILECUBIN"[i] as int
    ensures var e, g, f := Encoding(sha, p, c), |p.gpuName|, |p.fingerprint|;
            && |e| == 96 + g + f + |c| && e[0..12] == MAGIC && FromLe(e[12..14]) == 1 && e[14..16] == [0, 0]
            && e[16..48] == sha(c) && e[48..80] == p.bcSha && e[80..82] == Le16(g) && e[82..84] == Le16(f)
            && e[84] == p.optLevel && e[85] == p.flags && e[86..88] == [0, 0] && e[88..96] == Le64(|c|)
            && e[96..96 + g] == p.gpuName && e[96 + g..96 + g + f] == p.fingerprint && e[96 + g + f..] == c
  {
    EncodingParts(sha, p, c);
    var e, g, f := Encoding(sha, p, c), |p.gpuName|, |p.fingerprint|;
    EncodingGaps(sha, p, c);
    hide Encoding, Magic, Identity, Body, Le16, Le64, FromLe;
    ReaderSlices(e, g, f);
    MagicIs(e[..14]);
    IdentityIs(sha, p, c, e[16..86]);
    BodyIs(p, c, e[88..]);
  }

  lemma EncodingGaps(sha: Hash, p: EntryParams, c: seq<Byte>)
    ensures Encoding(sha, p, c)[14..16] == [0, 0] && Encoding(sha, p, c)[86..88] == [0, 0]
  {
    hide Magic, Identity, Body;
    var e := Encoding(sha, p, c);
    assert e[14] == 0 && e[15] == 0 && e[86] == 0 && e[87] == 0;
  }

  /** What was encoded for a request is decoded for that request. */
  lemma RoundTrip(sha: Hash, p: EntryParams, c: seq<Byte>)
    requires Encodable(p) && |Encoding(sha, p, c)| < U64
    ensures DecodeEntry(sha, Encoding(sha, p, c), p) == Some(c)
  {
    EncodingParts(sha, p, c);
    AcceptedIff(sha, Encoding(sha, p, c), p, c);
  }

  /** No byte string is accepted for two requests. */
  lemma OneRequest(sha: Hash, b: seq<Byte>, p: EntryParams, q: EntryParams)
    requires DecodeEntry(sha, b, p).Some? && DecodeEntry(sha, b, q).Some?
    ensures p == q
  {
  }

  /** Torn or extended entries are rejected for every request, whatever the hash does. */
  lemma OnlyWholeEntries(sha: Hash, p: EntryParams, c: seq<Byte>, b: seq<Byte>, q: EntryParams)
    requires Encodable(p) && |Encoding(sha, p, c)| < U64
    requires b < Encoding(sha, p, c) || Encoding(sha, p, c) < b
    ensures DecodeEntry(sha, b, q) == None
  {
    var e := Encoding(sha, p, c);
    RoundTrip(sha, p, c);
    hide Encoding, FromLe;
    if |b| >= HEADER_LEN {
      assert b[80..82] == e[80..82] && b[82..84] == e[82..84] && b[88..96] == e[88..96];
    }
  }
}
