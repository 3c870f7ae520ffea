/** The content-addressed cache key and the file name made from it. */
module L2Key {
  import opened Prelude
  import opened Bytes

  datatype TileirasOptions = TileirasOptions(optLevel: Byte, deviceDebug: bool, lineinfo: bool, sanitizeMemcheck: bool) {
    function FlagsByte(): Byte {
      (if deviceDebug then 1 else 0) + (if lineinfo then 2 else 0) + (if sanitizeMemcheck then 4 else 0)
    }
  }

  /** Everything the key is derived from. */
  datatype Request = Request(
    major: Byte, minor: Byte, tag: nat, bytecode: seq<Byte>, gpuName: seq<Byte>, opts: TileirasOptions, fingerprint: seq<Byte>)
  {
    /** The field widths of the source: a 16-bit tag and 64-bit lengths. */
    predicate Sized() { tag < U16 && |bytecode| < U64 && |gpuName| < U64 && |fingerprint| < U64 }
  }

  /** `cutile-jit-cubin-v1` and a zero byte. */
  const DOMAIN: seq<Byte> :=
    [0x63, 0x75, 0x74, 0x69, 0x6c, 0x65, 0x2d, 0x6a, 0x69, 0x74, 0x2d, 0x63, 0x75, 0x62, 0x69, 0x6e, 0x2d, 0x76, 0x31, 0]

  /** A length-prefixed field. */
  function Field(s: seq<Byte>): seq<Byte> { Le64(|s|) + s }

  function Fields(fs: seq<seq<Byte>>): seq<Byte> {
    if fs == [] then [] else Field(fs[0]) + Fields(fs[1..])
  }

  function Sections(q: Request): seq<seq<Byte>> {
    [[q.major, q.minor], Le16(q.tag), q.bytecode, q.gpuName, [q.opts.optLevel, q.opts.FlagsByte()], q.fingerprint]
  }

  /** The bytes that are hashed. */
  function Preimage(q: Request): seq<Byte> { DOMAIN + Fields(Sections(q)) }

  const HEX: string := "0123456789abcdef"

  function HexDigit(n: nat): char
    requires n < 16
  {
    HEX[n]
  }

  lemma DigitInjective(n: nat, m: nat)
    requires n < 16 && m < 16 && HexDigit(n) == HexDigit(m)
    ensures n == m
  {
  }

  function Hex(b: seq<Byte>): (s: string)
    ensures |s| == 2 * |b|
  {
    if b == [] then "" else [HexDigit(b[0] / 16), HexDigit(b[0] % 16)] + Hex(b[1..])
  }

  method ComputeHex(bytes: seq<Byte>) returns (out: string)
    ensures out == Hex(bytes)
  {
    out := "";
    for i := 0 to |bytes|
      invariant out + Hex(bytes[i..]) == Hex(bytes)
    {
      assert bytes[i..][0] == bytes[i] && bytes[i..][1..] == bytes[i + 1..];
      ghost var before := out;
      out := out + [HexDigit(bytes[i] / 16)];
      out := out + [HexDigit(bytes[i] % 16)];
      assert before + Hex(bytes[i..]) == out + Hex(bytes[i + 1..]);
    }
    assert bytes[|bytes|..] == [];
  }

  /** The key: update the hasher field by field, then print the digest. */
  method ComputeL2Key(sha: Hash, q: Request) returns (key: string)
    ensures key == Hex(sha(Preimage(q)))
  {
    hide Le64, Le16, Field;
    var h := DOMAIN;
    h := h + Field([q.major, q.minor]);
    h := h + Field(Le16(q.tag));
    h := h + Field(q.bytecode);
    h := h + Field(q.gpuName);
    h := h + Field([q.opts.optLevel, q.opts.FlagsByte()]);
    h := h + Field(q.fingerprint);
    FieldsOfSix([q.major, q.minor], Le16(q.tag), q.bytecode, q.gpuName, [q.opts.optLevel, q.opts.FlagsByte()], q.fingerprint);
    assert h == Preimage(q);
    key := ComputeHex(sha(h));
  }

  lemma FieldsOfSix(a: seq<Byte>, b: seq<Byte>, c: seq<Byte>, d: seq<Byte>, e: seq<Byte>, f: seq<Byte>)
    ensures Fields([a, b, c, d, e, f]) == Field(a) + Field(b) + Field(c) + Field(d) + Field(e) + Field(f)
  {
    hide Field;
    assert [a, b, c, d, e, f][1..] == [b, c, d, e, f];
    assert [b, c, d, e, f][1..] == [c, d, e, f];
    assert [c, d, e, f][1..] == [d, e, f];
    assert [d, e, f][1..] == [e, f];
    assert [e, f][1..] == [f];
    assert Fields([f]) == Field(f) + Fields([]) == Field(f);
    assert Fields([d, e, f]) == Field(d) + (Field(e) + Field(f));
    assert Fields([b, c, d, e, f]) == Field(b) + (Field(c) + Fields([d, e, f]));
  }

  lemma FieldInjective(s: seq<Byte>, t: seq<Byte>, u: seq<Byte>, v: seq<Byte>)
    requires |s| < U64 && |t| < U64 && Field(s) + u == Field(t) + v
    ensures s == t && u == v
  {
    hide Le64;
    var x := Field(s) + u;
    assert x == Le64(|s|) + s + u && x == Le64(|t|) + t + v;
    Cut3(Le64(|s|), s, u);
    Cut3(Le64(|t|), t, v);
    Le64Reads(Le64(|s|), |s|);
    Le64Reads(Le64(|s|), |t|);
  }

  lemma {:induction false} FieldsInjective(fs: seq<seq<Byte>>, gs: seq<seq<Byte>>)
    requires |fs| == |gs| && Fields(fs) == Fields(gs)
    requires (forall i :: 0 <= i < |fs| ==> |fs[i]| < U64) && (forall i :: 0 <= i < |gs| ==> |gs[i]| < U64)
    ensures fs == gs
    decreases |fs|
  {
    hide Field;
    if fs != [] {
      FieldInjective(fs[0], gs[0], Fields(fs[1..]), Fields(gs[1..]));
      FieldsInjective(fs[1..], gs[1..]);
    }
  }

  lemma FlagsInjective(a: TileirasOptions, b: TileirasOptions)
    requires a.FlagsByte() == b.FlagsByte() && a.optLevel == b.optLevel
    ensures a == b
  {
  }

  /** Bit 0 is device debugging, bit 1 line information, bit 2 the memory checker, and no other bit is set. */
  lemma FlagBits(o: TileirasOptions)
    ensures o.FlagsByte() < 8
    ensures (o.FlagsByte() % 2 == 1 <==> o.deviceDebug) && (o.FlagsByte() / 2 % 2 == 1 <==> o.lineinfo)
    ensures o.FlagsByte() / 4 % 2 == 1 <==> o.sanitizeMemcheck
  {
  }

  lemma DomainText()
    ensures |DOMAIN| == 20 && DOMAIN[19] == 0 && forall i :: 0 <= i < 19 ==> DOMAIN[i] == "cutile-jit-cubin-v1"[i] as int
  {
  }

  lemma TagBytes(tag: nat)
    requires tag < U16
    ensures Le16(tag) == [tag % 256, tag / 256]
  {
    LeDigit(tag, 2, 0);
    LeDigit(tag, 2, 1);
    assert Pow256(1) == 256;
  }

  /** The domain separator, then six fields in order, each behind its 64-bit length. */
  lemma PreimageLayout(q: Request)
    requires q.Sized()
    ensures Preimage(q) ==
            DOMAIN + ((Le64(2) + [q.major, q.minor]) + (Le64(2) + [q.tag % 256, q.tag / 256])
                      + (Le64(|q.bytecode|) + q.bytecode) + (Le64(|q.gpuName|) + q.gpuName)
                      + (Le64(2) + [q.opts.optLevel, q.opts.FlagsByte()]) + (Le64(|q.fingerprint|) + q.fingerprint))
  {
    TagBytes(q.tag);
    FieldsOfSix([q.major, q.minor], Le16(q.tag), q.bytecode, q.gpuName, [q.opts.optLevel, q.opts.FlagsByte()], q.fingerprint);
    hide Le64, Le16, Fields, TileirasOptions.FlagsByte;
  }

  /** The hashed bytes determine the request: no two requests share a preimage. */
  lemma PreimageInjective(q: Request, r: Request)
    requires q.Sized() && r.Sized() && Preimage(q) == Preimage(r)
    ensures q == r
  {
    assert Preimage(q)[|DOMAIN|..] == Fields(Sections(q));
    assert Preimage(r)[|DOMAIN|..] == Fields(Sections(r));
    hide Le16, Fields, Field;
    FieldsInjective(Sections(q), Sections(r));
    var x, y := Sections(q), Sections(r);
    assert x[0] == y[0] && x[1] == y[1] && x[2] == y[2] && x[3] == y[3] && x[4] == y[4] && x[5] == y[5];
    assert x[0][0] == y[0][0] && x[0][1] == y[0][1] && x[4][0] == y[4][0] && x[4][1] == y[4][1];
    Le16Reads(x[1], q.tag);
    Le16Reads(x[1], r.tag);
    FlagsInjective(q.opts, r.opts);
  }

  /** A shared key is a hash collision, never an encoding accident. */
  lemma SharedKeyIsCollision(sha: Hash, q: Request, r: Request)
    requires q.Sized() && r.Sized() && q != r && Hex(sha(Preimage(q))) == Hex(sha(Preimage(r)))
    ensures Preimage(q) != Preimage(r) && sha(Preimage(q)) == sha(Preimage(r))
  {
    HexInjective(sha(Preimage(q)), sha(Preimage(r)));
    if Preimage(q) == Preimage(r) {
      PreimageInjective(q, r);
      assert false;
    }
  }

  /** What a hex digit stands for. */
  function DigitValue(c: char): (n: nat)
    requires LowerHex(c)
  {
    if c <= '9' then c as int - '0' as int else 10 + (c as int - 'a' as int)
  }

  /** Reads two digits a byte, high digit first. */
  function Unhex(s: string): seq<int>
    requires |s| % 2 == 0 && forall i :: 0 <= i < |s| ==> LowerHex(s[i])
  {
    if s == "" then [] else [16 * DigitValue(s[0]) + DigitValue(s[1])] + Unhex(s[2..])
  }

  /** Reading the printed digits in base 16 gives the bytes back. */
  lemma {:induction false} HexReadsBack(b: seq<Byte>)
    ensures (forall i :: 0 <= i < |Hex(b)| ==> LowerHex(Hex(b)[i])) && Unhex(Hex(b)) == b
    decreases |b|
  {
    HexIsLower(b);
    if b != [] {
      HexReadsBack(b[1..]);
      DigitReadsBack(b[0] / 16);
      DigitReadsBack(b[0] % 16);
      hide HexDigit, DigitValue;
      assert Hex(b)[2..] == Hex(b[1..]);
    }
  }

  lemma DigitReadsBack(n: nat)
    requires n < 16
    ensures LowerHex(HexDigit(n)) && DigitValue(HexDigit(n)) == n
  {
  }

  lemma {:induction false} HexInjective(b: seq<Byte>, c: seq<Byte>)
    requires Hex(b) == Hex(c)
    ensures b == c
    decreases |b|
  {
    if b != [] {
      hide HexDigit;
      var s, t := Hex(b), Hex(c);
      assert s[0] == t[0] && s[1] == t[1] && s[2..] == Hex(b[1..]) && t[2..] == Hex(c[1..]);
      DigitInjective(b[0] / 16, c[0] / 16);
      DigitInjective(b[0] % 16, c[0] % 16);
      HexInjective(b[1..], c[1..]);
    }
  }

  // ---------------------------------------------------------------- file names

  predicate LowerHex(c: char) { '0' <= c <= '9' || 'a' <= c <= 'f' }

  /** A path below the store root: a shard directory and a file in it. */
  datatype EntryPath = EntryPath(shard: string, file: string)

  /** The path of an entry, or nothing for a key that is not 64 lowercase hex digits. */
  function PathOf(key: string): Option<EntryPath> {
    if |key| == 64 && forall i :: 0 <= i < |key| ==> LowerHex(key[i]) then Some(EntryPath(key[..2], key + ".cubin"))
    else None
  }

  /** Exactly the keys of 64 lowercase hex digits have a path, sharded by their first two digits. */
  lemma PathOfIff(key: string)
    ensures PathOf(key).Some? <==> |key| == 64 && forall i :: 0 <= i < |key| ==> key[i] in "0123456789abcdef"
    ensures PathOf(key).Some? ==> PathOf(key).value == EntryPath(key[..2], key + ".cubin")
  {
    forall c: char ensures LowerHex(c) <==> c in "0123456789abcdef" { HexChars(c); }
  }

  lemma HexChars(c: char)
    ensures LowerHex(c) <==> c in "0123456789abcdef"
  {
    if LowerHex(c) {
      var n := DigitValue(c);
      assert "0123456789abcdef"[n] == c;
    }
  }

  lemma {:induction false} HexIsLower(b: seq<Byte>)
    ensures forall i :: 0 <= i < |Hex(b)| ==> LowerHex(Hex(b)[i])
    decreases |b|
  {
    if b != [] {
      HexIsLower(b[1..]);
    }
  }

  predicate TemporaryAt(file: string, i: nat) { i + 5 <= |file| && file[i..i + 5] == ".tmp." }

  /** What marks the leftovers of a crashed write. */
  ghost predicate LooksTemporary(file: string) { exists i: nat :: TemporaryAt(file, i) }

  /** Every digest names a file, and different digests name different files. */
  lemma DigestsNameFiles(d: Digest, e: Digest)
    ensures PathOf(Hex(d)).Some?
    ensures PathOf(Hex(d)) == PathOf(Hex(e)) ==> d == e
  {
    HexIsLower(d);
    HexIsLower(e);
    if PathOf(Hex(d)) == PathOf(Hex(e)) {
      var s, t := Hex(d) + ".cubin", Hex(e) + ".cubin";
      assert s == t && s[..64] == Hex(d) && t[..64] == Hex(e);
      HexInjective(d, e);
    }
  }

  /** An accepted key cannot leave the store or collide with a temporary file. */
  lemma PathsStayInside(key: string)
    requires PathOf(key).Some?
    ensures |PathOf(key).value.shard| == 2 && '/' !in PathOf(key).value.shard && '.' !in PathOf(key).value.shard
    ensures |PathOf(key).value.file| == 70 && '/' !in PathOf(key).value.file && PathOf(key).value.file[..64] == key
    ensures !LooksTemporary(PathOf(key).value.file)
  {
    var p := PathOf(key).value;
    forall i | 0 <= i < |p.shard| ensures LowerHex(p.shard[i]) {
      assert p.shard[i] == key[i];
    }
    forall i | 0 <= i < |p.file| ensures p.file[i] != '/' {
      assert i < 64 ==> p.file[i] == key[i];
      assert i >= 64 ==> p.file[i] == ".cubin"[i - 64];
    }
    forall i: nat ensures !TemporaryAt(p.file, i) {
      if i <= 65 {
        assert p.file[i..i + 5][0] == p.file[i] && p.file[i..i + 5][1] == p.file[i + 1];
        assert i < 64 ==> p.file[i] == key[i];
        assert i >= 64 ==> p.file[i + 1] == ".cubin"[i - 63];
      }
    }
  }
}
