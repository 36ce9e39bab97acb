/** Typed values: their encodings, and what a read makes of any bytes. */
module Codec {
  import opened Basics
  import opened Blocks
  import opened Wire
  import opened Bits
  import opened Zigzag

  /** How the length in front of a string is stored. */
  datatype Prefix = FixedLength(n: nat) | VarintLength64

  datatype Kind =
    | Fint(n: nat, signed: bool)      // writeFint8 .. writeFuint64, n bytes
    | Vint(long: bool, signed: bool)  // writeInt32, writeUint32, writeInt64, writeUint64
    | Text(prefix: Prefix)            // writeStringF16, F32, F64, Vint

  datatype Value = Num(v: int) | Str(s: seq<byte>)

  lemma {:induction false} BytesAreBits(n: nat)
    ensures Pow256(n) == Pow2(8 * n)
  {
    if n > 0 {
      BytesAreBits(n - 1);
      PowSum(8, 8 * (n - 1), 8 * n);
      EightBits();
    }
  }

  lemma EightBits()
    ensures Pow2(7) == 128 && Pow2(8) == 256
  {
    assert Pow2(4) == 16;
  }

  lemma {:induction false} GroupsAreBits(k: nat)
    ensures Pow128(k) == Pow2(7 * k)
  {
    if k > 0 {
      GroupsAreBits(k - 1);
      PowSum(7, 7 * (k - 1), 7 * k);
      EightBits();
    }
  }

  /** The weight of the sign bit of an `n`-byte word. */
  function Half(n: nat): (h: nat)
    requires n >= 1
    ensures 2 * h == Pow256(n)
  {
    BytesAreBits(n);
    Pow2(8 * n - 1)
  }

  function VintBytes(long: bool): nat {
    if long then 8 else 4
  }

  predicate KindOk(k: Kind) {
    match k
    case Fint(n, _) => n in {1, 2, 4, 8}
    case Vint(_, _) => true
    case Text(FixedLength(n)) => n in {2, 4, 8}
    case Text(VarintLength64) => true
  }

  predicate NumberOk(v: int, n: nat, signed: bool)
    requires n >= 1
  {
    if signed then IsSigned(v, Half(n)) else 0 <= v < Pow256(n)
  }

  /** The values a kind carries: numbers of its width, strings whose length fits its length word. */
  predicate ValueOk(k: Kind, x: Value)
    requires KindOk(k)
  {
    match k
    case Fint(n, signed) => x.Num? && NumberOk(x.v, n, signed)
    case Vint(long, signed) => x.Num? && NumberOk(x.v, VintBytes(long), signed)
    case Text(FixedLength(n)) => x.Str? && |x.s| < Pow256(n)
    case Text(VarintLength64) => x.Str? && |x.s| < Pow256(8)
  }

  /** The length is cut to its word when it is passed. */
  function EncodeLength(p: Prefix, len: nat, e: Endian, pf: Platform): seq<byte> {
    match p
    case FixedLength(n) => Fixed(len % Pow256(n), n, e, pf)
    case VarintLength64 => Varint(len % Pow256(8))
  }

  function Encoding(k: Kind, x: Value, e: Endian, pf: Platform): seq<byte>
    requires KindOk(k) && (ValueOk(k, x) || (k.Text? && x.Str?))
  {
    match k
    case Fint(n, signed) => Fixed(if signed then TwosComplement(x.v, Half(n)) else x.v, n, e, pf)
    case Vint(long, signed) => Varint(if signed then Zigzag.Encode(x.v, 8 * VintBytes(long)) else x.v)
    case Text(p) => EncodeLength(p, |x.s|, e, pf) + x.s
  }

  /** What reading makes of the bytes ahead: a value and how many bytes it took, or the range exception
      after some bytes were already consumed. */
  datatype Parsed<+T> = Got(value: T, count: nat) | Short(count: nat)

  function ParseFixed(n: nat, s: seq<byte>, e: Endian, pf: Platform): (r: Parsed<nat>)
    ensures r.Got? ==> r.value < Pow256(n) && r.count == n <= |s|
    ensures r.Short? ==> n > |s| && r.count == 0
  {
    if n > |s| then Short(0) else Got(Unfixed(s[..n], e, pf), n)
  }

  /** How many groups are read at most. */
  function Groups(long: bool): (k: nat)
    ensures k >= 1
  {
    if long then 10 else 5
  }

  /** At most five or ten groups; the result is cut to the word, the way the shifts drop high bits. */
  function ParseVarint(long: bool, s: seq<byte>): (r: Parsed<nat>)
    ensures r.Got? ==> r.value < Pow256(VintBytes(long))
    ensures r.count <= |s|
  {
    match Unvarint(s, Groups(long))
    case None => Short(|s|)
    case Some(r) => Got(r.0 % Pow256(VintBytes(long)), r.1)
  }

  function ParseLength(p: Prefix, s: seq<byte>, e: Endian, pf: Platform): (r: Parsed<nat>)
    ensures r.count <= |s|
  {
    match p
    case FixedLength(n) => ParseFixed(n, s, e, pf)
    case VarintLength64 => ParseVarint(true, s)
  }

  /** A length, then as many bytes. */
  function ParseString(p: Prefix, s: seq<byte>, e: Endian, pf: Platform): Parsed<Value>
    requires KindOk(Text(p))
  {
    match ParseLength(p, s, e, pf)
    case Short(c) => Short(c)
    case Got(len, c) => if c + len > |s| then Short(c) else Got(Str(s[c..c + len]), c + len)
  }

  function Parse(k: Kind, s: seq<byte>, e: Endian, pf: Platform): Parsed<Value>
    requires KindOk(k)
  {
    match k
    case Fint(n, signed) =>
      (match ParseFixed(n, s, e, pf)
       case Short(c) => Short(c)
       case Got(u, c) => Got(Num(if signed then Signed(u, Half(n)) else u), c))
    case Vint(long, signed) =>
      BytesAreBits(VintBytes(long));
      (match ParseVarint(long, s)
       case Short(c) => Short(c)
       case Got(u, c) => Got(Num(if signed then Zigzag.Decode(u, 8 * VintBytes(long)) else u), c))
    case Text(p) => ParseString(p, s, e, pf)
  }

  lemma PowersMatch()
    ensures Pow256(4) <= Pow128(5) && Pow256(8) <= Pow128(10)
  {
    assert Pow256(4) == 256 * (256 * (256 * 256)) by {
      assert Pow256(3) == 256 * (256 * 256) by { assert Pow256(2) == 256 * 256; }
    }
    assert Pow256(8) == 0x1_0000_0000 * 0x1_0000_0000 by {
      assert Pow256(5) == 256 * Pow256(4);
      assert Pow256(6) == 256 * Pow256(5);
      assert Pow256(7) == 256 * Pow256(6);
    }
    assert Pow128(3) == 128 * (128 * 128) by { assert Pow128(2) == 128 * 128; }
    assert Pow128(5) == 128 * (128 * Pow128(3));
    assert Pow128(7) == 128 * (128 * Pow128(5));
    assert Pow128(9) == 128 * (128 * Pow128(7));
    assert Pow128(10) == 128 * Pow128(9);
  }

  lemma EnoughGroups(long: bool)
    ensures Pow256(VintBytes(long)) <= Pow128(Groups(long))
  {
    PowersMatch();
  }

  lemma ParseVarintInverts(long: bool, v: nat, rest: seq<byte>)
    requires v < Pow256(VintBytes(long))
    ensures ParseVarint(long, Varint(v) + rest) == Got(v, |Varint(v)|)
  {
    EnoughGroups(long);
    VarintCut(v, rest, Groups(long), Pow256(VintBytes(long)));
  }

  /** What is read of an encoding fits the word. */
  lemma VarintCut(v: nat, rest: seq<byte>, k: nat, limit: nat)
    requires k >= 1 && v < limit <= Pow128(k)
    ensures Unvarint(Varint(v) + rest, k) == Some((v, |Varint(v)|)) && v % limit == v
  {
    VarintRoundTrip(v, rest, k);
  }

  lemma ParseFixedInverts(n: nat, v: nat, rest: seq<byte>, e: Endian, pf: Platform)
    requires v < Pow256(n)
    ensures ParseFixed(n, Fixed(v, n, e, pf) + rest, e, pf) == Got(v, n)
  {
    FixedRoundTrip(v, n, e, pf);
    assert (Fixed(v, n, e, pf) + rest)[..n] == Fixed(v, n, e, pf);
  }

  function LengthLimit(p: Prefix): nat {
    Pow256(if p.FixedLength? then p.n else 8)
  }

  lemma ParseLengthInverts(p: Prefix, len: nat, rest: seq<byte>, e: Endian, pf: Platform)
    ensures ParseLength(p, EncodeLength(p, len, e, pf) + rest, e, pf)
         == Got(len % LengthLimit(p), |EncodeLength(p, len, e, pf)|)
  {
    match p
    case FixedLength(n) => ParseFixedInverts(n, len % Pow256(n), rest, e, pf);
    case VarintLength64 => ParseVarintInverts(true, len % Pow256(8), rest);
  }

  /** The word of a number, and back. */
  lemma WordFits(n: nat, signed: bool, v: int)
    requires n >= 1 && NumberOk(v, n, signed)
    ensures var u := if signed then TwosComplement(v, Half(n)) else v;
            0 <= u < Pow256(n) && v == if signed then Signed(u, Half(n)) else u
  {
  }

  lemma ParseIntInverts(n: nat, signed: bool, v: int, rest: seq<byte>, e: Endian, pf: Platform)
    requires n >= 1 && n in {1, 2, 4, 8} && NumberOk(v, n, signed)
    ensures var k := Fint(n, signed);
            Parse(k, Encoding(k, Num(v), e, pf) + rest, e, pf) == Got(Num(v), |Encoding(k, Num(v), e, pf)|)
  {
    var u := if signed then TwosComplement(v, Half(n)) else v;
    WordFits(n, signed, v);
    assert Encoding(Fint(n, signed), Num(v), e, pf) == Fixed(u, n, e, pf);
    ParseFixedInverts(n, u, rest, e, pf);
  }

  lemma ParseVintInverts(long: bool, signed: bool, v: int, rest: seq<byte>, e: Endian, pf: Platform)
    requires NumberOk(v, VintBytes(long), signed)
    ensures var k := Vint(long, signed);
            Parse(k, Encoding(k, Num(v), e, pf) + rest, e, pf) == Got(Num(v), |Encoding(k, Num(v), e, pf)|)
  {
    var n := 8 * VintBytes(long);
    if signed {
      Bijection(v, 0, n);
      ParseVarintInverts(long, Zigzag.Encode(v, n), rest);
    } else {
      ParseVarintInverts(long, v, rest);
    }
  }

  /** Cutting a length to its word never lengthens it, and keeps it exactly when it fits. */
  lemma Cut(len: nat, limit: nat)
    requires limit > 0
    ensures len % limit <= len && (len % limit == len <==> len < limit)
  {
  }

  lemma Middle(a: seq<byte>, s: seq<byte>, rest: seq<byte>, cut: nat)
    requires cut <= |s|
    ensures a + s + rest == a + (s + rest) && (a + s + rest)[|a|..|a| + cut] == s[..cut]
  {
  }

  /** What is read once the length is known. */
  lemma TextAfter(p: Prefix, len: seq<byte>, cut: nat, s: seq<byte>, rest: seq<byte>, e: Endian, pf: Platform)
    requires KindOk(Text(p)) && cut <= |s|
    requires ParseLength(p, len + (s + rest), e, pf) == Got(cut, |len|)
    ensures ParseString(p, len + s + rest, e, pf) == Got(Str(s[..cut]), |len| + cut)
  {
    Middle(len, s, rest, cut);
  }

  /** A string comes back cut to what its length word could say. */
  lemma ParseText(p: Prefix, s: seq<byte>, rest: seq<byte>, e: Endian, pf: Platform)
    requires KindOk(Text(p))
    ensures |s| % LengthLimit(p) <= |s|
    ensures var enc := Encoding(Text(p), Str(s), e, pf);
            var cut := |s| % LengthLimit(p);
            Parse(Text(p), enc + rest, e, pf) == Got(Str(s[..cut]), |EncodeLength(p, |s|, e, pf)| + cut)
  {
    Cut(|s|, LengthLimit(p));
    ParseLengthInverts(p, |s|, s + rest, e, pf);
    TextAfter(p, EncodeLength(p, |s|, e, pf), |s| % LengthLimit(p), s, rest, e, pf);
  }

  /** A string survives exactly when its length fits the length word. */
  lemma TextSurvives(p: Prefix, s: seq<byte>, rest: seq<byte>, e: Endian, pf: Platform)
    requires KindOk(Text(p))
    ensures var enc := Encoding(Text(p), Str(s), e, pf);
            Parse(Text(p), enc + rest, e, pf) == Got(Str(s), |enc|) <==> |s| < LengthLimit(p)
  {
    ParseText(p, s, rest, e, pf);
    Cut(|s|, LengthLimit(p));
    if |s| >= LengthLimit(p) {
      assert |s[..|s| % LengthLimit(p)]| < |s|;
    } else {
      assert s[..|s|] == s;
    }
  }

  // ---------- what is cut off ----------

  /** How many bytes a read takes before it finds that there are too few. */
  function Wasted(k: Kind, x: Value, e: Endian, pf: Platform, m: nat): nat
    requires KindOk(k) && ValueOk(k, x)
  {
    match k
    case Fint(_, _) => 0
    case Vint(_, _) => m
    case Text(p) => WastedText(p, |EncodeLength(p, |x.s|, e, pf)|, m)
  }

  /** A length of so many bytes, once it is there; none or all of what there is of it. */
  function WastedText(p: Prefix, len: nat, m: nat): nat {
    if m >= len then len else if p.FixedLength? then 0 else m
  }

  lemma VarintShort(long: bool, v: nat, m: nat)
    requires v < Pow256(VintBytes(long)) && m < |Varint(v)|
    ensures ParseVarint(long, Varint(v)[..m]) == Short(m)
  {
    EnoughGroups(long);
    VarintBound(v, Groups(long));
    CutOff(v, m, Groups(long));
  }

  lemma IntShort(n: nat, signed: bool, v: int, e: Endian, pf: Platform, m: nat)
    requires n >= 1 && n in {1, 2, 4, 8} && NumberOk(v, n, signed) && m < |Encoding(Fint(n, signed), Num(v), e, pf)|
    ensures Parse(Fint(n, signed), Encoding(Fint(n, signed), Num(v), e, pf)[..m], e, pf) == Short(0)
  {
  }

  lemma VintShort(long: bool, signed: bool, v: int, e: Endian, pf: Platform, m: nat)
    requires NumberOk(v, VintBytes(long), signed) && m < |Encoding(Vint(long, signed), Num(v), e, pf)|
    ensures Parse(Vint(long, signed), Encoding(Vint(long, signed), Num(v), e, pf)[..m], e, pf) == Short(m)
  {
    BytesAreBits(VintBytes(long));
    VarintShort(long, if signed then Zigzag.Encode(v, 8 * VintBytes(long)) else v, m);
  }

  lemma TextShort(p: Prefix, s: seq<byte>, e: Endian, pf: Platform, m: nat)
    requires KindOk(Text(p)) && |s| < LengthLimit(p) && m < |EncodeLength(p, |s|, e, pf)| + |s|
    ensures Parse(Text(p), Encoding(Text(p), Str(s), e, pf)[..m], e, pf)
         == Short(WastedText(p, |EncodeLength(p, |s|, e, pf)|, m))
  {
    var len := EncodeLength(p, |s|, e, pf);
    Cut(|s|, LengthLimit(p));
    if m >= |len| {
      assert (len + s)[..m] == len + s[..m - |len|];
      ParseLengthInverts(p, |s|, s[..m - |len|], e, pf);
    } else {
      assert (len + s)[..m] == len[..m];
      if p.VarintLength64? {
        VarintShort(true, |s|, m);
      }
    }
  }

  /** Reading an encoding that is cut off, anywhere, ends in the range exception, after this many bytes. */
  lemma Truncated(k: Kind, x: Value, e: Endian, pf: Platform, m: nat)
    requires KindOk(k) && ValueOk(k, x) && m < |Encoding(k, x, e, pf)|
    ensures Parse(k, Encoding(k, x, e, pf)[..m], e, pf) == Short(Wasted(k, x, e, pf, m))
  {
    match k
    case Fint(n, signed) => IntShort(n, signed, x.v, e, pf, m);
    case Vint(long, signed) => VintShort(long, signed, x.v, e, pf, m);
    case Text(p) => TextShort(p, x.s, e, pf, m);
  }

  // ---------- the bytes ----------

  /** Where byte `i` of an `n`-byte number is stored, counted from its low end. */
  function Place(i: nat, n: nat, e: Endian, pf: Platform): int {
    if (e == Little) == (pf.macro == pf.hardware) then i else n - 1 - i
  }

  /** A fixed-width number takes `n` bytes, those of its two's complement. */
  lemma IntBytes(n: nat, signed: bool, v: int, e: Endian, pf: Platform, i: nat)
    requires n >= 1 && n in {1, 2, 4, 8} && NumberOk(v, n, signed) && i < n
    ensures var enc := Encoding(Fint(n, signed), Num(v), e, pf);
            |enc| == n && enc[Place(i, n, e, pf)] == (if v < 0 then v + Pow256(n) else v) / Pow256(i) % 256
  {
    WordFits(n, signed, v);
    FixedByte(if signed then TwosComplement(v, Half(n)) else v, n, e, pf, i);
  }

  /** A varint holds the number in groups of seven bits, a signed one doubled, or minus doubled less one. */
  lemma VintBytesAre(long: bool, signed: bool, v: int, e: Endian, pf: Platform, i: nat)
    requires NumberOk(v, VintBytes(long), signed) && i < |Encoding(Vint(long, signed), Num(v), e, pf)|
    ensures var (enc, u) := (Encoding(Vint(long, signed), Num(v), e, pf),
                             if !signed then v else if v < 0 then 2 * (-v) - 1 else 2 * v);
            enc[i] == u / Pow128(i) % 128 + if i + 1 < |enc| then 128 else 0
  {
    BytesAreBits(VintBytes(long));
    if signed {
      EncodeIsArithmetic(v, 8 * VintBytes(long));
    }
    VarintByte(if signed then Zigzag.Encode(v, 8 * VintBytes(long)) else v, i);
  }

  /** A string is its length, as a number of `n` bytes or as a varint, and then its characters. */
  lemma TextBytes(p: Prefix, s: seq<byte>, e: Endian, pf: Platform, i: nat)
    requires KindOk(Text(p)) && |s| < LengthLimit(p)
    ensures var enc := Encoding(Text(p), Str(s), e, pf);
            match p
            case FixedLength(n) =>
              |enc| == n + |s| && enc[n..] == s
              && (i < n ==> enc[Place(i, n, e, pf)] == |s| / Pow256(i) % 256)
            case VarintLength64 =>
              var m := |enc| - |s|;
              m >= 1 && enc[m..] == s && |s| < Pow128(m) && (m > 1 ==> Pow128(m - 1) <= |s|)
              && (i < m ==> enc[i] == |s| / Pow128(i) % 128 + if i + 1 < m then 128 else 0)
  {
    Cut(|s|, LengthLimit(p));
    match p
    case FixedLength(n) =>
      if i < n {
        FixedByte(|s|, n, e, pf, i);
      }
    case VarintLength64 =>
      VarintLength(|s|);
      if i < |Varint(|s|)| {
        VarintByte(|s|, i);
      }
  }

  /** Reading inverts writing for every kind of value, whatever follows. */
  lemma ParseInverts(k: Kind, x: Value, rest: seq<byte>, e: Endian, pf: Platform)
    requires KindOk(k) && ValueOk(k, x)
    ensures Parse(k, Encoding(k, x, e, pf) + rest, e, pf) == Got(x, |Encoding(k, x, e, pf)|)
  {
    match k
    case Fint(n, signed) => ParseIntInverts(n, signed, x.v, rest, e, pf);
    case Vint(long, signed) => ParseVintInverts(long, signed, x.v, rest, e, pf);
    case Text(p) => TextSurvives(p, x.s, rest, e, pf);
  }
}
