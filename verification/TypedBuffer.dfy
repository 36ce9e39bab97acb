/** Typed reads and writes on the chunked buffer. */
module TypedBuffer {
  import opened Basics
  import opened Blocks
  import opened Wire
  import opened Bits
  import opened Zigzag
  import opened Codec
  import opened ByteArrays

  method WriteFixed(ba: ByteArray, v: nat, n: nat, pf: Platform)
    requires ba.Valid()
    modifies ba.Repr
    ensures ba.Valid() && fresh(ba.Repr - old(ba.Repr)) && ba.Wrote(Fixed(v, n, ba.endian, pf))
  {
    var value := v;
    if ba.endian != pf.macro {
      value := ByteSwap(v, n);
    }
    ba.Write(Memory(value, n, pf));
  }

  method WriteVarint(ba: ByteArray, v: nat)
    requires ba.Valid()
    modifies ba.Repr
    ensures ba.Valid() && fresh(ba.Repr - old(ba.Repr)) && ba.Wrote(Varint(v))
  {
    var tmp := [];
    var value := v;
    while value >= 128
      invariant tmp + Varint(value) == Varint(v)
    {
      tmp := tmp + [value % 128 + 128];
      value := value / 128;
    }
    tmp := tmp + [value];
    ba.Write(tmp);
  }

  method WriteLength(ba: ByteArray, p: Prefix, len: nat, pf: Platform)
    requires ba.Valid()
    modifies ba.Repr
    ensures ba.Valid() && fresh(ba.Repr - old(ba.Repr)) && ba.Wrote(EncodeLength(p, len, ba.endian, pf))
  {
    match p
    case FixedLength(n) => WriteFixed(ba, len % Pow256(n), n, pf);
    case VarintLength64 => WriteVarint(ba, len % Pow256(8));
  }

  /** A string: its length, then its bytes, as one written slice. */
  method WriteText(ba: ByteArray, p: Prefix, s: seq<byte>, pf: Platform)
    requires ba.Valid()
    modifies ba.Repr
    ensures ba.Valid() && fresh(ba.Repr - old(ba.Repr))
    ensures ba.Wrote(EncodeLength(p, |s|, ba.endian, pf) + s)
  {
    ghost var before, at, len := ba.bytes, ba.position, EncodeLength(p, |s|, ba.endian, pf);
    WriteLength(ba, p, |s|, pf);
    ghost var mid := ba.bytes;
    ba.Write(s);
    WrittenTwice(before, mid, ba.bytes, at, len, s);
  }

  method WriteValue(ba: ByteArray, k: Kind, x: Value, pf: Platform)
    requires ba.Valid() && KindOk(k) && (ValueOk(k, x) || (k.Text? && x.Str?))
    modifies ba.Repr
    ensures ba.Valid() && fresh(ba.Repr - old(ba.Repr)) && ba.Wrote(Encoding(k, x, ba.endian, pf))
  {
    match k
    case Fint(n, signed) => WriteFixed(ba, if signed then TwosComplement(x.v, Half(n)) else x.v, n, pf);
    case Vint(long, signed) => WriteVarint(ba, if signed then Zigzag.Encode(x.v, 8 * VintBytes(long)) else x.v);
    case Text(p) => WriteText(ba, p, x.s, pf);
  }

  method ReadFixed(ba: ByteArray, n: nat, pf: Platform) returns (v: nat, o: Outcome)
    requires ba.Valid() && n >= 1
    modifies ba`position, ba`cur, ba`at
    ensures ba.Valid() && o != NullCursor
    ensures var r := ParseFixed(n, old(ba.Unread()), ba.endian, pf);
            ba.position == old(ba.position) + r.count && (o == Ok <==> r.Got?) && (o == Ok ==> v == r.value)
  {
    var s;
    s, o := ba.Read(n);
    if o != Ok {
      return 0, o;
    }
    assert s == old(ba.Unread())[..n];
    v := FromMemory(s, pf);
    if ba.endian != pf.macro {
      v := ByteSwap(v, n);
    }
  }

  method ReadByte(ba: ByteArray) returns (b: byte, o: Outcome)
    requires ba.Valid()
    modifies ba`position, ba`cur, ba`at
    ensures ba.Valid() && o == if |old(ba.Unread())| == 0 then OutOfRange else Ok
    ensures o == Ok ==> b == old(ba.Unread())[0] && ba.position == old(ba.position) + 1
    ensures o != Ok ==> ba.position == old(ba.position)
  {
    var s;
    s, o := ba.Read(1);
    b := if o == Ok then s[0] else 0;
  }

  lemma Distribute(part: nat, g: nat, p: nat, v: nat)
    ensures part + p * (g + 128 * v) == (part + g * p) + (128 * p) * v
  {
  }

  ghost function Grouped(g: nat, rest: Option<(nat, nat)>): Option<(nat, nat)> {
    if rest.None? then None else Some((g + 128 * rest.value.0, 1 + rest.value.1))
  }

  lemma OneGroup(s: seq<byte>, j: nat, k: nat)
    requires j < k && j < |s|
    ensures s[j] < 128 ==> Unvarint(s[j..], k - j) == Some((s[j], 1))
    ensures s[j] >= 128 ==> Unvarint(s[j..], k - j) == Grouped(s[j] - 128, Unvarint(s[j + 1..], k - j - 1))
  {
    assert s[j..][1..] == s[j + 1..];
  }

  /** What `j` groups read so far, of value `part`, and the groups ahead make together. */
  ghost predicate SoFar(s: seq<byte>, k: nat, j: nat, part: nat) {
    && j <= k && j <= |s|
    && var rest := Unvarint(s[j..], k - j);
       Unvarint(s, k) == if rest.None? then None else Some((part + Pow128(j) * rest.value.0, j + rest.value.1))
  }

  lemma SoFarStep(s: seq<byte>, k: nat, j: nat, part: nat)
    requires SoFar(s, k, j, part) && j < k && j < |s| && s[j] >= 128
    ensures SoFar(s, k, j + 1, part + (s[j] - 128) * Pow128(j))
  {
    OneGroup(s, j, k);
    var rest := Unvarint(s[j + 1..], k - j - 1);
    if rest.Some? {
      Distribute(part, s[j] - 128, Pow128(j), rest.value.0);
    }
  }

  lemma SoFarEnd(s: seq<byte>, k: nat, j: nat, part: nat)
    requires SoFar(s, k, j, part) && j < k && j < |s| && s[j] < 128
    ensures Unvarint(s, k) == Some((part + s[j] * Pow128(j), j + 1))
  {
    OneGroup(s, j, k);
    assert Pow128(j) * s[j] == s[j] * Pow128(j);
  }

  /** `result |= g << i`, in a word of `n` bits. */
  function OrShifted(result: nat, g: nat, i: nat, n: nat): nat
    requires i <= n
  {
    Bits.Value(Or(Of(result, n), ShiftLeft(Of(g, n), i)))
  }

  /** The groups so far take the bits below `7 * j`, so that or-ing in the next is adding it. */
  lemma OrGroup(result: nat, part: nat, g: nat, j: nat, n: nat, limit: nat)
    requires 7 * j <= n && part < Pow128(j) && limit == Pow2(n) && result == part % limit
    ensures OrShifted(result, g, 7 * j, n) == (part + g * Pow128(j)) % limit
  {
    var p, q := Pow2(7 * j), Pow2(n - 7 * j);
    GroupsAreBits(j);
    PowSum(7 * j, n - 7 * j, n);
    Grows(p, q);
    Uncut(part, limit);
    OrIsSum(part, g, 7 * j, n, p, limit);
  }

  lemma Uncut(x: nat, m: nat)
    requires x < m
    ensures x % m == x
  {
  }

  lemma Grows(p: nat, q: nat)
    requires q >= 1
    ensures p <= p * q
  {
  }

  lemma GroupFits(part: nat, g: nat, p: nat)
    requires part < p && g < 128
    ensures part + g * p < 128 * p
  {
    assert g * p <= 127 * p;
  }

  /** What one more byte makes of the groups so far: more of the same, or the decoding. */
  lemma NextGroup(s: seq<byte>, k: nat, j: nat, part: nat, g: nat) returns (sum: nat)
    requires SoFar(s, k, j, part) && j < k && j < |s| && part < Pow128(j)
    requires g == if s[j] < 128 then s[j] else s[j] - 128
    ensures sum == part + g * Pow128(j) < Pow128(j + 1)
    ensures s[j] >= 128 ==> SoFar(s, k, j + 1, sum)
    ensures s[j] < 128 ==> Unvarint(s, k) == Some((sum, j + 1))
  {
    sum := part + g * Pow128(j);
    GroupFits(part, g, Pow128(j));
    if s[j] >= 128 {
      SoFarStep(s, k, j, part);
    } else {
      SoFarEnd(s, k, j, part);
    }
  }

  /** The word after `j` groups, each with a continuation bit. */
  ghost predicate Reading(s: seq<byte>, long: bool, j: nat, result: nat) {
    exists part: nat :: SoFar(s, Groups(long), j, part) && part < Pow128(j) && result == part % Pow256(VintBytes(long))
  }

  lemma ReadingStarts(s: seq<byte>, long: bool)
    ensures Reading(s, long, 0, 0)
  {
    assert s[0..] == s;
    assert SoFar(s, Groups(long), 0, 0);
    Uncut(0, Pow256(VintBytes(long)));
  }

  lemma ReadingGoes(s: seq<byte>, long: bool, j: nat, result: nat, g: nat)
    requires Reading(s, long, j, result) && 7 * j < 8 * VintBytes(long) && j < |s|
    requires g == if s[j] < 128 then s[j] else s[j] - 128
    ensures var r := OrShifted(result, g, 7 * j, 8 * VintBytes(long));
            if s[j] < 128 then ParseVarint(long, s) == Got(r, j + 1) else Reading(s, long, j + 1, r)
  {
    var n, k, limit := VintBytes(long), Groups(long), Pow256(VintBytes(long));
    var part: nat :| SoFar(s, k, j, part) && part < Pow128(j) && result == part % limit;
    assert j < k;
    BytesAreBits(n);
    OrGroup(result, part, g, j, 8 * n, limit);
    var sum := NextGroup(s, k, j, part, g);
    GroupRead(s, long, j, sum, OrShifted(result, g, 7 * j, 8 * n));
  }

  lemma GroupRead(s: seq<byte>, long: bool, j: nat, sum: nat, r: nat)
    requires j < |s| && r == sum % Pow256(VintBytes(long)) && sum < Pow128(j + 1)
    requires s[j] >= 128 ==> SoFar(s, Groups(long), j + 1, sum)
    requires s[j] < 128 ==> Unvarint(s, Groups(long)) == Some((sum, j + 1))
    ensures if s[j] < 128 then ParseVarint(long, s) == Got(r, j + 1) else Reading(s, long, j + 1, r)
  {
  }

  /** The loop ends when the bytes run out, or after the last group. */
  lemma ReadingEnds(s: seq<byte>, long: bool, j: nat, result: nat)
    requires Reading(s, long, j, result)
    ensures j == |s| && j < Groups(long) ==> ParseVarint(long, s) == Short(|s|)
    ensures j == Groups(long) ==> ParseVarint(long, s) == Got(result, j)
  {
  }

  /** readUint32 and readUint64. */
  method ReadVarint(ba: ByteArray, long: bool) returns (result: nat, o: Outcome)
    requires ba.Valid()
    modifies ba`position, ba`cur, ba`at
    ensures ba.Valid() && o != NullCursor
    ensures var r := ParseVarint(long, old(ba.Unread()));
            ba.position == old(ba.position) + r.count && (o == Ok <==> r.Got?) && (o == Ok ==> result == r.value)
  {
    ghost var s, from, j: nat := ba.Unread(), ba.position, 0;
    var bits := 8 * VintBytes(long);
    result := 0;
    var i: nat := 0;
    ReadingStarts(s, long);
    while i < bits
      invariant ba.Valid() && i == 7 * j && j <= |s| && ba.position == from + j && ba.Unread() == s[j..]
      invariant Reading(s, long, j, result)
    {
      ReadingEnds(s, long, j, result);
      var b;
      b, o := ReadByte(ba);
      if o != Ok {
        return 0, o;
      }
      var g: nat := if b < 128 then b else b - 128;
      ReadingGoes(s, long, j, result, g);
      result := OrShifted(result, g, i, bits);
      if b < 128 {
        return result, o;
      }
      i := i + 7;
      j := j + 1;
    }
    ReadingEnds(s, long, j, result);
    o := Ok;
  }

  method ReadLength(ba: ByteArray, p: Prefix, pf: Platform) returns (len: nat, o: Outcome)
    requires ba.Valid() && KindOk(Text(p))
    modifies ba`position, ba`cur, ba`at
    ensures ba.Valid() && o != NullCursor
    ensures var r := ParseLength(p, old(ba.Unread()), ba.endian, pf);
            ba.position == old(ba.position) + r.count && (o == Ok <==> r.Got?) && (o == Ok ==> len == r.value)
  {
    match p
    case FixedLength(n) => len, o := ReadFixed(ba, n, pf);
    case VarintLength64 => len, o := ReadVarint(ba, true);
  }

  /** An empty string whose length word ends at the capacity: its zero-length read meets a null cursor. */
  ghost predicate EmptyAtEnd(r: Parsed<Value>, at: nat, capacity: nat) {
    r.Got? && r.value == Str([]) && at + r.count == capacity
  }

  /** What the bytes after a length of `len`, itself `c` bytes long, make of the string. */
  function Counted(s: seq<byte>, c: nat, len: nat): Parsed<Value> {
    if c + len > |s| then Short(c) else Got(Str(s[c..c + len]), c + len)
  }

  /** The bytes of a string, after its length. */
  method ReadChars(ba: ByteArray, len: nat, ghost from: nat, ghost ahead: seq<byte>) returns (s: seq<byte>, o: Outcome)
    requires ba.Valid() && from <= ba.position && ahead == ba.bytes[from..ba.size]
    modifies ba`position, ba`cur, ba`at
    ensures ba.Valid()
    ensures var r := Counted(ahead, old(ba.position) - from, len);
            && ba.position == from + r.count
            && (o == OutOfRange <==> r.Short?)
            && (o == NullCursor <==> EmptyAtEnd(r, from, ba.capacity))
            && (o == Ok ==> Str(s) == r.value)
  {
    ghost var c: nat := ba.position - from;
    s, o := ba.Read(len);
    if c + len <= |ahead| {
      SliceSlice(ba.bytes, from, ba.size, c, c + len);
    }
  }

  lemma StringIs(p: Prefix, s: seq<byte>, e: Endian, pf: Platform)
    requires KindOk(Text(p))
    ensures ParseString(p, s, e, pf)
         == match ParseLength(p, s, e, pf) case Short(c) => Short(c) case Got(len, c) => Counted(s, c, len)
  {
  }

  method ReadText(ba: ByteArray, p: Prefix, pf: Platform) returns (s: seq<byte>, o: Outcome)
    requires ba.Valid() && KindOk(Text(p))
    modifies ba`position, ba`cur, ba`at
    ensures ba.Valid()
    ensures var r := ParseString(p, old(ba.Unread()), ba.endian, pf);
            && ba.position == old(ba.position) + r.count
            && (o == OutOfRange <==> r.Short?)
            && (o == NullCursor <==> EmptyAtEnd(r, old(ba.position), ba.capacity))
            && (o == Ok ==> Str(s) == r.value)
  {
    ghost var ahead, from := ba.Unread(), ba.position;
    StringIs(p, ahead, ba.endian, pf);
    var len;
    len, o := ReadLength(ba, p, pf);
    if o != Ok {
      return [], o;
    }
    s, o := ReadChars(ba, len, from, ahead);
  }

  /** Every typed read is `Parse` on the bytes ahead, but for the empty string at the capacity. */
  method ReadValue(ba: ByteArray, k: Kind, pf: Platform) returns (x: Value, o: Outcome)
    requires ba.Valid() && KindOk(k)
    modifies ba`position, ba`cur, ba`at
    ensures ba.Valid()
    ensures var r := Parse(k, old(ba.Unread()), ba.endian, pf);
            && ba.position == old(ba.position) + r.count
            && (o == OutOfRange <==> r.Short?)
            && (o == NullCursor <==> EmptyAtEnd(r, old(ba.position), ba.capacity))
            && (o == Ok ==> x == r.value)
  {
    match k
    case Fint(n, signed) =>
      var u;
      u, o := ReadFixed(ba, n, pf);
      x := Num(if signed && o == Ok then Signed(u, Half(n)) else u);
    case Vint(long, signed) =>
      var u;
      u, o := ReadVarint(ba, long);
      BytesAreBits(VintBytes(long));
      x := Num(if signed && o == Ok then Zigzag.Decode(u, 8 * VintBytes(long)) else u);
    case Text(p) =>
      var s;
      s, o := ReadText(ba, p, pf);
      x := Str(s);
  }

  // ---------- sequences of typed values ----------

  datatype Item = Item(kind: Kind, value: Value)

  ghost predicate ItemsOk(items: seq<Item>) {
    forall i | 0 <= i < |items| :: KindOk(items[i].kind) && ValueOk(items[i].kind, items[i].value)
  }

  ghost function EncodeAll(items: seq<Item>, e: Endian, pf: Platform): seq<byte>
    requires ItemsOk(items)
  {
    if items == [] then [] else
      Encoding(items[0].kind, items[0].value, e, pf) + EncodeAll(items[1..], e, pf)
  }

  /** Every value takes at least one byte, so only the last can end where the list does. */
  lemma EncodingNonEmpty(k: Kind, x: Value, e: Endian, pf: Platform)
    requires KindOk(k) && ValueOk(k, x)
    ensures |Encoding(k, x, e, pf)| >= 1
  {
  }

  method WriteAll(ba: ByteArray, items: seq<Item>, pf: Platform)
    requires ba.Valid() && ItemsOk(items)
    modifies ba.Repr
    ensures ba.Valid() && fresh(ba.Repr - old(ba.Repr))
    ensures ba.Wrote(EncodeAll(items, ba.endian, pf))
    decreases |items|
  {
    if items == [] {
      OverwriteIsWritten(ba.bytes, ba.bytes, ba.position, []);
    } else {
      ghost var first := Encoding(items[0].kind, items[0].value, ba.endian, pf);
      ghost var rest := EncodeAll(items[1..], ba.endian, pf);
      assert EncodeAll(items, ba.endian, pf) == first + rest;
      WriteValue(ba, items[0].kind, items[0].value, pf);
      ghost var mid, cap, at := ba.bytes, ba.capacity, ba.position;
      WriteAll(ba, items[1..], pf);
      WrittenTwice(old(ba.bytes), mid, ba.bytes, old(ba.position), first, rest);
      ba.GrownTwice(old(ba.capacity), cap, ba.capacity, at, ba.position);
    }
  }

  /** The one value a read back can fault on: an empty string that ends at the capacity. */
  ghost predicate EndsEmpty(items: seq<Item>, end: nat, capacity: nat) {
    items != [] && items[|items| - 1].value == Str([]) && end == capacity
  }

  /** Where the bytes ahead begin with the encodings of some values, the first is read, and the bytes after it
      begin with those of the others. */
  lemma FirstAhead(items: seq<Item>, s: seq<byte>, e: Endian, pf: Platform)
    requires ItemsOk(items) && items != [] && EncodeAll(items, e, pf) <= s
    ensures var c, rest := |Encoding(items[0].kind, items[0].value, e, pf)|, EncodeAll(items[1..], e, pf);
            && Parse(items[0].kind, s, e, pf) == Got(items[0].value, c)
            && |EncodeAll(items, e, pf)| == c + |rest| <= |s| && rest <= s[c..]
  {
    var enc, rest := Encoding(items[0].kind, items[0].value, e, pf), EncodeAll(items[1..], e, pf);
    assert EncodeAll(items, e, pf) == enc + rest;
    assert s == enc + s[|enc|..];
    ParseInverts(items[0].kind, items[0].value, s[|enc|..], e, pf);
  }

  /** Reads the first of some values whose encodings are ahead. */
  method ReadFirst(ba: ByteArray, kind: Kind, pf: Platform, ghost items: seq<Item>) returns (x: Value, o: Outcome)
    requires ba.Valid() && ItemsOk(items) && items != [] && kind == items[0].kind
    requires EncodeAll(items, ba.endian, pf) <= ba.Unread()
    modifies ba`position, ba`cur, ba`at
    ensures ba.Valid() && EncodeAll(items[1..], ba.endian, pf) <= ba.Unread()
    ensures ba.position + |EncodeAll(items[1..], ba.endian, pf)|
         == old(ba.position) + |EncodeAll(items, ba.endian, pf)| <= ba.capacity
    ensures o == if items[0].value == Str([]) && ba.position == ba.capacity then NullCursor else Ok
    ensures o == Ok ==> x == items[0].value
  {
    FirstAhead(items, ba.Unread(), ba.endian, pf);
    ghost var ahead, from := ba.Unread(), ba.position;
    x, o := ReadValue(ba, kind, pf);
    assert ba.Unread() == ahead[ba.position - from..];
  }

  /** Reads values of the given kinds until one fails. */
  method ReadAll(ba: ByteArray, kinds: seq<Kind>, pf: Platform, ghost items: seq<Item>)
    returns (values: seq<Value>, o: Outcome)
    requires ba.Valid() && ItemsOk(items)
    requires |kinds| == |items| && forall i | 0 <= i < |items| :: kinds[i] == items[i].kind
    requires EncodeAll(items, ba.endian, pf) <= ba.Unread()
    modifies ba`position, ba`cur, ba`at
    ensures ba.Valid() && ba.position == old(ba.position) + |EncodeAll(items, ba.endian, pf)|
    ensures o == if EndsEmpty(items, ba.position, ba.capacity) then NullCursor else Ok
    ensures o == Ok ==> |values| == |items| && forall i | 0 <= i < |items| :: values[i] == items[i].value
    decreases |kinds|
  {
    values, o := [], Ok;
    if kinds != [] {
      var x;
      x, o := ReadFirst(ba, kinds[0], pf, items);
      MoreTakesBytes(items[1..], ba.endian, pf);
      if o == Ok {
        var rest;
        rest, o := ReadAll(ba, kinds[1..], pf, items[1..]);
        values := [x] + rest;
      }
    }
  }

  lemma MoreTakesBytes(items: seq<Item>, e: Endian, pf: Platform)
    requires ItemsOk(items)
    ensures items == [] <==> |EncodeAll(items, e, pf)| == 0
  {
    if items != [] {
      EncodingNonEmpty(items[0].kind, items[0].value, e, pf);
    }
  }

  /** Writes values and goes back to where they begin. */
  method WriteAndReturn(ba: ByteArray, items: seq<Item>, pf: Platform)
    requires ba.Valid() && ItemsOk(items)
    modifies ba.Repr
    ensures ba.Valid() && fresh(ba.Repr - old(ba.Repr)) && ba.position == old(ba.position)
    ensures ba.endian == old(ba.endian) && EncodeAll(items, ba.endian, pf) <= ba.Unread()
  {
    var from := ba.position;
    WriteAll(ba, items, pf);
    ghost var end := ba.position;
    var moved := ba.SetPosition(from);
    SliceSlice(ba.bytes, from, ba.size, 0, end - from);
  }

  function Kinds(items: seq<Item>): (kinds: seq<Kind>)
    ensures |kinds| == |items| && forall i | 0 <= i < |items| :: kinds[i] == items[i].kind
  {
    seq(|items|, i requires 0 <= i < |items| => items[i].kind)
  }

  /** Any sequence of typed values, written from a position and read back from it under the same byte order,
      comes back the same and ends at the same position; the only exception is an empty string written last
      that ends exactly at the capacity, and then the reading faults. */
  method RoundTrip(ba: ByteArray, items: seq<Item>, pf: Platform) returns (values: seq<Value>, o: Outcome)
    requires ba.Valid() && ItemsOk(items)
    modifies ba.Repr
    ensures ba.Valid() && fresh(ba.Repr - old(ba.Repr))
    ensures ba.position == old(ba.position) + |EncodeAll(items, ba.endian, pf)|
    ensures o == if EndsEmpty(items, ba.position, ba.capacity) then NullCursor else Ok
    ensures o == Ok ==> |values| == |items| && forall i | 0 <= i < |items| :: values[i] == items[i].value
  {
    WriteAndReturn(ba, items, pf);
    values, o := ReadAll(ba, Kinds(items), pf, items);
  }
}
