/** Chunk size lines: what the response parser makes of the bytes it is given, and what is lost when a line is
    split across two reads. */
module ChunkSpec {
  import opened Basics

  const CR: byte := 13
  const LF: byte := 10
  const SEMICOLON: byte := 59

  function Digit(b: byte): nat
    requires IsHex(b)
  {
    if b <= 57 then b - 48 else if b <= 70 then b - 55 else b - 87
  }

  /** The value of hexadecimal digits, as strtol reads them. */
  function Hex(s: seq<byte>): nat
    requires forall i | 0 <= i < |s| :: IsHex(s[i])
  {
    if s == [] then 0 else 16 * Hex(s[..|s| - 1]) + Digit(s[|s| - 1])
  }

  /** How many digits come first. */
  function Digits(s: seq<byte>): (d: nat)
    ensures d <= |s| && (forall i | 0 <= i < d :: IsHex(s[i])) && (d < |s| ==> !IsHex(s[d]))
  {
    if s == [] || !IsHex(s[0]) then 0 else 1 + Digits(s[1..])
  }

  /** The parser's verdict on a buffer, from its first state: a whole line of this size and length, no end in
      sight, an error, or a way into states that are not part of this model. */
  datatype Line = Size(v: nat, n: nat) | Partial | Bad | Elsewhere

  const MAX_SIZE: nat := 0x7fff_fffd  // the largest size for which the sums of the source stay in an int

  function Parse(s: seq<byte>): (l: Line)
    ensures l.Size? ==> 0 < l.n <= |s|
  {
    var d := Digits(s);
    if s == [] then Partial
    else if d == 0 then if s[0] == 72 then Elsewhere else Bad
    else if d == |s| then Partial
    else if s[d] == LF then LineOf(Hex(s[..d]), d + 1)
    else if s[d] == CR then
      if d + 1 == |s| then Partial
      else if s[d + 1] == LF then LineOf(Hex(s[..d]), d + 2)
      else Bad
    else if s[d] == SEMICOLON then Elsewhere
    else Bad
  }

  function LineOf(v: nat, n: nat): Line {
    if v <= MAX_SIZE then Size(v, n) else Elsewhere
  }

  lemma {:induction false} DigitsAre(s: seq<byte>, d: nat)
    requires d <= |s| && (forall i | 0 <= i < d :: IsHex(s[i])) && (d < |s| ==> !IsHex(s[d]))
    ensures Digits(s) == d
  {
  }

  /** The line goes wrong at byte `i`: it is no digit, and neither a line end nor a semicolon after digits. */
  predicate WrongAt(s: seq<byte>, i: nat) {
    && i < |s| && (forall j | 0 <= j < i :: IsHex(s[j])) && !IsHex(s[i])
    && (if i == 0 then s[0] != 72
        else s[i] != LF && s[i] != SEMICOLON && (s[i] == CR ==> i + 1 < |s| && s[i + 1] != LF))
  }

  /** Exactly such lines are refused. */
  lemma RefusedExact(s: seq<byte>)
    ensures Parse(s) == Bad <==> exists i :: WrongAt(s, i)
  {
    if i: nat :| WrongAt(s, i) {
      DigitsAre(s, i);
    }
    if Parse(s) == Bad {
      assert WrongAt(s, Digits(s));
    }
  }

  /** More bytes change nothing once there is a verdict. */
  lemma Extend(s: seq<byte>, more: seq<byte>)
    requires Parse(s) != Partial
    ensures Parse(s + more) == Parse(s)
  {
    var d, t := Digits(s), s + more;
    DigitsAre(t, d);
    assert t[..d] == s[..d];
  }

  // ---------- a line and its pieces ----------

  /** A size line: digits and a line end, with or without CR. */
  datatype SizeLine = SizeLine(digits: seq<byte>, cr: bool) {
    ghost predicate Valid() {
      digits != [] && (forall i | 0 <= i < |digits| :: IsHex(digits[i])) && Hex(digits) <= MAX_SIZE
    }

    function Text(): seq<byte> {
      digits + if cr then [CR, LF] else [LF]
    }
  }

  lemma ParseWhole(l: SizeLine, more: seq<byte>)
    requires l.Valid()
    ensures Parse(l.Text() + more) == Size(Hex(l.digits), |l.Text()|)
  {
    var d, t := |l.digits|, l.Text();
    DigitsAre(t, d);
    assert t[..d] == l.digits;
    Extend(t, more);
  }

  /** Exactly the buffers that begin with a whole size line give a size: its value and its length. */
  lemma SizeExact(s: seq<byte>, v: nat, n: nat)
    ensures Parse(s) == Size(v, n)
       <==> exists l: SizeLine :: l.Valid() && l.Text() <= s && v == Hex(l.digits) && n == |l.Text()|
  {
    if l: SizeLine :| l.Valid() && l.Text() <= s && v == Hex(l.digits) && n == |l.Text()| {
      ParseWhole(l, s[|l.Text()|..]);
      assert s == l.Text() + s[|l.Text()|..];
    }
    if Parse(s) == Size(v, n) {
      var d := Digits(s);
      var l := SizeLine(s[..d], s[d] == CR);
      assert l.Valid() && l.Text() <= s;
    }
  }

  /** Losing this many bytes of the line changes nothing: they are leading zeros, and a digit is left. */
  predicate Harmless(l: SizeLine, lost: nat) {
    lost == 0 || (lost < |l.digits| && forall i | 0 <= i < lost :: l.digits[i] == 48)
  }

  function Pow16(n: nat): nat {
    if n == 0 then 1 else 16 * Pow16(n - 1)
  }

  lemma Shift(x: nat, p: nat, y: nat, z: nat)
    ensures x * (16 * p) + (16 * y + z) == 16 * (x * p + y) + z
  {
  }

  lemma {:induction false} HexSplit(a: seq<byte>, b: seq<byte>)
    requires (forall i | 0 <= i < |a| :: IsHex(a[i])) && forall i | 0 <= i < |b| :: IsHex(b[i])
    requires forall i | 0 <= i < |a + b| :: IsHex((a + b)[i])
    ensures Hex(a + b) == Hex(a) * Pow16(|b|) + Hex(b)
  {
    if b == [] {
      assert a + b == a;
    } else {
      var b0 := b[..|b| - 1];
      assert (a + b)[..|a + b| - 1] == a + b0;
      HexSplit(a, b0);
      Shift(Hex(a), Pow16(|b0|), Hex(b0), Digit(b[|b| - 1]));
    }
  }

  lemma {:induction false} HexZero(s: seq<byte>)
    requires forall i | 0 <= i < |s| :: IsHex(s[i])
    ensures Hex(s) == 0 <==> forall i | 0 <= i < |s| :: s[i] == 48
  {
    if s != [] {
      HexZero(s[..|s| - 1]);
      assert forall i | 0 <= i < |s| - 1 :: s[..|s| - 1][i] == s[i];
    }
  }

  lemma Positive(n: nat)
    ensures Pow16(n) > 0
  {
    if n > 0 {
      Positive(n - 1);
    }
  }

  lemma Absorb(x: nat, p: nat, y: nat)
    requires p > 0
    ensures x * p + y == y <==> x == 0
  {
    if x > 0 {
      assert x * p >= p;
    }
  }

  /** What was lost of the digits is all zeros exactly when the value is still right. */
  lemma LostDigits(digits: seq<byte>, lost: nat)
    requires (forall i | 0 <= i < |digits| :: IsHex(digits[i])) && lost < |digits|
    ensures Hex(digits[lost..]) <= Hex(digits)
    ensures Hex(digits[lost..]) == Hex(digits) <==> forall i | 0 <= i < lost :: digits[i] == 48
  {
    var a := digits[..lost];
    assert a + digits[lost..] == digits;
    LostPart(a, digits[lost..]);
    assert forall i | 0 <= i < lost :: a[i] == digits[i];
  }

  lemma LostPart(a: seq<byte>, b: seq<byte>)
    requires (forall i | 0 <= i < |a| :: IsHex(a[i])) && forall i | 0 <= i < |b| :: IsHex(b[i])
    requires forall i | 0 <= i < |a + b| :: IsHex((a + b)[i])
    ensures Hex(b) <= Hex(a + b)
    ensures Hex(b) == Hex(a + b) <==> forall i | 0 <= i < |a| :: a[i] == 48
  {
    HexSplit(a, b);
    HexZero(a);
    Positive(|b|);
    Absorb(Hex(a), Pow16(|b|), Hex(b));
  }

  /** The parser starts anew on every read: of a split line it sees only what came after the split. The size is
      still right exactly when all that was lost is leading zeros and a digit is left. */
  lemma SplitLine(l: SizeLine, lost: nat, more: seq<byte>)
    requires l.Valid() && lost < |l.Text()|
    ensures Parse(l.Text()[lost..] + more) == Size(Hex(l.digits), |l.Text()| - lost) <==> Harmless(l, lost)
  {
    var d, t := |l.digits|, l.Text();
    if lost < d {
      LostDigits(l.digits, lost);
      var l' := SizeLine(l.digits[lost..], l.cr);
      assert t[lost..] == l'.Text();
      ParseWhole(l', more);
    } else {
      var s := t[lost..] + more;
      assert s[0] == t[lost];
      assert Digits(s) == 0;
    }
  }

  /** "1A" split after its first digit is read as "A": ten bytes instead of twenty-six. */
  lemma SplitChangesSize(more: seq<byte>)
    ensures var l := SizeLine([49, 65], true);
            l.Valid() && Hex(l.digits) == 26 && Parse(l.Text()[1..] + more) == Size(10, 3)
  {
    var l, l' := SizeLine([49, 65], true), SizeLine([65], true);
    assert l.digits[..1] == [49] && [49][..0] == [] && [65][..0] == [];
    assert Hex([]) == 0 && Hex([49]) == 1 && Hex(l.digits) == 26 && Hex([65]) == 10;
    assert l.Text()[1..] == l'.Text();
    ParseWhole(l', more);
  }

  // ---------- chunked bodies ----------

  /** A chunk: its size line and its payload. */
  datatype Chunk = Chunk(line: SizeLine, payload: seq<byte>) {
    ghost predicate Valid() {
      line.Valid() && Hex(line.digits) == |payload|
    }

    function Text(): seq<byte> {
      line.Text() + payload + [CR, LF]
    }
  }

  /** Non-empty chunks, then an empty one. */
  ghost predicate ChunkList(chunks: seq<Chunk>) {
    && chunks != [] && chunks[|chunks| - 1].payload == []
    && (forall i | 0 <= i < |chunks| :: chunks[i].Valid())
    && forall i | 0 <= i < |chunks| - 1 :: chunks[i].payload != []
  }

  function Encode(chunks: seq<Chunk>): seq<byte> {
    if chunks == [] then [] else chunks[0].Text() + Encode(chunks[1..])
  }

  function Payload(chunks: seq<Chunk>): seq<byte> {
    if chunks == [] then [] else chunks[0].payload + Payload(chunks[1..])
  }
}
