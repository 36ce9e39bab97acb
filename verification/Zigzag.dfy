/** Zigzag: signed values as unsigned ones, by shifts and exclusive or. Words have `n` bits, 32 or 64. */
module Zigzag {
  import opened Bits

  predicate IsSigned(v: int, h: nat) {
    0 <= v + h < 2 * h
  }

  predicate IsWord(u: int, h: nat) {
    0 <= u < 2 * h
  }

  /** Two's complement, where `h` is the weight of the sign bit. */
  function TwosComplement(v: int, h: nat): (u: nat)
    requires IsSigned(v, h)
    ensures IsWord(u, h)
  {
    if v < 0 then v + 2 * h else v
  }

  function Signed(u: nat, h: nat): (v: int)
    requires IsWord(u, h)
    ensures IsSigned(v, h)
  {
    if u < h then u else u - 2 * h
  }

  /** `(v << 1) ^ (v >> 31)`, the second shift signed. */
  function EncodeBits(w: Word): (u: Word)
    requires w != []
    ensures |u| == |w|
  {
    Xor(ShiftLeft(w, 1), ShiftRight(w, |w| - 1, true))
  }

  /** `(u >> 1) ^ -(u & 1)`. */
  function DecodeBits(u: Word): (w: Word)
    requires u != []
    ensures |w| == |u|
  {
    Xor(ShiftRight(u, 1, false), Negate(And(u, Of(1, |u|))))
  }

  /** EncodeZigzag32 and EncodeZigzag64. */
  function Encode(v: int, n: nat): (u: nat)
    requires n >= 1 && IsSigned(v, Pow2(n - 1))
    ensures IsWord(u, Pow2(n - 1))
  {
    Value(EncodeBits(Of(TwosComplement(v, Pow2(n - 1)), n)))
  }

  /** DecodeZigzag32 and DecodeZigzag64. */
  function Decode(u: nat, n: nat): (v: int)
    requires n >= 1 && IsWord(u, Pow2(n - 1))
    ensures IsSigned(v, Pow2(n - 1))
  {
    Signed(Value(DecodeBits(Of(u, n))), Pow2(n - 1))
  }

  /** The bits: the sign first, then the others, complemented when it is set. */
  lemma EncodeShape(low: Word, sign: bool)
    ensures EncodeBits(low + [sign]) == [sign] + Xor(low, Fill(sign, |low|))
  {
  }

  lemma DecodeShape(low: bool, high: Word)
    ensures DecodeBits([low] + high) == Xor(high, Fill(low, |high|)) + [low]
  {
    var n := |high| + 1;
    Zero(n - 1);
    assert Of(1, n) == [true] + Fill(false, n - 1);
    assert And([low] + high, Of(1, n)) == [low] + Fill(false, n - 1);
    NegateBit(low, n);
  }

  /** The form of the disabled branch: twice the value, or twice its negation less one. */
  lemma EncodeIsArithmetic(v: int, n: nat)
    requires n >= 1 && IsSigned(v, Pow2(n - 1))
    ensures Encode(v, n) == if v < 0 then 2 * (-v) - 1 else 2 * v
  {
    var w := Of(TwosComplement(v, Pow2(n - 1)), n);
    var low, sign := w[..n - 1], w[n - 1];
    assert w == low + [sign];
    ValueOf(TwosComplement(v, Pow2(n - 1)), n);
    ValueLast(low, sign);
    EncodeShape(low, sign);
    XorFill(low, sign);
    assert ([sign] + Xor(low, Fill(sign, n - 1)))[1..] == Xor(low, Fill(sign, n - 1));
  }

  lemma DecodeIsArithmetic(u: nat, n: nat)
    requires n >= 1 && IsWord(u, Pow2(n - 1))
    ensures Decode(u, n) == if u % 2 == 1 then -(u / 2) - 1 else u / 2
  {
    var w := Of(u, n);
    var low, high := w[0], w[1..];
    assert w == [low] + high;
    ValueOf(u, n);
    DecodeShape(low, high);
    XorFill(high, low);
    ValueLast(Xor(high, Fill(low, n - 1)), low);
  }

  lemma Bijection(v: int, u: nat, n: nat)
    requires n >= 1 && IsSigned(v, Pow2(n - 1)) && IsWord(u, Pow2(n - 1))
    ensures Decode(Encode(v, n), n) == v
    ensures Encode(Decode(u, n), n) == u
  {
    EncodeIsArithmetic(v, n);
    DecodeIsArithmetic(Encode(v, n), n);
    DecodeIsArithmetic(u, n);
    EncodeIsArithmetic(Decode(u, n), n);
  }
}
