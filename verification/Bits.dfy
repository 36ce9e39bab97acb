/** Machine words bit by bit, lowest first, with the operators of the source. */
module Bits {
  import opened Blocks

  type Word = seq<bool>

  function Pow2(n: nat): (p: nat)
    ensures p >= 1
  {
    if n == 0 then 1 else 2 * Pow2(n - 1)
  }

  function Value(w: Word): (v: nat)
    ensures v < Pow2(|w|)
  {
    if w == [] then 0 else (if w[0] then 1 else 0) + 2 * Value(w[1..])
  }

  /** The low `n` bits of a number. */
  function Of(x: nat, n: nat): (w: Word)
    ensures |w| == n
  {
    if n == 0 then [] else [x % 2 == 1] + Of(x / 2, n - 1)
  }

  function Fill(b: bool, n: nat): (w: Word)
    ensures |w| == n && forall k | 0 <= k < n :: w[k] == b
  {
    seq(n, k => b)
  }

  // ---------- operators ----------

  function Xor(a: Word, b: Word): (w: Word)
    requires |a| == |b|
    ensures |w| == |a| && forall k | 0 <= k < |a| :: w[k] == (a[k] != b[k])
  {
    seq(|a|, k requires 0 <= k < |a| => a[k] != b[k])
  }

  function Or(a: Word, b: Word): (w: Word)
    requires |a| == |b|
    ensures |w| == |a| && forall k | 0 <= k < |a| :: w[k] == (a[k] || b[k])
  {
    seq(|a|, k requires 0 <= k < |a| => a[k] || b[k])
  }

  function And(a: Word, b: Word): (w: Word)
    requires |a| == |b|
    ensures |w| == |a| && forall k | 0 <= k < |a| :: w[k] == (a[k] && b[k])
  {
    seq(|a|, k requires 0 <= k < |a| => a[k] && b[k])
  }

  function ShiftLeft(w: Word, i: nat): (r: Word)
    requires i <= |w|
    ensures |r| == |w|
  {
    Fill(false, i) + w[..|w| - i]
  }

  /** An unsigned shift brings zeros in, a signed one the sign bit. */
  function ShiftRight(w: Word, i: nat, signed: bool): (r: Word)
    requires i <= |w| && w != []
    ensures |r| == |w|
  {
    w[i..] + Fill(signed && w[|w| - 1], i)
  }

  /** Two's complement. */
  function Negate(w: Word): (r: Word)
    ensures |r| == |w|
  {
    Of((Pow2(|w|) - Value(w)) % Pow2(|w|), |w|)
  }

  // ---------- values ----------

  lemma {:induction false} ValueOf(x: nat, n: nat)
    requires x < Pow2(n)
    ensures Value(Of(x, n)) == x
  {
    if n > 0 {
      ValueOf(x / 2, n - 1);
      assert Of(x, n)[1..] == Of(x / 2, n - 1);
    }
  }

  lemma {:induction false} OfValue(w: Word)
    ensures Of(Value(w), |w|) == w
  {
    if w != [] {
      OfValue(w[1..]);
    }
  }

  lemma {:induction false} ValueAppend(a: Word, b: Word)
    ensures Value(a + b) == Value(a) + Pow2(|a|) * Value(b)
  {
    if a == [] {
      assert a + b == b;
    } else {
      ValueAppend(a[1..], b);
      assert (a + b)[1..] == a[1..] + b;
      Double(Pow2(|a| - 1), Value(b));
    }
  }

  lemma Double(p: nat, v: nat)
    ensures 2 * (p * v) == (2 * p) * v
  {
  }

  lemma Single(b: bool)
    ensures Value([b]) == if b then 1 else 0
  {
    assert [b][1..] == [];
  }

  lemma ValueLast(a: Word, b: bool)
    ensures Value(a + [b]) == Value(a) + if b then Pow2(|a|) else 0
  {
    ValueAppend(a, [b]);
    Single(b);
    if b {
      assert Pow2(|a|) * 1 == Pow2(|a|);
    }
  }

  /** `^` with all zeros keeps a word, with all ones complements it. */
  lemma {:induction false} XorFill(a: Word, ones: bool)
    ensures Value(Xor(a, Fill(ones, |a|))) == if ones then Pow2(|a|) - 1 - Value(a) else Value(a)
  {
    if a != [] {
      XorFill(a[1..], ones);
      assert Xor(a, Fill(ones, |a|))[1..] == Xor(a[1..], Fill(ones, |a| - 1));
    }
  }

  lemma {:induction false} ValueFill(b: bool, n: nat)
    ensures Value(Fill(b, n)) == if b then Pow2(n) - 1 else 0
  {
    if n > 0 {
      ValueFill(b, n - 1);
      assert Fill(b, n)[1..] == Fill(b, n - 1);
    }
  }

  /** Minus the lowest bit is all zeros or all ones. */
  lemma NegateBit(b: bool, n: nat)
    requires n >= 1
    ensures Negate([b] + Fill(false, n - 1)) == Fill(b, n)
  {
    var w := [b] + Fill(false, n - 1);
    ValueFill(false, n - 1);
    assert w[1..] == Fill(false, n - 1);
    ValueFill(b, n);
    OfValue(Fill(b, n));
    assert Value(w) == if b then 1 else 0;
    Wraps(Pow2(n), Value(w));
  }

  lemma Wraps(p: nat, v: nat)
    requires v < p
    ensures (p - v) % p == if v == 0 then 0 else p - v
  {
  }

  /** Or-ing in a number shifted past all bits so far is adding it, cut to the word. */
  lemma OrIsSum(part: nat, g: nat, i: nat, n: nat, p: nat, m: nat)
    requires i <= n && part < p == Pow2(i) && m == Pow2(n)
    ensures Value(Or(Of(part, n), ShiftLeft(Of(g, n), i))) == (part + g * p) % m
  {
    var q := Pow2(n - i);
    PowSum(i, n - i, n);
    JoinValue(part, g, i, n, p, q);
    Shifted(part, g, p, q, m);
  }

  lemma OrIsJoin(part: nat, g: nat, i: nat, n: nat)
    requires i <= n && part < Pow2(i)
    ensures Or(Of(part, n), ShiftLeft(Of(g, n), i)) == Of(part, i) + Of(g, n)[..n - i]
  {
    Low(part, i, n);
    Disjoint(Of(part, i), Of(g, n)[..n - i]);
  }

  lemma JoinValue(part: nat, g: nat, i: nat, n: nat, p: nat, q: nat)
    requires i <= n && part < p == Pow2(i) && 1 <= q == Pow2(n - i)
    ensures Value(Or(Of(part, n), ShiftLeft(Of(g, n), i))) == part + p * (g % q)
  {
    OrIsJoin(part, g, i, n);
    ValueAppend(Of(part, i), Of(g, n)[..n - i]);
    ValueOf(part, i);
    LowBits(g, n - i, n);
  }

  lemma Disjoint(a: Word, b: Word)
    ensures Or(a + Fill(false, |b|), Fill(false, |a|) + b) == a + b
  {
  }

  lemma {:induction false} PowSum(a: nat, b: nat, c: nat)
    requires c == a + b
    ensures Pow2(c) == Pow2(a) * Pow2(b)
    decreases a
  {
    if a > 0 {
      PowSum(a - 1, b, c - 1);
      Double(Pow2(a - 1), Pow2(b));
    }
  }

  lemma Shifted(part: nat, g: nat, p: nat, q: nat, m: nat)
    requires p >= 1 && q >= 1 && part < p && m == p * q
    ensures (part + g * p) % m == part + p * (g % q)
  {
    var d, r := g / q, g % q;
    Bound(part, p, r, q);
    ModOf(part + p * r, d, m);
    assert part + g * p == part + p * r + d * m by {
      Division(g, q);
      Spread(part, d, q, r, p);
    }
  }

  lemma ModOf(c: nat, d: nat, m: nat)
    requires c < m
    ensures (c + d * m) % m == c
  {
    DivMod(c + d * m, d, m);
  }

  lemma Spread(part: nat, d: nat, q: nat, r: nat, p: nat)
    ensures part + (d * q + r) * p == part + p * r + d * (p * q)
  {
  }

  lemma Bound(part: nat, p: nat, r: nat, q: nat)
    requires part < p && r < q
    ensures part + p * r < p * q
  {
    MulUp(p, r + 1, q);
    assert p * (r + 1) == p * r + p;
  }

  lemma MulUp(p: nat, a: nat, b: nat)
    requires a <= b
    ensures p * a <= p * b
  {
  }

  /** A number below `2^i` has zeros from bit `i` on. */
  lemma {:induction false} Low(x: nat, i: nat, n: nat)
    requires i <= n && x < Pow2(i)
    ensures x < Pow2(n) && Of(x, n) == Of(x, i) + Fill(false, n - i)
  {
    if i == 0 {
      Zero(n);
    } else {
      Low(x / 2, i - 1, n - 1);
    }
  }

  lemma {:induction false} Zero(n: nat)
    ensures Of(0, n) == Fill(false, n)
  {
    if n > 0 {
      Zero(n - 1);
    }
  }

  /** Dropping the high bits is a remainder. */
  lemma {:induction false} LowBits(x: nat, k: nat, n: nat)
    requires k <= n
    ensures Value(Of(x, n)[..k]) == x % Pow2(k)
    decreases k
  {
    if k == 0 {
    } else {
      LowBits(x / 2, k - 1, n - 1);
      assert Of(x, n)[..k] == [x % 2 == 1] + Of(x / 2, n - 1)[..k - 1];
      assert Of(x, n)[..k][1..] == Of(x / 2, n - 1)[..k - 1];
      HalfMod(x, Pow2(k - 1));
    }
  }

  lemma HalfMod(x: nat, p: nat)
    requires p >= 1
    ensures x % (2 * p) == x % 2 + 2 * (x / 2 % p)
  {
    var q, r := x / 2 / p, x / 2 % p;
    assert x / 2 == q * p + r;
    assert x == 2 * (q * p + r) + x % 2 == q * (2 * p) + (2 * r + x % 2);
    DivMod(x, q, 2 * p);
  }
}
