/** Slices of byte strings, and the arithmetic of addressing equal blocks. */
module Blocks {
  import opened Basics

  /** `s` with the bytes from `at` on replaced by `w`. */
  ghost function Overwrite(s: seq<byte>, at: nat, w: seq<byte>): (r: seq<byte>)
    requires at + |w| <= |s|
    ensures |r| == |s|
  {
    s[..at] + w + s[at + |w|..]
  }

  /** Overwriting in two adjacent pieces is overwriting once. */
  lemma OverwriteExtend(s: seq<byte>, at: nat, w: seq<byte>, k: nat, n: nat)
    requires k + n <= |w| && at + |w| <= |s|
    ensures Overwrite(Overwrite(s, at, w[..k]), at + k, w[k..k + n]) == Overwrite(s, at, w[..k + n])
  {
  }

  /** A slice away from the overwritten part keeps its bytes. */
  lemma OverwriteElsewhere(s: seq<byte>, at: nat, w: seq<byte>, a: nat, b: nat)
    requires at + |w| <= |s| && a <= b <= |s| && (b <= at || at + |w| <= a)
    ensures Overwrite(s, at, w)[a..b] == s[a..b]
  {
  }

  /** A slice around the overwritten part is overwritten at the matching place. */
  lemma OverwriteWithin(s: seq<byte>, at: nat, w: seq<byte>, a: nat, b: nat)
    requires a <= at && at + |w| <= b <= |s|
    ensures Overwrite(s, at, w)[a..b] == Overwrite(s[a..b], at - a, w)
  {
  }

  /** `after` is `before`, perhaps longer, with `w` written at `at`; any other byte is kept. */
  ghost predicate Written(before: seq<byte>, after: seq<byte>, at: nat, w: seq<byte>)
    requires at <= |before|
  {
    && at + |w| <= |after| && |before| <= |after|
    && after[..at] == before[..at]
    && after[at..at + |w|] == w
    && (at + |w| <= |before| ==> after[at + |w|..|before|] == before[at + |w|..])
  }

  lemma OverwriteIsWritten(before: seq<byte>, full: seq<byte>, at: nat, w: seq<byte>)
    requires |before| <= |full| && full[..|before|] == before && at <= |before| && at + |w| <= |full|
    ensures Written(before, Overwrite(full, at, w), at, w)
  {
    assert full[..at] == full[..|before|][..at];
    if at + |w| <= |before| {
      assert full[at + |w|..|before|] == full[..|before|][at + |w|..];
    }
  }

  /** Two adjacent writes are one. */
  lemma WrittenTwice(before: seq<byte>, mid: seq<byte>, after: seq<byte>, at: nat, v: seq<byte>, w: seq<byte>)
    requires at <= |before| && Written(before, mid, at, v) && Written(mid, after, at + |v|, w)
    ensures Written(before, after, at, v + w)
  {
    var m, e := at + |v|, at + |v| + |w|;
    assert after[..at] == after[..m][..at] == mid[..m][..at] == mid[..at];
    assert after[at..m] == after[..m][at..] == mid[..m][at..] == mid[at..m];
    assert after[at..e] == after[at..m] + after[m..e];
    if e <= |before| {
      assert after[e..|before|] == after[e..|mid|][..|before| - e] == mid[e..][..|before| - e] == mid[e..|before|];
      assert mid[e..|before|] == mid[m..|before|][|w|..] == before[m..][|w|..] == before[e..];
    }
  }

  lemma SliceSlice(s: seq<byte>, a: nat, b: nat, c: nat, d: nat)
    requires a + d <= b <= |s| && c <= d
    ensures s[a..b][c..d] == s[a + c..a + d]
  {
    forall k | 0 <= k < d - c ensures s[a..b][c..d][k] == s[a + c..a + d][k] {
      assert s[a..b][c + k] == s[a + (c + k)];
    }
  }

  lemma SliceExtend(r: seq<byte>, piece: seq<byte>, s: seq<byte>, a: nat, b: nat, c: nat)
    requires a <= b <= c <= |s| && r == s[a..b] && piece == s[b..c]
    ensures r + piece == s[a..c]
  {
  }

  lemma MulLess(i: nat, n: nat, b: nat)
    requires i < n
    ensures i * b + b == (i + 1) * b <= n * b
  {
    var d := n - (i + 1);
    assert n * b == i * b + b + d * b;
  }

  lemma Division(g: nat, q: nat)
    requires q >= 1
    ensures g == g / q * q + g % q
  {
  }

  /** Block `i` and offset `r` are the quotient and the remainder of their address. */
  lemma DivMod(p: nat, i: nat, b: nat)
    requires b > 0 && i * b <= p < i * b + b
    ensures p / b == i && p % b == p - i * b
  {
    assert p == (p / b) * b + p % b;
    if p / b < i {
      MulLess(p / b, i, b);
    } else if i < p / b {
      MulLess(i, p / b, b);
    }
  }

  /** `p % b`: the offset of address `p` in its block. */
  method Offset(p: nat, b: nat, ghost i: nat, ghost start: nat) returns (r: nat)
    requires b > 0 && start == i * b && start <= p < start + b
    ensures r == p - start
  {
    DivMod(p, i, b);
    r := p % b;
  }

  /** `ceil(1.0 * n / b)`: the fewest blocks that hold `n` bytes. */
  method BlocksFor(n: nat, b: nat) returns (count: nat)
    requires n > 0 && b > 0
    ensures n <= count * b < n + b
  {
    count := (n + b - 1) / b;
    assert n + b - 1 == count * b + (n + b - 1) % b;
  }
}
