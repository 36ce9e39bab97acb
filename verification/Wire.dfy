/** Byte layouts of numbers: base-128 varints (section 7.6 of DWARF Version 4) and fixed widths. */
module Wire {
  import opened Basics
  import opened Blocks

  datatype Endian = Little | Big

  // ---------- varints ----------

  /** Groups of seven bits, lowest first; every byte but the last has its top bit set. */
  function Varint(v: nat): (s: seq<byte>)
    ensures |s| >= 1
  {
    if v < 128 then [v] else [v % 128 + 128] + Varint(v / 128)
  }

  function Pow128(k: nat): (p: nat)
    ensures p >= 1
  {
    if k == 0 then 1 else 128 * Pow128(k - 1)
  }

  /** A read of at most `k` bytes: the groups' value and the bytes taken; none when bytes run out. */
  function Unvarint(s: seq<byte>, k: nat): (r: Option<(nat, nat)>)
    ensures r.Some? ==> r.value.1 <= |s| && r.value.1 <= k
  {
    if k == 0 then
      Some((0, 0))
    else if s == [] then
      None
    else if s[0] < 128 then
      Some((s[0], 1))
    else
      match Unvarint(s[1..], k - 1)
      case None => None
      case Some(r) => Some((s[0] - 128 + 128 * r.0, 1 + r.1))
  }

  /** Decoding inverts encoding, whatever follows. */
  lemma {:induction false} VarintRoundTrip(v: nat, rest: seq<byte>, k: nat)
    requires k >= 1 && v < Pow128(k)
    ensures Unvarint(Varint(v) + rest, k) == Some((v, |Varint(v)|))
  {
    if v >= 128 {
      VarintRoundTrip(v / 128, rest, k - 1);
      assert (Varint(v) + rest)[1..] == Varint(v / 128) + rest;
    }
  }

  /** The length is the least `k >= 1` with `v < 128^k`. */
  lemma {:induction false} VarintLength(v: nat)
    ensures v < Pow128(|Varint(v)|)
    ensures |Varint(v)| == 1 || Pow128(|Varint(v)| - 1) <= v
  {
    if v >= 128 {
      VarintLength(v / 128);
    }
  }

  /** Byte `i` holds bits `7 * i` and on, with the top bit set on all but the last. */
  lemma {:induction false} VarintByte(v: nat, i: nat)
    requires i < |Varint(v)|
    ensures Varint(v)[i] == v / Pow128(i) % 128 + if i + 1 < |Varint(v)| then 128 else 0
  {
    if i > 0 {
      VarintByte(v / 128, i - 1);
      DivTwice(v, 128, Pow128(i - 1));
    }
  }

  lemma DivTwice(v: nat, a: nat, b: nat)
    requires a > 0 && b > 0
    ensures a * b > 0 && v / a / b == v / (a * b)
  {
    var w := v / a;
    Division(v, a);
    Division(w, b);
    Nested(a, b, w / b, w % b, v % a);
    DivMod(v, w / b, a * b);
  }

  lemma Nested(a: nat, b: nat, q: nat, r: nat, s: nat)
    requires r < b && s < a
    ensures a * b > 0 && q * (a * b) <= (q * b + r) * a + s < q * (a * b) + a * b
  {
    MulLess(r, b, a);
    Distribute(a, b, q, r);
  }

  lemma Distribute(a: nat, b: nat, q: nat, r: nat)
    ensures (q * b + r) * a == q * (a * b) + r * a && a * b == b * a
  {
  }

  /** A read runs out of bytes exactly when all there are, fewer than it may take, have the top bit. */
  lemma {:induction false} RunsOut(s: seq<byte>, k: nat)
    ensures Unvarint(s, k) == None <==> |s| < k && forall i | 0 <= i < |s| :: s[i] >= 128
  {
    if k > 0 && s != [] && s[0] >= 128 {
      RunsOut(s[1..], k - 1);
      assert forall i | 0 < i < |s| :: s[i] == s[1..][i - 1];
    }
  }

  /** So it does on an encoding that is cut off. */
  lemma CutOff(v: nat, m: nat, k: nat)
    requires m < |Varint(v)| <= k
    ensures Unvarint(Varint(v)[..m], k) == None
  {
    forall i | 0 <= i < m ensures Varint(v)[i] >= 128 {
      VarintByte(v, i);
    }
    RunsOut(Varint(v)[..m], k);
  }

  lemma {:induction false} PowOrdered(j: nat, k: nat)
    requires j <= k
    ensures Pow128(j) <= Pow128(k)
    decreases k - j
  {
    if j < k {
      PowOrdered(j + 1, k);
    }
  }

  /** So a 32-bit value takes at most five bytes and a 64-bit value at most ten. */
  lemma VarintBound(v: nat, k: nat)
    requires k >= 1
    ensures |Varint(v)| <= k <==> v < Pow128(k)
  {
    var n := |Varint(v)|;
    VarintLength(v);
    if n <= k {
      PowOrdered(n, k);
    } else {
      PowOrdered(k, n - 1);
    }
  }

  /** No encoding is a proper prefix of another. */
  lemma VarintPrefixFree(u: nat, v: nat)
    requires Varint(u) <= Varint(v)
    ensures u == v
  {
    var k := |Varint(u)| + |Varint(v)|;
    VarintBound(u, k);
    VarintBound(v, k);
    VarintRoundTrip(u, Varint(v)[|Varint(u)|..], k);
    VarintRoundTrip(v, [], k);
    assert Varint(u) + Varint(v)[|Varint(u)|..] == Varint(v) == Varint(v) + [];
  }

  // ---------- fixed widths ----------

  function Pow256(n: nat): (p: nat)
    ensures p >= 1
  {
    if n == 0 then 1 else 256 * Pow256(n - 1)
  }

  /** The `n` bytes of a number, least significant first. */
  function LowFirst(v: nat, n: nat): (s: seq<byte>)
    ensures |s| == n
  {
    if n == 0 then [] else [v % 256] + LowFirst(v / 256, n - 1)
  }

  /** Byte `i` of a word is its bits `8 * i` and on. */
  lemma {:induction false} LowFirstByte(v: nat, n: nat, i: nat)
    requires i < n
    ensures LowFirst(v, n)[i] == v / Pow256(i) % 256
  {
    if i > 0 {
      LowFirstByte(v / 256, n - 1, i - 1);
      DivTwice(v, 256, Pow256(i - 1));
    }
  }

  function FromLowFirst(s: seq<byte>): (v: nat)
    ensures v < Pow256(|s|)
  {
    if s == [] then 0 else s[0] + 256 * FromLowFirst(s[1..])
  }

  function Reverse(s: seq<byte>): (r: seq<byte>)
    ensures |r| == |s| && forall i | 0 <= i < |s| :: r[i] == s[|s| - 1 - i]
  {
    if s == [] then [] else Reverse(s[1..]) + [s[0]]
  }

  lemma ReverseTwice(s: seq<byte>)
    ensures Reverse(Reverse(s)) == s
  {
  }

  lemma {:induction false} LowFirstRoundTrip(v: nat, n: nat)
    requires v < Pow256(n)
    ensures FromLowFirst(LowFirst(v, n)) == v
  {
    if n > 0 {
      LowFirstRoundTrip(v / 256, n - 1);
    }
  }

  lemma LowByte(a: byte, v: nat)
    ensures (a + 256 * v) % 256 == a && (a + 256 * v) / 256 == v
  {
  }

  lemma {:induction false} BytesRoundTrip(s: seq<byte>)
    ensures LowFirst(FromLowFirst(s), |s|) == s
  {
    if s != [] {
      BytesRoundTrip(s[1..]);
      LowByte(s[0], FromLowFirst(s[1..]));
    }
  }

  /** bswap: the number whose bytes are those of `v` in the other order. */
  function ByteSwap(v: nat, n: nat): (r: nat)
    ensures r < Pow256(n)
  {
    FromLowFirst(Reverse(LowFirst(v, n)))
  }

  /** The hardware's byte order, and the order the `MS_BYTE_ORDER` macro was given. */
  datatype Platform = Platform(hardware: Endian, macro: Endian)

  /** The memory image of a number. */
  function Memory(v: nat, n: nat, p: Platform): (s: seq<byte>)
    ensures |s| == n
  {
    if p.hardware == Little then LowFirst(v, n) else Reverse(LowFirst(v, n))
  }

  function FromMemory(s: seq<byte>, p: Platform): nat {
    FromLowFirst(if p.hardware == Little then s else Reverse(s))
  }

  /** What a fixed-width write stores: swapped when the buffer's order is not the macro's. */
  function Fixed(v: nat, n: nat, e: Endian, p: Platform): (s: seq<byte>)
    ensures |s| == n
  {
    Memory(if e != p.macro then ByteSwap(v, n) else v, n, p)
  }

  function Unfixed(s: seq<byte>, e: Endian, p: Platform): nat {
    var v := FromMemory(s, p);
    if e == p.macro then v else ByteSwap(v, |s|)
  }

  lemma SwapTwice(v: nat, n: nat)
    requires v < Pow256(n)
    ensures ByteSwap(ByteSwap(v, n), n) == v
  {
    var s := Reverse(LowFirst(v, n));
    BytesRoundTrip(s);
    ReverseTwice(LowFirst(v, n));
    LowFirstRoundTrip(v, n);
  }

  lemma MemoryRoundTrip(v: nat, n: nat, p: Platform)
    requires v < Pow256(n)
    ensures FromMemory(Memory(v, n, p), p) == v
  {
    LowFirstRoundTrip(v, n);
    ReverseTwice(LowFirst(v, n));
  }

  /** Reading back under the same setting gives the number, on any platform. */
  lemma FixedRoundTrip(v: nat, n: nat, e: Endian, p: Platform)
    requires v < Pow256(n)
    ensures Unfixed(Fixed(v, n, e, p), e, p) == v
  {
    var w := if e != p.macro then ByteSwap(v, n) else v;
    MemoryRoundTrip(w, n, p);
    SwapTwice(v, n);
  }

  /** The stored bytes are in the order the buffer asked for exactly when the macro names the hardware's
      order, unless they read the same both ways. */
  lemma FixedLayout(v: nat, n: nat, e: Endian, p: Platform)
    requires v < Pow256(n)
    ensures var asked := if e == Little then LowFirst(v, n) else Reverse(LowFirst(v, n));
            Fixed(v, n, e, p) == if p.macro == p.hardware then asked else Reverse(asked)
  {
    var s := LowFirst(v, n);
    BytesRoundTrip(Reverse(s));
    ReverseTwice(s);
  }

  /** Byte by byte: where the macro names the hardware's order, byte `i` of a little-endian number, and byte `i`
      from the end of a big-endian one, holds its bits `8 * i` and on; else the other way round. */
  lemma FixedByte(v: nat, n: nat, e: Endian, p: Platform, i: nat)
    requires v < Pow256(n) && i < n
    ensures Fixed(v, n, e, p)[if (e == Little) == (p.macro == p.hardware) then i else n - 1 - i]
         == v / Pow256(i) % 256
  {
    FixedLayout(v, n, e, p);
    ReverseTwice(LowFirst(v, n));
    LowFirstByte(v, n, i);
  }
}
