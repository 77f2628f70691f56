/** The kernel's generic helper macros (kernel/generic/include/macros.h):
 *  the interval-overlap test, min/max, the KB/MB size shifts, the ASCII
 *  character classes and the RANDI linear congruential generator.
 *
 *  uintptr_t and size_t are unsigned integers of the machine width; a value of
 *  either type is a `nat` below `Modulus(w)`, and every sum, product or left
 *  shift that C computes in that type is reduced modulo 2^w by `Wrap`.
 */
module Macros {

  /** The two machine widths the kernel is built for. */
  datatype Width = W32 | W64

  /** 2^w, the number of distinct uintptr_t (and size_t) values. */
  function Modulus(w: Width): (m: nat)
    ensures m >= 0x1_0000_0000 && m % 0x1_0000_0000 == 0
  {
    match w
    case W32 => 0x1_0000_0000
    case W64 => 0x1_0000_0000_0000_0000
  }

  /** A value representable in uintptr_t / size_t. */
  predicate IsWord(w: Width, x: int)
  {
    0 <= x < Modulus(w)
  }

  /** Reduction of an exact result to the machine width (unsigned wrap-around). */
  function Wrap(w: Width, x: int): (r: nat)
    ensures IsWord(w, r)
    ensures IsWord(w, x) ==> r == x
    ensures (x - r) % Modulus(w) == 0
  {
    x % Modulus(w)
  }

  function Pow2(n: nat): (r: nat)
    ensures r >= 1
  {
    if n == 0 then 1 else 2 * Pow2(n - 1)
  }

  // ---------------------------------------------------------------------
  // overlaps()
  // ---------------------------------------------------------------------

  /** The overlap test on exact end addresses, as the doc comment of
   *  overlaps() describes it: each interval starts before the other ends. */
  predicate ExactOverlaps(s1: int, sz1: int, s2: int, sz2: int)
  {
    s1 < s2 + sz2 && s2 < s1 + sz1
  }

  /** overlaps(s1, sz1, s2, sz2): the end addresses s + sz are computed in
   *  uintptr_t, so they wrap around at 2^w. It never reports a pair whose
   *  exact intervals are apart, and it is exact while neither end wraps. */
  function Overlaps(w: Width, s1: nat, sz1: nat, s2: nat, sz2: nat): (r: bool)
    requires IsWord(w, s1) && IsWord(w, sz1) && IsWord(w, s2) && IsWord(w, sz2)
    ensures r ==> ExactOverlaps(s1, sz1, s2, sz2)
    ensures s1 + sz1 < Modulus(w) && s2 + sz2 < Modulus(w) ==> (r <==> ExactOverlaps(s1, sz1, s2, sz2))
  {
    var e1 := Wrap(w, s1 + sz1);
    var e2 := Wrap(w, s2 + sz2);
    s1 < e2 && s2 < e1
  }

  /** Address `a` lies in the half-open interval [s, s + sz), computed exactly. */
  predicate InInterval(a: int, s: int, sz: int)
  {
    s <= a < s + sz
  }

  lemma OverlapsSymmetric(w: Width, s1: nat, sz1: nat, s2: nat, sz2: nat)
    requires IsWord(w, s1) && IsWord(w, sz1) && IsWord(w, s2) && IsWord(w, sz2)
    ensures Overlaps(w, s1, sz1, s2, sz2) == Overlaps(w, s2, sz2, s1, sz1)
  {
  }

  /** An interval that starts exactly where the other ends does not overlap it. */
  lemma AdjacentDoNotOverlap(w: Width, s1: nat, sz1: nat, s2: nat, sz2: nat)
    requires IsWord(w, s1) && IsWord(w, sz1) && IsWord(w, s2) && IsWord(w, sz2)
    requires s2 == Wrap(w, s1 + sz1)
    ensures !Overlaps(w, s1, sz1, s2, sz2)
    ensures !Overlaps(w, s2, sz2, s1, sz1)
  {
  }

  /** Two empty intervals never overlap. */
  lemma EmptyIntervalsDoNotOverlap(w: Width, s1: nat, s2: nat)
    requires IsWord(w, s1) && IsWord(w, s2)
    ensures !Overlaps(w, s1, 0, s2, 0)
  {
  }

  /** An interval overlaps itself exactly when it is non-empty and its end
   *  address does not wrap: an interval that reaches 2^w or beyond does not
   *  even overlap itself. */
  lemma SelfOverlap(w: Width, s: nat, sz: nat)
    requires IsWord(w, s) && IsWord(w, sz)
    ensures Overlaps(w, s, sz, s, sz) <==> 0 < sz && s + sz < Modulus(w)
  {
    var m := Modulus(w);
    if s + sz >= m {
      assert Wrap(w, s + sz) == s + sz - m;
    }
  }

  /** Without wrap-around and for non-empty intervals, overlaps() holds exactly
   *  when some address belongs to both intervals. */
  lemma OverlapsIffSharedAddress(w: Width, s1: nat, sz1: nat, s2: nat, sz2: nat)
    requires IsWord(w, s1) && IsWord(w, sz1) && IsWord(w, s2) && IsWord(w, sz2)
    requires 0 < sz1 && 0 < sz2
    requires s1 + sz1 < Modulus(w) && s2 + sz2 < Modulus(w)
    ensures Overlaps(w, s1, sz1, s2, sz2) <==>
            exists a :: InInterval(a, s1, sz1) && InInterval(a, s2, sz2)
  {
    if Overlaps(w, s1, sz1, s2, sz2) {
      var a := if s1 < s2 then s2 else s1;
      assert InInterval(a, s1, sz1) && InInterval(a, s2, sz2);
    }
  }

  /** For non-empty intervals, the exact test holds exactly when some address
   *  belongs to both, wherever the intervals lie. */
  lemma ExactOverlapsIffSharedAddress(s1: nat, sz1: nat, s2: nat, sz2: nat)
    requires 0 < sz1 && 0 < sz2
    ensures ExactOverlaps(s1, sz1, s2, sz2) <==>
            exists a :: InInterval(a, s1, sz1) && InInterval(a, s2, sz2)
  {
    if ExactOverlaps(s1, sz1, s2, sz2) {
      var a := if s1 < s2 then s2 else s1;
      assert InInterval(a, s1, sz1) && InInterval(a, s2, sz2);
    }
  }

  /** overlaps() as written misses intervals that end exactly at 2^w: the page
   *  at the top of a 32-bit address space and a 16-byte block inside it share
   *  the address 0xFFFF_F800, yet the test reports no overlap, because the
   *  end address of the page wraps to 0. */
  lemma OverlapsMissesIntervalEndingAtTop()
    ensures InInterval(0xFFFF_F800, 0xFFFF_F000, 0x1000) && InInterval(0xFFFF_F800, 0xFFFF_F800, 0x10)
    ensures ExactOverlaps(0xFFFF_F000, 0x1000, 0xFFFF_F800, 0x10)
    ensures !Overlaps(W32, 0xFFFF_F000, 0x1000, 0xFFFF_F800, 0x10)
  {
    assert Wrap(W32, 0xFFFF_F000 + 0x1000) == 0;
  }

  /** An empty interval counts as the single point s: it overlaps a non-empty
   *  interval whose interior contains s. */
  lemma EmptyIntervalInsideOverlaps(w: Width, s1: nat, s2: nat, sz2: nat)
    requires IsWord(w, s1) && IsWord(w, s2) && IsWord(w, sz2)
    requires s2 < s1 < s2 + sz2 < Modulus(w)
    ensures Overlaps(w, s1, 0, s2, sz2)
  {
  }

  // ---------------------------------------------------------------------
  // Character classes
  // ---------------------------------------------------------------------

  function IsDigit(c: char): (r: bool)
    ensures r <==> c in "0123456789"
  {
    '0' <= c <= '9'
  }

  function IsLower(c: char): (r: bool)
    ensures r <==> c in "abcdefghijklmnopqrstuvwxyz"
  {
    'a' <= c <= 'z'
  }

  function IsUpper(c: char): (r: bool)
    ensures r <==> c in "ABCDEFGHIJKLMNOPQRSTUVWXYZ"
  {
    'A' <= c <= 'Z'
  }

  /** Only these four characters: vertical tab and form feed are not spaces here. */
  function IsSpace(c: char): (r: bool)
    ensures r <==> c in " \t\n\r"
    ensures r ==> !IsDigit(c) && !IsLower(c) && !IsUpper(c)
  {
    c == ' ' || c == '\t' || c == '\n' || c == '\r'
  }

  /** The digit, lower-case and upper-case classes are pairwise disjoint. */
  lemma CharClassesDisjoint(c: char)
    ensures !(IsDigit(c) && IsLower(c))
    ensures !(IsDigit(c) && IsUpper(c))
    ensures !(IsLower(c) && IsUpper(c))
    ensures IsSpace(c) ==> !IsDigit(c) && !IsLower(c) && !IsUpper(c)
  {
  }

  // ---------------------------------------------------------------------
  // min / max
  // ---------------------------------------------------------------------

  function Min(a: int, b: int): (r: int)
    ensures r == a || r == b
    ensures r <= a && r <= b
  {
    if a < b then a else b
  }

  function Max(a: int, b: int): (r: int)
    ensures r == a || r == b
    ensures r >= a && r >= b
  {
    if a > b then a else b
  }

  function Min3(a: int, b: int, c: int): (r: int)
    ensures r == a || r == b || r == c
    ensures r <= a && r <= b && r <= c
  {
    if a < b then Min(a, c) else Min(b, c)
  }

  function Max3(a: int, b: int, c: int): (r: int)
    ensures r == a || r == b || r == c
    ensures r >= a && r >= b && r >= c
  {
    if a > b then Max(a, c) else Max(b, c)
  }

  // ---------------------------------------------------------------------
  // Size shifts
  // ---------------------------------------------------------------------

  /** x >> n on an unsigned operand: the floor of x / 2^n. */
  function ShiftRight(x: nat, n: nat): (r: int)
    ensures 0 <= r && r * Pow2(n) <= x < (r + 1) * Pow2(n)
  {
    x / Pow2(n)
  }

  /** x << n in size_t: the bits shifted past the width are lost. */
  function ShiftLeft(w: Width, x: nat, n: nat): (r: nat)
    ensures IsWord(w, r) && (x * Pow2(n) - r) % Modulus(w) == 0
    ensures x * Pow2(n) < Modulus(w) ==> r == x * Pow2(n)
  {
    Wrap(w, x * Pow2(n))
  }

  lemma Pow2Ten()
    ensures Pow2(10) == 1024
  {
  }

  lemma Pow2Twenty()
    ensures Pow2(20) == 0x10_0000
  {
    Pow2Ten();
    assert Pow2(20) == 1024 * Pow2(10) by { Pow2Add(10, 10); }
  }

  lemma {:induction false} Pow2Add(a: nat, b: nat)
    ensures Pow2(a + b) == Pow2(a) * Pow2(b)
  {
    if a > 0 {
      Pow2Add(a - 1, b);
    }
  }

  function SizeToKb(size: nat): (kb: nat)
    ensures kb * 1024 <= size < (kb + 1) * 1024
  {
    Pow2Ten();
    ShiftRight(size, 10)
  }

  function SizeToMb(size: nat): (mb: nat)
    ensures mb * 0x10_0000 <= size < (mb + 1) * 0x10_0000
  {
    Pow2Twenty();
    ShiftRight(size, 20)
  }

  function KbToSize(w: Width, kb: nat): (size: nat)
    ensures IsWord(w, size)
    ensures size % 1024 == 0
    ensures kb * 1024 < Modulus(w) ==> size == kb * 1024
  {
    Pow2Ten();
    WrapKeepsAlignment(w, kb * 1024, 1024);
    ShiftLeft(w, kb, 10)
  }

  function MbToSize(w: Width, mb: nat): (size: nat)
    ensures IsWord(w, size)
    ensures size % 0x10_0000 == 0
    ensures mb * 0x10_0000 < Modulus(w) ==> size == mb * 0x10_0000
  {
    Pow2Twenty();
    WrapKeepsAlignment(w, mb * 0x10_0000, 0x10_0000);
    ShiftLeft(w, mb, 20)
  }

  /** Reducing modulo 2^w keeps a multiple of a power of two no larger than 2^32. */
  lemma WrapKeepsAlignment(w: Width, x: nat, a: nat)
    requires a == 1024 || a == 0x10_0000
    requires x % a == 0
    ensures Wrap(w, x) % a == 0
  {
    var m := Modulus(w);
    var q := x / m;
    var c := m / a;
    assert m == c * a;
    assert x == q * m + Wrap(w, x);
    ModOfMultipleSum(0, q * c, a);
    assert (q * m) % a == 0;
    ModOfDifference(x, q * m, a);
  }

  lemma ModOfDifference(x: int, y: int, a: nat)
    requires a > 0 && x % a == 0 && y % a == 0
    ensures (x - y) % a == 0
  {
    var i, j := x / a, y / a;
    assert x == i * a && y == j * a;
    assert x - y == (i - j) * a;
    ModOfMultipleSum(0, i - j, a);
  }

  /** The only multiple of m strictly between -m and m is 0. */
  lemma MultipleInRangeIsZero(d: int, m: int)
    requires m > 0 && -m < d * m < m
    ensures d == 0
  {
  }

  /** Shifting left by n and back right by n restores any value whose shifted
   *  form fits in the width. */
  lemma {:induction false} ShiftRoundTrip(w: Width, x: nat, n: nat)
    requires x * Pow2(n) < Modulus(w)
    ensures ShiftRight(ShiftLeft(w, x, n), n) == x
  {
    var p := Pow2(n);
    assert ShiftLeft(w, x, n) == x * p;
    var q := (x * p) / p;
    assert x * p == q * p + (x * p) % p;
    assert (x - q) * p == (x * p) % p;
    MultipleInRangeIsZero(x - q, p);
  }

  lemma KbRoundTrip(w: Width, kb: nat)
    requires kb * 1024 < Modulus(w)
    ensures SizeToKb(KbToSize(w, kb)) == kb
  {
  }

  lemma MbRoundTrip(w: Width, mb: nat)
    requires mb * 0x10_0000 < Modulus(w)
    ensures SizeToMb(MbToSize(w, mb)) == mb
  {
  }

  /** The other direction: KB2SIZE(SIZE2KB(size)) rounds size down to a whole KB. */
  lemma KbRoundsDown(w: Width, size: nat)
    requires IsWord(w, size)
    ensures KbToSize(w, SizeToKb(size)) == size - size % 1024
  {
    var kb := SizeToKb(size);
    assert KbToSize(w, kb) == kb * 1024;
    ModOfMultipleSum(size - kb * 1024, kb, 1024);
  }

  lemma MbRoundsDown(w: Width, size: nat)
    requires IsWord(w, size)
    ensures MbToSize(w, SizeToMb(size)) == size - size % 0x10_0000
  {
    var mb := SizeToMb(size);
    assert MbToSize(w, mb) == mb * 0x10_0000;
    ModOfMultipleSum(size - mb * 0x10_0000, mb, 0x10_0000);
  }

  // ---------------------------------------------------------------------
  // RANDI
  // ---------------------------------------------------------------------

  const LcgMultiplier: nat := 1103515245
  const LcgIncrement: nat := 12345

  /** The value RANDI stores into its seed: 1103515245 * seed + 12345 in the
   *  seed's unsigned machine-width type. */
  function LcgStep(w: Width, seed: nat): (next: nat)
    requires IsWord(w, seed)
    ensures IsWord(w, next)
  {
    Wrap(w, LcgMultiplier * seed + LcgIncrement)
  }

  /** The multiplicative inverse of 1103515245 modulo 2^w. */
  function LcgMultiplierInverse(w: Width): nat
  {
    match w
    case W32 => 0xEEB9_EB65
    case W64 => 0xF7BA_6361_EEB9_EB65
  }

  /** The predecessor of a generator state. */
  function LcgUnstep(w: Width, next: nat): (seed: nat)
    requires IsWord(w, next)
    ensures IsWord(w, seed)
  {
    Wrap(w, LcgMultiplierInverse(w) * (next - LcgIncrement))
  }

  /** Every state has exactly one predecessor: the step is a permutation of
   *  the w-bit values, which LcgUnstep undoes. */
  lemma LcgUnstepUndoesStep(w: Width, seed: nat)
    requires IsWord(w, seed)
    ensures LcgUnstep(w, LcgStep(w, seed)) == seed
  {
    var m := Modulus(w);
    var inv := LcgMultiplierInverse(w);
    var y := LcgMultiplier * seed + LcgIncrement;
    var k := y / m;
    assert LcgStep(w, seed) == y - k * m;
    var j := if w == W32 then 1029054899 else 1067858249;
    assert inv * LcgMultiplier == 1 + j * m;
    calc {
      inv * (LcgStep(w, seed) - LcgIncrement);
      inv * (LcgMultiplier * seed - k * m);
      seed + (j * seed - inv * k) * m;
    }
    ModOfMultipleSum(seed, j * seed - inv * k, m);
  }

  lemma LcgStepUndoesUnstep(w: Width, next: nat)
    requires IsWord(w, next)
    ensures LcgStep(w, LcgUnstep(w, next)) == next
  {
    var m := Modulus(w);
    var inv := LcgMultiplierInverse(w);
    var x := inv * (next - LcgIncrement);
    var k := x / m;
    var seed := LcgUnstep(w, next);
    assert seed == x - k * m;
    var j := if w == W32 then 1029054899 else 1067858249;
    assert LcgMultiplier * inv == 1 + j * m;
    calc {
      LcgMultiplier * seed + LcgIncrement;
      LcgMultiplier * x - LcgMultiplier * k * m + LcgIncrement;
      (1 + j * m) * (next - LcgIncrement) - LcgMultiplier * k * m + LcgIncrement;
      next + (j * (next - LcgIncrement) - LcgMultiplier * k) * m;
    }
    ModOfMultipleSum(next, j * (next - LcgIncrement) - LcgMultiplier * k, m);
  }

  lemma ModOfMultipleSum(r: int, t: int, m: nat)
    requires 0 <= r < m
    ensures (r + t * m) % m == r
  {
    var z := r + t * m;
    var q := z / m;
    assert z == q * m + z % m;
    assert (t - q) * m == z % m - r;
    MultipleInRangeIsZero(t - q, m);
  }

  /** The low bit of the state alternates on every step (multiplier and
   *  increment are both odd and 2^w is even). */
  lemma LcgLowBitAlternates(w: Width, seed: nat)
    requires IsWord(w, seed)
    ensures LcgStep(w, seed) % 2 != seed % 2
  {
    var y := LcgMultiplier * seed + LcgIncrement;
    WrapKeepsParity(w, y);
    var k := 551757622 * seed + 6172;
    var q := seed / 2;
    assert y == seed + 1 + 2 * k;
    if seed % 2 == 0 {
      assert y == 1 + (q + k) * 2;
      ModOfMultipleSum(1, q + k, 2);
    } else {
      assert y == 0 + (q + k + 1) * 2;
      ModOfMultipleSum(0, q + k + 1, 2);
    }
  }

  /** 2^w is even, so reducing modulo 2^w keeps the low bit. */
  lemma WrapKeepsParity(w: Width, x: nat)
    ensures Wrap(w, x) % 2 == x % 2
  {
    var half := Modulus(w) / 2;
    if w == W32 {
      assert half == 0x8000_0000;
    } else {
      assert half == 0x8000_0000_0000_0000;
    }
    var k := x / Modulus(w);
    assert x == 2 * (k * half) + Wrap(w, x);
  }

  /** The lvalue RANDI assigns to. */
  class LcgSeed {
    const w: Width
    var seed: nat

    ghost predicate Valid()
      reads this
    {
      IsWord(w, seed)
    }

    constructor (w: Width, seed: nat)
      requires IsWord(w, seed)
      ensures Valid() && this.w == w && this.seed == seed
    {
      this.w := w;
      this.seed := seed;
    }

    /** RANDI(seed): replaces the seed by its successor and yields the new value. */
    method Randi() returns (r: nat)
      requires Valid()
      modifies this
      ensures Valid()
      ensures seed == LcgStep(w, old(seed)) && r == seed
    {
      seed := Wrap(w, LcgMultiplier * seed + LcgIncrement);
      r := seed;
    }
  }
}
