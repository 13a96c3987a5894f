/** Unsigned words as naturals: bitwise and, powers of two, masks. */
module Bits {
  /** One more than the largest 64-bit word. */
  const U64: nat := 0x1_0000_0000_0000_0000

  type word = n: nat | n < U64

  /** Unsigned difference: a clock behind the last time reads as a very long time. */
  function Elapsed(now: word, last: word): word {
    (now - last) % U64
  }

  /** Bitwise and of two naturals. */
  function And(x: nat, y: nat): nat {
    if x == 0 || y == 0 then 0 else 2 * And(x / 2, y / 2) + (x % 2) * (y % 2)
  }

  predicate IsPow2(x: nat) {
    x == 1 || (x > 0 && x % 2 == 0 && IsPow2(x / 2))
  }

  /** Masking with `c - 1` is the remainder by `c` when `c` is a power of two. */
  lemma {:induction false} AndMaskIsMod(x: nat, c: nat)
    requires IsPow2(c)
    ensures And(x, c - 1) == x % c
    decreases c
  {
    if c == 1 {
    } else {
      var d := c / 2;
      assert (c - 1) / 2 == d - 1 && (c - 1) % 2 == 1;
      AndMaskIsMod(x / 2, d);
      ModDouble(x, d);
      if x == 0 {
      } else {
        assert And(x, c - 1) == 2 * And(x / 2, d - 1) + x % 2;
      }
    }
  }

  lemma ModDouble(x: nat, d: nat)
    requires d > 0
    ensures x % (2 * d) == 2 * ((x / 2) % d) + x % 2
  {
    var q, r := x / 2 / d, (x / 2) % d;
    assert x / 2 == q * d + r;
    assert x == 2 * (q * d + r) + x % 2;
    assert x == q * (2 * d) + (2 * r + x % 2) by {
      assert 2 * (q * d) == q * (2 * d);
    }
    ModUnique(x, 2 * d, q, 2 * r + x % 2);
  }

  lemma ModUnique(x: nat, d: nat, q: nat, r: nat)
    requires d > 0 && r < d && x == q * d + r
    ensures x % d == r && x / d == q
  {
    var q', r' := x / d, x % d;
    assert (q - q') * d == r' - r by {
      assert x == q' * d + r';
    }
    SmallMultiple(q - q', d);
  }

  lemma SmallMultiple(k: int, d: int)
    requires -d < k * d < d
    ensures k == 0
  {
    MultipleGrows(k, d);
  }

  lemma MultipleGrows(k: int, d: int)
    requires d > 0
    ensures k >= 1 ==> k * d >= d
    ensures k <= -1 ==> k * d <= -d
  {
    if k >= 1 {
      assert (k - 1) * d >= 0;
    } else if k <= -1 {
      assert (-k - 1) * d >= 0;
    }
  }

  /** Clearing the low bits: `x & ~(a - 1)` on a word of range `w`. */
  lemma {:induction false} AndClearLow(x: nat, a: nat, w: nat)
    requires IsPow2(a) && IsPow2(w) && a <= w && x < w
    ensures And(x, w - a) == x - x % a
    decreases w
  {
    if a == w {
      ModUnique(x, a, 0, x);
      assert And(x, 0) == 0;
    } else if a == 1 {
      AndMaskIsMod(x, w);
      ModUnique(x, w, 0, x);
    } else {
      var b, v := a / 2, w / 2;
      assert w - a == 2 * (v - b);
      AndClearLow(x / 2, b, v);
      ModDouble(x, b);
    }
  }

  /** The test `x & (x - 1) == 0` recognises exactly the powers of two. */
  lemma {:induction false} Pow2Test(x: nat)
    requires x > 0
    ensures And(x, x - 1) == 0 <==> IsPow2(x)
    decreases x
  {
    if x == 1 {
    } else if x % 2 == 0 {
      Pow2Test(x / 2);
      assert (x - 1) / 2 == x / 2 - 1 && (x - 1) % 2 == 1;
    } else {
      assert (x - 1) / 2 == x / 2 && x / 2 > 0;
      AndSelf(x / 2);
    }
  }

  lemma AndSelf(x: nat)
    ensures And(x, x) == x
  {
  }

  lemma Pow2Divides(a: nat, w: nat)
    requires IsPow2(a) && IsPow2(w) && a <= w
    ensures w % a == 0
    decreases w
  {
    if a == w {
      ModUnique(w, a, 1, 0);
    } else if a == 1 {
    } else {
      Pow2Divides(a / 2, w / 2);
      ModDouble(w, a / 2);
    }
  }

  lemma Pow2Double(x: nat)
    requires IsPow2(x)
    ensures IsPow2(2 * x)
  {
  }

  lemma MulAssoc(x: nat, y: nat, z: nat)
    ensures (x * y) * z == x * (y * z)
  {
  }

  lemma {:induction false} Pow2Times(a: nat, b: nat)
    requires IsPow2(a) && IsPow2(b)
    ensures IsPow2(a * b)
    decreases a
  {
    if a > 1 {
      var h := a / 2;
      Pow2Times(h, b);
      MulAssoc(2, h, b);
      Pow2Double(h * b);
    }
  }

  lemma Pow2U64()
    ensures IsPow2(U64)
  {
    assert IsPow2(0x100);
    Pow2Times(0x100, 0x100);
    Pow2Times(0x1_0000, 0x1_0000);
    Pow2Times(0x1_0000_0000, 0x1_0000_0000);
  }

  /** Distinct indices less than `c` apart have distinct remainders. */
  lemma ModDistinct(i: nat, j: nat, c: nat)
    requires c > 0 && i < j < i + c
    ensures i % c != j % c
  {
    if i % c == j % c {
      var q, p := i / c, j / c;
      assert i == q * c + i % c;
      assert j == p * c + j % c;
      assert (p - q) * c == j - i;
      SmallMultiple(p - q, c);
    }
  }

  /** Within a stretch of length `c` every index has its own remainder. */
  lemma WindowApart(lo: nat, i: nat, c: nat)
    requires lo <= i < lo + c
    ensures forall j :: lo <= j < i ==> j % c != i % c
  {
    forall j | lo <= j < i ensures j % c != i % c {
      ModDistinct(j, i, c);
    }
  }
}
