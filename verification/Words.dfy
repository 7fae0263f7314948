/** Fixed-width words of the C sources, written as bounded integers. */
module Words {
  type uint32 = x: nat | x < 0x1_0000_0000
  type uint64 = x: nat | x < 0x1_0000_0000_0000_0000
  type byte = bv8

  const TWO_TO_THE_32 := 0x1_0000_0000

  /** The sentinel `~0u`. */
  const ALL_ONES: uint32 := 0xFFFF_FFFF

  function Pow2(n: nat): (p: nat)
    ensures p > 0
  {
    if n == 0 then 1 else 2 * Pow2(n - 1)
  }

  lemma Pow2Values()
    ensures Pow2(1) == 2 && Pow2(31) == 0x8000_0000 && Pow2(32) == TWO_TO_THE_32
  {
    assert Pow2(8) == 256;
    assert Pow2(16) == 0x1_0000;
    assert Pow2(24) == 0x100_0000;
    assert Pow2(31) == 0x8000_0000;
  }

  lemma {:induction false} Pow2Sum(a: nat, b: nat)
    ensures Pow2(a + b) == Pow2(a) * Pow2(b)
  {
    if a > 0 {
      Pow2Sum(a - 1, b);
      assert Pow2(a) * Pow2(b) == 2 * (Pow2(a - 1) * Pow2(b));
    }
  }

  lemma {:induction false} Pow2Monotone(a: nat, b: nat)
    requires a <= b
    ensures Pow2(a) <= Pow2(b)
  {
    if a < b { Pow2Monotone(a, b - 1); }
  }

  /** Position of the highest set bit, which the C code computes as 31 - clz(x). */
  function Log2(x: nat): (r: nat)
    requires x > 0
    ensures Pow2(r) <= x < 2 * Pow2(r) && (x >= 2 ==> r >= 1)
  {
    if x == 1 then 0 else 1 + Log2(x / 2)
  }

  lemma Log2OfPow2(n: nat)
    ensures Log2(Pow2(n)) == n
  {
    Pow2Squeeze(Log2(Pow2(n)), n);
  }

  /** Among the powers of two up to 2^31, exponents below 31 leave room for a doubling. */
  lemma Pow2Below(n: nat)
    ensures n < 31 ==> 2 * Pow2(n) <= 0x8000_0000
    ensures n == 31 ==> Pow2(n) == 0x8000_0000
    ensures n > 31 ==> Pow2(n) > 0x8000_0000
  {
    Pow2Values();
    if n < 31 { Pow2Monotone(n + 1, 31); } else { Pow2Monotone(31, n); }
    if n > 31 { Pow2Monotone(32, n); }
  }

  lemma Pow2Strict(a: nat, b: nat)
    ensures a < b ==> 2 * Pow2(a) <= Pow2(b)
  {
    if a < b { Pow2Monotone(a + 1, b); }
  }

  /** The only power of two in [2^n, 2^(n+1)) is 2^n. */
  lemma Pow2Squeeze(n: nat, l: nat)
    requires Pow2(n) <= Pow2(l) < 2 * Pow2(n)
    ensures l == n
  {
    Pow2Strict(n, l);
    Pow2Strict(l, n);
  }

  function Quotient(x: nat, q: nat): nat
    requires q > 0
  {
    x / q
  }

  lemma MulLe(q: nat, a: int, b: int)
    requires a <= b
    ensures q * a <= q * b
  {
  }

  lemma QuotientIs(x: nat, q: nat, d: nat)
    requires q > 0 && q * d <= x < q * d + q
    ensures Quotient(x, q) == d
  {
    var e := x / q;
    assert q * e <= x < q * e + q;
    if e < d {
      MulLe(q, e + 1, d);
      assert false;
    } else if d < e {
      MulLe(q, d + 1, e);
      assert false;
    }
  }

  /** What 32 bits keep of x. */
  lemma LowWord(x: nat) returns (q: nat)
    ensures x % TWO_TO_THE_32 == x - TWO_TO_THE_32 * q
  {
    q := x / TWO_TO_THE_32;
  }

  lemma WordOf(r: uint32, q: int)
    ensures (r + TWO_TO_THE_32 * q) % TWO_TO_THE_32 == r
  {
  }

  lemma QuotientIsFloor(x: nat, q: nat)
    requires q > 0
    ensures q * Quotient(x, q) <= x < q * (Quotient(x, q) + 1)
  {
  }

  lemma QuotientBound(x: nat, q: nat, n: nat)
    requires q > 0 && x < q * n
    ensures Quotient(x, q) < n
  {
    assert q * (x / q) <= x;
    if n <= x / q {
      MulLe(q, n, x / q);
      assert false;
    }
  }

  /** Halving the divisor doubles the quotient, give or take one. */
  lemma QuotientDoubles(x: nat, q: nat)
    requires q > 0
    ensures Quotient(x, q) / 2 == Quotient(x, 2 * q)
  {
    var h := Quotient(x, q);
    var k := h / 2;
    assert q * h <= x < q * h + q;
    MulLe(q, 2 * k, h);
    MulLe(q, h, 2 * k + 1);
    QuotientIs(x, 2 * q, k);
  }

  /** A duplicate-free list of integers from [lo, hi) is no longer than the interval. */
  lemma {:induction false} Pigeonhole(s: seq<int>, lo: int, hi: int)
    requires lo <= hi
    requires forall i :: 0 <= i < |s| ==> lo <= s[i] < hi
    requires forall i, j :: 0 <= i < j < |s| ==> s[i] != s[j]
    ensures |s| <= hi - lo
    decreases hi - lo
  {
    if |s| > 0 {
      if k :| 0 <= k < |s| && s[k] == hi - 1 {
        Pigeonhole(s[..k] + s[k + 1..], lo, hi - 1);
      } else {
        assert lo <= s[0] < hi - 1;
        Pigeonhole(s, lo, hi - 1);
      }
    }
  }

  lemma {:induction false} SubsetSize<T>(a: set<T>, b: set<T>)
    requires a <= b
    ensures |a| <= |b|
  {
    if a != {} {
      var x :| x in a;
      SubsetSize(a - {x}, b - {x});
    }
  }
}
