/** Machine-word arithmetic on natural numbers: powers of two, masks, trailing zeros. */
module Bits {

  function Pow2(n: nat): (p: nat)
    ensures p >= 1
  {
    if n == 0 then 1 else 2 * Pow2(n - 1)
  }

  const WORD: nat := 0x1_0000_0000_0000_0000
  const WORD_BITS: nat := 64

  ghost predicate IsPow2(a: nat) {
    exists k: nat :: a == Pow2(k)
  }

  /** Bitwise and. */
  function And(a: nat, b: nat): nat {
    if a == 0 || b == 0 then 0
    else (if a % 2 == 1 && b % 2 == 1 then 1 else 0) + 2 * And(a / 2, b / 2)
  }

  lemma MulAtLeast(e: int, d: int)
    requires d > 0
    ensures (e >= 1 ==> e * d >= d) && (e <= -1 ==> e * d <= -d)
  {
  }

  lemma MulAssoc(a: int, b: int, c: int)
    ensures a * (b * c) == (a * b) * c
  {
  }

  lemma Distribute(q: int, d: int, s: int, c: int)
    ensures (q * d + s) * c == q * (c * d) + s * c
  {
    assert (q * d + s) * c == (q * d) * c + s * c;
    assert (q * d) * c == q * (c * d);
  }

  /** Quotient and remainder are the only numbers that fit. */
  lemma DivModIs(x: int, d: int, q: int, r: int)
    requires d > 0 && x == q * d + r && 0 <= r < d
    ensures x / d == q && x % d == r
  {
    var e := x / d - q;
    assert e * d == r - x % d by {
      assert x == (x / d) * d + x % d;
      assert e * d == (x / d) * d - q * d;
    }
    MulAtLeast(e, d);
  }

  lemma {:induction false} Pow2Add(a: nat, b: nat)
    ensures Pow2(a + b) == Pow2(a) * Pow2(b)
  {
    if a == 0 {
      assert Pow2(0) * Pow2(b) == Pow2(b);
    } else {
      Pow2Add(a - 1, b);
      assert Pow2(a + b) == 2 * (Pow2(a - 1) * Pow2(b));
      assert (2 * Pow2(a - 1)) * Pow2(b) == 2 * (Pow2(a - 1) * Pow2(b));
    }
  }

  lemma {:induction false} Pow2Grows(a: nat, b: nat)
    requires a <= b
    ensures Pow2(a) <= Pow2(b) && (a < b ==> 2 * Pow2(a) <= Pow2(b))
  {
    if a < b {
      Pow2Grows(a, b - 1);
    }
  }

  lemma Pow2Small()
    ensures Pow2(4) == 16 && Pow2(7) == 128
  {
    assert Pow2(3) == 8;
  }

  lemma Pow2Word()
    ensures Pow2(64) == WORD && Pow2(32) == 0x1_0000_0000
  {
    hide Pow2;
    Pow2Small();
    Pow2Add(4, 4);
    Pow2Add(8, 8);
    Pow2Add(16, 16);
    Pow2Add(32, 32);
  }

  lemma QuotientBetween(x: int, p: int, lo: int, hi: int)
    requires p > 0 && lo * p <= x < hi * p
    ensures lo <= x / p < hi && (x / p) * p <= x < (x / p + 1) * p
  {
    var q := x / p;
    assert x == q * p + x % p;
    MulAtLeast(lo - q, p);
    MulAtLeast(q - hi + 1, p);
    assert (lo - q) * p == lo * p - q * p && (q - hi + 1) * p == q * p - hi * p + p;
  }

  /** Division by `c * d` is division by `c` and then by `d`. */
  lemma DivDiv(n: nat, c: nat, d: nat)
    requires c > 0 && d > 0
    ensures c * d > 0 && n / (c * d) == (n / c) / d
  {
    var m, r := n / c, n % c;
    var q, s := m / d, m % d;
    assert n == m * c + r && m == q * d + s;
    Distribute(q, d, s, c);
    MulAtLeast(d - s, c);
    assert (d - s) * c == c * d - s * c;
    assert s * c >= 0;
    var p := c * d;
    assert n == q * p + (s * c + r);
    DivModIs(n, p, q, s * c + r);
  }

  lemma HalfMod(x: nat, p: nat)
    requires p > 0
    ensures x % (2 * p) == x % 2 + 2 * ((x / 2) % p)
  {
    var q, r := (x / 2) / p, (x / 2) % p;
    assert x / 2 == q * p + r;
    assert q * (2 * p) == 2 * (q * p);
    DivModIs(x, 2 * p, q, 2 * r + x % 2);
  }

  // -------------------------------------------------------------------- masks

  lemma {:induction false} AndSelf(a: nat)
    ensures And(a, a) == a
  {
    if a != 0 {
      AndSelf(a / 2);
    }
  }

  /** `x & (2^k - 1)` is the remainder. */
  lemma {:induction false} AndMask(x: nat, k: nat)
    ensures And(x, Pow2(k) - 1) == x % Pow2(k)
  {
    if k == 0 {
      assert x % 1 == 0;
    } else if x == 0 {
      DivModIs(0, Pow2(k), 0, 0);
    } else {
      var p := Pow2(k - 1);
      AndMask(x / 2, k - 1);
      assert (2 * p - 1) / 2 == p - 1 && (2 * p - 1) % 2 == 1;
      HalfMod(x, p);
      assert p == 1 ==> (x / 2) % p == 0;
    }
  }

  /** `a & (a - 1)` is zero exactly for the powers of two. */
  lemma {:induction false} AndPred(a: nat)
    requires a > 0
    ensures And(a, a - 1) == 0 <==> IsPow2(a)
  {
    if a == 1 {
      assert a == Pow2(0);
    } else if a % 2 == 1 {
      AndSelf(a / 2);
      assert (a - 1) / 2 == a / 2;
      forall k: nat ensures a != Pow2(k) {
        assert k > 0 ==> Pow2(k) % 2 == 0;
      }
    } else {
      AndPred(a / 2);
      assert (a - 1) / 2 == a / 2 - 1;
      if IsPow2(a / 2) {
        var k: nat :| a / 2 == Pow2(k);
        assert a == Pow2(k + 1);
      }
      if IsPow2(a) {
        var k: nat :| a == Pow2(k);
        assert a / 2 == Pow2(k - 1);
      }
    }
  }

  /** A mask and its complement split a word. */
  lemma {:induction false} AndComplement(x: nat, m: nat, w: nat)
    requires x < Pow2(w) && m < Pow2(w)
    ensures And(x, m) + And(x, Pow2(w) - 1 - m) == x
  {
    if w > 0 && x > 0 {
      var c := Pow2(w) - 1 - m;
      var p := Pow2(w - 1);
      assert c / 2 == p - 1 - m / 2 && c % 2 == 1 - m % 2;
      AndComplement(x / 2, m / 2, w - 1);
      assert m == 0 ==> And(x / 2, m / 2) == 0;
      assert c == 0 ==> And(x / 2, c / 2) == 0;
    }
  }

  /** `x & !(2^k - 1)` rounds a word down. */
  lemma RoundDown(x: nat, k: nat)
    requires x < WORD && Pow2(k) <= WORD
    ensures And(x, WORD - 1 - (Pow2(k) - 1)) == x - x % Pow2(k)
  {
    Pow2Word();
    AndComplement(x, Pow2(k) - 1, 64);
    AndMask(x, k);
  }

  // ----------------------------------------------------------- trailing zeros

  function TrailingZeros(n: nat): nat
    requires n > 0
  {
    if n % 2 == 1 then 0 else 1 + TrailingZeros(n / 2)
  }

  function OddPart(n: nat): nat
    requires n > 0
  {
    n / Pow2(TrailingZeros(n))
  }

  lemma HalfSplit(n: nat, o: nat, p: nat)
    requires n % 2 == 0 && n / 2 == o * p && p > 0
    ensures n == o * (2 * p) && n / (2 * p) == o
  {
    assert o * (2 * p) == 2 * (o * p);
    DivModIs(n, 2 * p, o, 0);
  }

  lemma {:induction false} OddSplit(n: nat)
    requires n > 0
    ensures n == OddPart(n) * Pow2(TrailingZeros(n)) && OddPart(n) % 2 == 1
  {
    if n % 2 == 1 {
      assert OddPart(n) == n / 1;
    } else {
      OddSplit(n / 2);
      HalfSplit(n, OddPart(n / 2), Pow2(TrailingZeros(n / 2)));
      assert Pow2(TrailingZeros(n)) == 2 * Pow2(TrailingZeros(n / 2));
    }
  }

  /** The split is unique. */
  lemma {:induction false} OddSplitIs(n: nat, odd: nat, k: nat)
    requires odd % 2 == 1 && n == odd * Pow2(k)
    ensures n > 0 && TrailingZeros(n) == k && OddPart(n) == odd
  {
    if k == 0 {
      assert n / 1 == n;
    } else {
      var p := Pow2(k - 1);
      assert n == 2 * (odd * p) by {
        assert odd * (2 * p) == 2 * (odd * p);
      }
      OddSplitIs(odd * p, odd, k - 1);
      assert n / 2 == odd * p;
      DivModIs(n, Pow2(k), odd, 0);
    }
  }
}
