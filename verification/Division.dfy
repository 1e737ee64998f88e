/** Dividing by a class size without dividing: 32-bit reciprocals and modular inverses. */
module Division {
  import opened Bits
  import opened Bins

  const HALF: nat := 0x1_0000_0000

  /** `ceil(2^32 / d)`. */
  function Recip32(d: nat): nat
    requires d > 0
  {
    (HALF + d - 1) / d
  }

  function Recip(i: nat): nat
    requires i < 4
  {
    if i == 0 then Recip32(1) else if i == 1 then Recip32(3) else if i == 2 then Recip32(5) else Recip32(7)
  }

  /** `div_by_block_size`: shift the power of two out, multiply by the reciprocal of the odd part. */
  function DivByBlockSize(n: nat, bsize: nat): int
    requires bsize > 0
  {
    var k := TrailingZeros(bsize);
    var m := n / Pow2(k);
    var odd := bsize / Pow2(k);
    (m * Recip(odd / 2 % 4)) / HALF
  }

  predicate OddClass(d: nat) {
    d == 1 || d == 3 || d == 5 || d == 7
  }

  /** How far the reciprocal overshoots: `d * ceil(2^32/d) - 2^32`. */
  function Excess(d: nat): nat
    requires OddClass(d)
  {
    if d == 1 then 0 else if d == 3 then 2 else if d == 5 then 4 else 3
  }

  lemma RecipIs(d: nat)
    requires OddClass(d)
    ensures Recip(d / 2 % 4) == Recip32(d) && d * Recip32(d) == HALF + Excess(d)
  {
  }

  lemma RecipAlgebra(m: int, r: int, d: int, q: int, s: int, e: int)
    requires m == q * d + s && d * r == HALF + e
    ensures d * (m * r - q * HALF) == s * HALF + m * e
  {
    assert d * (m * r) == m * (d * r);
    assert m * (HALF + e) == m * HALF + m * e;
    assert d * (q * HALF) == (q * d) * HALF;
    assert d * (m * r - q * HALF) == d * (m * r) - d * (q * HALF);
  }

  /** `x / h` is `q` exactly when what `x` has over `q * h`, scaled by `d`, stays in `0..d * h`. */
  lemma QuotientScaled(x: int, h: int, q: int, d: int, y: int)
    requires h > 0 && d > 0 && d * (x - q * h) == y && y >= 0
    ensures x / h == q <==> y < d * h
  {
    var t := x - q * h;
    assert x == q * h + t;
    assert t >= 0 by {
      MulAtLeast(t, d);
    }
    if t < h {
      DivModIs(x, h, q, t);
      MulAtLeast(h - t, d);
      assert d * (h - t) == d * h - d * t;
    } else {
      QuotientAtLeast(x, h, q + 1);
      assert d * (t - h) == d * t - d * h;
      assert d * (t - h) >= 0;
    }
  }

  /** The product form is the quotient exactly when the overshoot stays below the gap to the next one. */
  lemma RecipExact(m: nat, d: nat)
    requires OddClass(d)
    ensures (m * Recip32(d)) / HALF == m / d <==> m * Excess(d) < (d - m % d) * HALF
  {
    RecipIs(d);
    var r, e, q, s := Recip32(d), Excess(d), m / d, m % d;
    assert m == q * d + s;
    RecipAlgebra(m, r, d, q, s, e);
    assert m * e >= 0;
    QuotientScaled(m * r, HALF, q, d, s * HALF + m * e);
  }

  lemma QuotientAtLeast(x: int, d: int, q: int)
    requires d > 0 && x >= q * d
    ensures x / d >= q
  {
    assert x == (x / d) * d + x % d;
    MulAtLeast(q - x / d, d);
    assert (q - x / d) * d == q * d - (x / d) * d;
  }

  lemma ExcessSmall(m: nat, d: nat)
    requires OddClass(d) && m < 0x4000_0000
    ensures m * Excess(d) < (d - m % d) * HALF
  {
    assert m * Excess(d) <= m * 4 < HALF by {
      assert m * (4 - Excess(d)) >= 0;
    }
    MulAtLeast(d - m % d, HALF);
  }

  lemma OddDivision(m: nat, d: nat)
    requires OddClass(d) && m < 0x4000_0000
    ensures (m * Recip(d / 2 % 4)) / HALF == m / d
  {
    RecipIs(d);
    RecipExact(m, d);
    ExcessSmall(m, d);
  }

  lemma DivisionByShape(n: nat, bsize: nat, odd: nat, k: nat)
    requires OddClass(odd) && bsize == odd * Pow2(k) && n / Pow2(k) < 0x4000_0000
    ensures bsize > 0 && DivByBlockSize(n, bsize) == n / bsize
  {
    hide Pow2, Recip, TrailingZeros;
    OddSplitIs(bsize, odd, k);
    DivModIs(bsize, Pow2(k), odd, 0);
    OddDivision(n / Pow2(k), odd);
    DivDiv(n, Pow2(k), odd);
  }

  lemma DivisionByZeros(n: nat, bsize: nat, odd: nat, k: nat, z: nat)
    requires OddClass(odd) && bsize == odd * Pow2(k) && bsize > 0
    requires z == TrailingZeros(bsize) && n / Pow2(z) < 0x4000_0000
    ensures DivByBlockSize(n, bsize) == n / bsize
  {
    assert z == k by {
      OddSplitIs(bsize, odd, k);
    }
    DivisionByShape(n, bsize, odd, k);
  }

  /** For every class size and every dividend whose shifted value is below 2^30. */
  lemma DivisionExact(n: nat, bsize: nat, c: nat)
    requires IsClass(c) && bsize == ClassWords(c) * INTPTR_SIZE && bsize > 0
    requires n / Pow2(TrailingZeros(bsize)) < 0x4000_0000
    ensures DivByBlockSize(n, bsize) == n / bsize
  {
    var odd, k := ClassShape(c);
    DivisionByZeros(n, bsize, odd, k, TrailingZeros(bsize));
  }

  /** 2^30 is the first dividend at which the form with odd part 5 is wrong: one too many. */
  lemma DivisionBound(c: nat, bsize: nat, n: nat)
    requires c == 9 && bsize == ClassWords(c) * INTPTR_SIZE && n == 0x4000_0000 * 16
    ensures bsize == 80 && n / Pow2(TrailingZeros(bsize)) == 0x4000_0000
    ensures DivByBlockSize(n, bsize) == n / bsize + 1
  {
    assert Pow2(4) == 16;
    OddSplitIs(80, 5, 4);
    RecipIs(5);
  }

  // ------------------------------------------------------------- inverses

  /** `x.wrapping_mul(2.wrapping_sub(n.wrapping_mul(x)))`. */
  function NewtonStep(n: nat, x: nat): nat {
    (x * ((2 - n * x) % WORD)) % WORD
  }

  function Newton(n: nat, x: nat, steps: nat): nat
    decreases steps
  {
    if steps == 0 then x else Newton(n, NewtonStep(n, x), steps - 1)
  }

  /** Bits that are right after `i` steps: 3, 6, 12, 24, 48, then all 64. */
  function GoodBits(i: nat): nat
    requires i <= 5
  {
    if i == 0 then 3 else if i == 1 then 6 else if i == 2 then 12 else if i == 3 then 24
    else if i == 4 then 48 else 64
  }

  ghost predicate InverseTo(n: nat, x: nat, bits: nat) {
    exists c: int :: 1 - n * x == c * Pow2(bits)
  }

  lemma Reduced(y: int, n: int, c: int, p: int, r: int, q: int, y': int)
    requires y == q * (p * r) + y' && 1 - n * y == c * p
    ensures 1 - n * y' == (c + n * q * r) * p
  {
    assert n * y == n * (q * (p * r)) + n * y';
    assert n * (q * (p * r)) == (n * q * r) * p;
    assert (c + n * q * r) * p == c * p + (n * q * r) * p;
  }

  /** A reduction modulo the word keeps every congruence to a smaller power of two. */
  lemma WordKeeps(y: int, n: int, c: int, bits: nat)
    requires bits <= 64 && 1 - n * y == c * Pow2(bits)
    ensures exists d: int :: 1 - n * (y % WORD) == d * Pow2(bits)
  {
    Pow2Word();
    Pow2Add(bits, 64 - bits);
    var q := y / WORD;
    assert y == q * WORD + y % WORD;
    Reduced(y, n, c, Pow2(bits), Pow2(64 - bits), q, y % WORD);
  }

  /** One Newton step squares the error, so it doubles the bits. */
  lemma StepDoubles(n: nat, x: nat, bits: nat, more: nat)
    requires InverseTo(n, x, bits) && bits <= more <= 2 * bits && more <= 64
    ensures InverseTo(n, NewtonStep(n, x), more)
  {
    var c: int :| 1 - n * x == c * Pow2(bits);
    var z := 2 - n * x;
    var q := z / WORD;
    assert z == q * WORD + z % WORD;
    var y := x * z;
    assert 1 - n * y == (1 - n * x) * (1 - n * x) by {
      SquareError(n, x);
    }
    Pow2Add(bits, bits);
    Pow2Add(more, 2 * bits - more);
    var d := c * c * Pow2(2 * bits - more);
    SquareOf(c, Pow2(bits), Pow2(more), Pow2(2 * bits - more));
    assert 1 - n * y == d * Pow2(more);
    WordKeeps(y, n, d, more);
    assert y % WORD == NewtonStep(n, x) by {
      ModProduct(x, z);
    }
  }

  lemma SquareError(n: int, x: int)
    ensures 1 - n * (x * (2 - n * x)) == (1 - n * x) * (1 - n * x)
  {
    var u := n * x;
    assert n * (x * (2 - u)) == u * (2 - u);
  }

  lemma SquareOf(c: int, p: int, m: int, r: int)
    requires p * p == m * r
    ensures (c * p) * (c * p) == (c * c * r) * m
  {
    assert (c * p) * (c * p) == (c * c) * (p * p);
    assert (c * c) * (m * r) == (c * c * r) * m;
  }

  lemma ModProduct(x: int, z: int)
    ensures (x * z) % WORD == (x * (z % WORD)) % WORD
  {
    var q := z / WORD;
    assert x * z == (x * q) * WORD + x * (z % WORD) by {
      assert z == q * WORD + z % WORD;
      assert x * (q * WORD) == (x * q) * WORD;
    }
    var a := x * (z % WORD);
    assert a == (a / WORD) * WORD + a % WORD;
    assert (x * q) * WORD + (a / WORD) * WORD == (x * q + a / WORD) * WORD;
    DivModIs(x * z, WORD, x * q + a / WORD, a % WORD);
  }

  lemma {:induction false} NewtonSnoc(n: nat, x: nat, i: nat)
    ensures Newton(n, x, i + 1) == NewtonStep(n, Newton(n, x, i))
    decreases i
  {
    if i > 0 {
      NewtonSnoc(n, NewtonStep(n, x), i - 1);
    }
  }

  lemma ConsecutiveEven(h: int) returns (e: int)
    ensures h * (h + 1) == 2 * e
  {
    if h % 2 == 0 {
      e := (h / 2) * (h + 1);
      assert h * (h + 1) == (2 * (h / 2)) * (h + 1);
    } else {
      e := h * ((h + 1) / 2);
      assert h * (h + 1) == h * (2 * ((h + 1) / 2));
    }
  }

  lemma OddSquare(h: int)
    ensures (2 * h + 1) * (2 * h + 1) == 4 * (h * (h + 1)) + 1
  {
  }

  /** An odd number is its own inverse to three bits. */
  lemma OwnInverse(n: nat)
    requires n % 2 == 1
    ensures InverseTo(n, n, 3)
  {
    OddSquare(n / 2);
    assert n == 2 * (n / 2) + 1;
    var e := ConsecutiveEven(n / 2);
    assert 1 - n * n == (-e) * Pow2(3);
  }

  /** `odd_mod_inverse`: five steps from `n` give the inverse of every odd `n` modulo 2^64. */
  method OddModInverse(n: nat) returns (x: nat)
    requires n % 2 == 1 && n < WORD
    ensures x < WORD && (n * x) % WORD == 1 && x == Newton(n, n, 5)
  {
    x := n;
    OwnInverse(n);
    var i := 0;
    while i < 5
      invariant 0 <= i <= 5 && x < WORD && x == Newton(n, n, i) && InverseTo(n, x, GoodBits(i))
    {
      StepDoubles(n, x, GoodBits(i), GoodBits(i + 1));
      NewtonSnoc(n, n, i);
      x := (x * ((2 - n * x) % WORD)) % WORD;
      i := i + 1;
    }
    InverseIsOne(n, x);
  }

  lemma InverseIsOne(n: nat, x: nat)
    requires InverseTo(n, x, 64)
    ensures (n * x) % WORD == 1
  {
    Pow2Word();
    var c: int :| 1 - n * x == c * Pow2(64);
    assert n * x == (-c) * WORD + 1;
    DivModIs(n * x, WORD, -c, 1);
  }

  /** The same of the value itself. */
  lemma NewtonInverts(n: nat)
    requires n % 2 == 1 && n < WORD
    ensures (n * Newton(n, n, 5)) % WORD == 1
  {
    OwnInverse(n);
    var i := 0;
    while i < 5
      invariant 0 <= i <= 5 && InverseTo(n, Newton(n, n, i), GoodBits(i))
    {
      StepDoubles(n, Newton(n, n, i), GoodBits(i), GoodBits(i + 1));
      NewtonSnoc(n, n, i);
      i := i + 1;
    }
    InverseIsOne(n, Newton(n, n, 5));
  }

  /** `exact_div_by_block_size`: one wrapping multiplication. */
  function ExactDiv(n: nat, bsize: nat): int
    requires bsize > 0
  {
    var k := TrailingZeros(bsize);
    var odd := bsize / Pow2(k);
    var m := n / Pow2(k);
    if odd == 1 then m else (m * Newton(odd, odd, 5)) % WORD
  }

  lemma OddQuotient(q: nat, odd: nat)
    requires odd % 2 == 1 && odd < WORD && q < WORD
    ensures ((q * odd) * Newton(odd, odd, 5)) % WORD == q
  {
    NewtonInverts(odd);
    var x := Newton(odd, odd, 5);
    MulAssoc(q, odd, x);
    ModProduct(q, odd * x);
    DivModIs(q, WORD, 0, q);
  }

  lemma QuotientByShape(q: nat, bsize: nat, odd: nat, k: nat)
    requires odd % 2 == 1 && odd < WORD && bsize == odd * Pow2(k) && q < WORD
    ensures bsize > 0 && ExactDiv(q * bsize, bsize) == q
  {
    hide Pow2, Newton, TrailingZeros;
    OddSplitIs(bsize, odd, k);
    DivModIs(bsize, Pow2(k), odd, 0);
    MulAssoc(q, odd, Pow2(k));
    DivModIs((q * odd) * Pow2(k), Pow2(k), q * odd, 0);
    OddQuotient(q, odd);
  }

  lemma FactorSmaller(q: nat, b: nat)
    requires b > 0
    ensures q <= q * b
  {
    assert q * (b - 1) >= 0;
  }

  /** On every multiple of a class size that fits a word, that is the quotient. */
  lemma ExactDivision(q: nat, bsize: nat, c: nat)
    requires IsClass(c) && bsize == ClassWords(c) * INTPTR_SIZE && bsize > 0 && q * bsize < WORD
    ensures ExactDiv(q * bsize, bsize) == q
  {
    var odd, k := ClassShape(c);
    FactorSmaller(q, bsize);
    QuotientByShape(q, bsize, odd, k);
  }
}
