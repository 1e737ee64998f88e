/** Size classes, and the divisions by a class size that use no division. */
module Bins {
  import opened Bits

  const INTPTR_SIZE: nat := 8
  const MEDIUM_OBJ_SIZE_MAX: nat := 65536
  const SMALL_WSIZE_MAX: nat := 128
  const BIN_HUGE: nat := 73

  function WSize(size: nat): nat {
    (size + INTPTR_SIZE - 1) / INTPTR_SIZE
  }

  /** Position of the top set bit: the source's `usize::BITS - 1 - leading_zeros`. */
  function Bsr(w: nat): (b: nat)
    requires w > 0
    ensures Pow2(b) <= w < 2 * Pow2(b)
  {
    if w == 1 then 0 else 1 + Bsr(w / 2)
  }

  /** The class of `w` words, with no upper cutoff. */
  function WordBin(w: nat): nat {
    if w <= 1 then 1
    else if w <= 8 then (w + 1) / 2 * 2
    else
      var b := Bsr(w - 1);
      4 * b + ((w - 1) / Pow2(b - 2)) % 4 - 3
  }

  /** `bin`. */
  function Bin(size: nat): nat {
    if WSize(size) > 8 && size > MEDIUM_OBJ_SIZE_MAX then BIN_HUGE else WordBin(WSize(size))
  }

  /** Words per block of class `n`, on unbounded numbers. */
  function ClassWords(n: nat): nat {
    if n <= 8 then n else (5 + (n + 3) % 4) * Pow2((n + 3) / 4 - 2)
  }

  /** `bin_size`, on 64-bit words: indices whose sum overflows give 0, the shift count is cut to 32
      bits, large shifts drop bits or give 0, the product saturates. */
  function BinSize(n: nat): nat {
    if n <= 8 then n * INTPTR_SIZE
    else if n + 3 >= WORD then 0
    else
      var t := n + 3;
      var shift := (t / 4 - 2) % 0x1_0000_0000;
      if shift >= WORD_BITS then 0
      else
        var w := ((5 + t % 4) * Pow2(shift)) % WORD;
        if w * INTPTR_SIZE >= WORD then WORD - 1 else w * INTPTR_SIZE
  }

  /** The classes that exist: 3, 5 and 7 do not. */
  predicate IsClass(n: nat) {
    n == 1 || n == 2 || n == 4 || n == 6 || n >= 8
  }

  // ------------------------------------------------------------- the geometry

  lemma WideBit(v: nat)
    requires v >= 8
    ensures Bsr(v) >= 3
  {
    assert Pow2(2) == 4;
    if Bsr(v) < 3 {
      Pow2Grows(Bsr(v), 2);
    }
  }

  lemma WideQuotient(v: nat, b: nat, p: nat)
    requires b >= 2 && p == Pow2(b - 2) && Pow2(b) <= v < 2 * Pow2(b)
    ensures 4 <= v / p < 8 && (v / p) * p <= v < (v / p + 1) * p
  {
    assert Pow2(b) == 2 * Pow2(b - 1) == 4 * p;
    QuotientBetween(v, p, 4, 8);
  }

  /** Above 8 words: the two bits under the top one pick one of four steps. */
  lemma WideBin(w: nat)
    requires w > 8
    ensures Bsr(w - 1) >= 3
    ensures var p := Pow2(Bsr(w - 1) - 2); var q := (w - 1) / p;
            4 <= q < 8 && q * p <= w - 1 < (q + 1) * p && WordBin(w) == 4 * Bsr(w - 1) + q - 7
  {
    hide Bsr, Pow2;
    WideBit(w - 1);
    var b := Bsr(w - 1);
    WideQuotient(w - 1, b, Pow2(b - 2));
  }

  /** A class above 8, by its step within the power of two. */
  lemma WideWords(n: nat, m: nat, p: nat)
    requires n >= 9 && m == (n + 3) % 4 && p == Pow2((n + 3) / 4 - 2)
    ensures ClassWords(n) == if m == 0 then 5 * p else if m == 1 then 6 * p else if m == 2 then 7 * p else 8 * p
  {
  }

  /** From 64 bytes up consecutive classes grow, and by no more than a quarter. */
  lemma ClassesStep(n: nat)
    requires n >= 8
    ensures ClassWords(n) < ClassWords(n + 1) && 4 * ClassWords(n + 1) <= 5 * ClassWords(n)
  {
    if n >= 9 {
      var m, p := (n + 3) % 4, Pow2((n + 3) / 4 - 2);
      WideWords(n, m, p);
      if m == 3 {
        assert (n + 4) / 4 == (n + 3) / 4 + 1 && (n + 4) % 4 == 0;
        WideWords(n + 1, 0, 2 * p);
      } else {
        assert (n + 4) / 4 == (n + 3) / 4 && (n + 4) % 4 == m + 1;
        WideWords(n + 1, m + 1, p);
      }
    } else {
      WideWords(9, 0, Pow2(1));
    }
  }

  lemma {:induction false} ClassesGrow(m: nat, n: nat)
    requires m <= n
    ensures ClassWords(m) <= ClassWords(n) && (m < n ==> ClassWords(m) < ClassWords(n))
    decreases n - m
  {
    if m < n {
      ClassesGrow(m, n - 1);
      if n >= 9 {
        ClassesStep(n - 1);
      }
    }
  }

  /** Step `q` of power `b` ends at class `n`, and the class before it ends where the step begins. */
  lemma StepClass(n: nat, b: nat, q: nat, p: nat, v: int)
    requires b >= 3 && 4 <= q < 8 && n == 4 * b + q - 7 && p == Pow2(b - 2) && q * p <= v < (q + 1) * p
    ensures ClassWords(n - 1) <= v < ClassWords(n)
  {
    assert p == 2 * Pow2(b - 3);
    hide Pow2;
    assert (n + 3) / 4 == b && (n + 3) % 4 == q - 4;
    WideWords(n, q - 4, p);
    StepBounds(v, q, p);
    if n > 9 {
      if q == 4 {
        assert (n + 2) / 4 == b - 1 && (n + 2) % 4 == 3;
        WideWords(n - 1, 3, Pow2(b - 3));
      } else {
        assert (n + 2) / 4 == b && (n + 2) % 4 == q - 5;
        WideWords(n - 1, q - 5, p);
      }
    } else {
      EighthClass(b, p);
    }
  }

  lemma EighthClass(b: nat, p: nat)
    requires b == 3 && p == Pow2(b - 2)
    ensures p == 2 && ClassWords(8) == 8
  {
  }

  /** Where `w` falls between the class chosen for it and the one before. */
  lemma Brackets(w: nat)
    requires w > 8
    ensures WordBin(w) >= 9 && ClassWords(WordBin(w) - 1) < w <= ClassWords(WordBin(w))
  {
    hide Bsr, Pow2, ClassWords;
    WideBin(w);
    var p := Pow2(Bsr(w - 1) - 2);
    StepClass(WordBin(w), Bsr(w - 1), (w - 1) / p, p, w - 1);
  }

  lemma StepBounds(v: int, q: int, p: int)
    requires 4 <= q < 8 && q * p <= v < (q + 1) * p
    ensures q == 4 ==> 4 * p <= v < 5 * p
    ensures q == 5 ==> 5 * p <= v < 6 * p
    ensures q == 6 ==> 6 * p <= v < 7 * p
    ensures q == 7 ==> 7 * p <= v < 8 * p
  {
  }

  /** The class of `w` words is a class, holds them, and is the least that does. */
  lemma LeastClass(w: nat, c: nat)
    ensures IsClass(WordBin(w)) && w <= ClassWords(WordBin(w))
    ensures IsClass(c) && w <= ClassWords(c) ==> WordBin(w) <= c && ClassWords(WordBin(w)) <= ClassWords(c)
  {
    if w > 8 {
      Brackets(w);
      if w <= ClassWords(c) && c < WordBin(w) {
        ClassesGrow(c, WordBin(w) - 1);
      }
    } else {
      assert w == 0 || w == 1 || w == 2 || w == 3 || w == 4 || w == 5 || w == 6 || w == 7 || w == 8;
      if w <= ClassWords(c) && c >= 9 {
        ClassesGrow(8, c);
      }
    }
    if IsClass(c) && WordBin(w) <= c {
      ClassesGrow(WordBin(w), c);
    }
  }

  /** More words never land in a smaller class. */
  lemma BinMonotone(v: nat, w: nat)
    requires v <= w
    ensures WordBin(v) <= WordBin(w)
  {
    LeastClass(w, 0);
    LeastClass(v, WordBin(w));
  }

  /** `bin` undoes `bin_size` on every class. */
  lemma BinInverts(n: nat)
    requires IsClass(n)
    ensures WordBin(ClassWords(n)) == n
  {
    var w := ClassWords(n);
    LeastClass(w, n);
    if WordBin(w) < n {
      ClassesGrow(WordBin(w), n);
    }
  }

  /** Every class is an odd number of at most 7 times a power of two, and its block size is a
      multiple of 8 bytes. */
  lemma ClassShape(n: nat) returns (odd: nat, k: nat)
    requires IsClass(n)
    ensures odd == 1 || odd == 3 || odd == 5 || odd == 7
    ensures k >= 3 && ClassWords(n) * INTPTR_SIZE == odd * Pow2(k)
  {
    if n == 1 { odd, k := 1, 3; }
    else if n == 2 { odd, k := 1, 4; }
    else if n == 4 { odd, k := 1, 5; }
    else if n == 6 { odd, k := 3, 4; }
    else if n == 8 { odd, k := 1, 6; }
    else {
      var s := (n + 3) / 4 - 2;
      var m := (n + 3) % 4;
      WideWords(n, m, Pow2(s));
      Pow2Add(s, 3);
      assert Pow2(3) == 8;
      if m == 0 { odd, k := 5, s + 3; }
      else if m == 1 { odd, k := 3, s + 4; assert Pow2(s + 4) == 2 * Pow2(s + 3); }
      else if m == 2 { odd, k := 7, s + 3; }
      else {
        odd, k := 1, s + 6;
        assert Pow2(s + 6) == 2 * Pow2(s + 5) && Pow2(s + 5) == 2 * Pow2(s + 4) && Pow2(s + 4) == 2 * Pow2(s + 3);
      }
    }
  }

  lemma NoBitsLost(odd: nat, shift: nat)
    requires 5 <= odd <= 8 && shift <= 57
    ensures (odd * Pow2(shift)) % WORD == odd * Pow2(shift) && odd * Pow2(shift) * INTPTR_SIZE < WORD
  {
    hide Pow2;
    Pow2Word();
    Pow2Small();
    Pow2Grows(shift, 57);
    Pow2Add(57, 7);
    var w := odd * Pow2(shift);
    assert w <= 8 * Pow2(shift);
    DivModIs(w, WORD, 0, w);
  }

  /** The 64-bit `bin_size` is exact far beyond the last bin in use. */
  lemma BinSizeExact(n: nat)
    requires n <= 236
    ensures BinSize(n) == ClassWords(n) * INTPTR_SIZE
  {
    if n > 8 {
      hide Pow2;
      var shift, odd := (n + 3) / 4 - 2, 5 + (n + 3) % 4;
      NoBitsLost(odd, shift);
      var w := odd * Pow2(shift);
      assert ClassWords(n) == w;
      hide ClassWords;
      assert shift % 0x1_0000_0000 == shift;
      assert BinSize(n) == w * INTPTR_SIZE;
    }
  }

  lemma TopClass()
    ensures ClassWords(48) == 8192 && WordBin(8192) == 48
  {
    Pow2Add(5, 5);
    assert Pow2(5) == 32;
    WideWords(48, 3, Pow2(10));
    BinInverts(48);
  }

  /** For every request a binned page serves, the class size is the least that holds it. */
  lemma GoodSize(size: nat, c: nat)
    requires size <= MEDIUM_OBJ_SIZE_MAX
    ensures IsClass(Bin(size)) && Bin(size) < BIN_HUGE && size <= BinSize(Bin(size)) <= MEDIUM_OBJ_SIZE_MAX
    ensures IsClass(c) && c < BIN_HUGE && size <= BinSize(c) ==> Bin(size) <= c && BinSize(Bin(size)) <= BinSize(c)
  {
    var w := WSize(size);
    TopClass();
    BinMonotone(w, 8192);
    ClassesGrow(WordBin(w), 48);
    LeastClass(w, c);
    BinSizeExact(WordBin(w));
    if c < BIN_HUGE {
      BinSizeExact(c);
    }
  }

  /** Past the medium limit no binned page serves. */
  lemma BinAbove(size: nat)
    ensures Bin(size) == BIN_HUGE <==> size > MEDIUM_OBJ_SIZE_MAX
  {
    if size <= MEDIUM_OBJ_SIZE_MAX {
      GoodSize(size, 1);
    }
  }

  // ---------------------------------------------------------- the small table

  /** The compile-time table of the small classes. */
  method FillSmallBin() returns (t: array<nat>)
    ensures t.Length == SMALL_WSIZE_MAX + 1
    ensures forall w | 0 <= w <= SMALL_WSIZE_MAX :: t[w] == Bin(w * INTPTR_SIZE)
  {
    t := new nat[SMALL_WSIZE_MAX + 1];
    var w := 0;
    while w <= SMALL_WSIZE_MAX
      invariant 0 <= w <= SMALL_WSIZE_MAX + 1
      invariant forall v | 0 <= v < w :: t[v] == Bin(v * INTPTR_SIZE)
    {
      t[w] := Bin(w * INTPTR_SIZE);
      w := w + 1;
    }
  }

  lemma SmallBin(size: nat, w: nat)
    requires w == WSize(size) && w <= SMALL_WSIZE_MAX
    ensures Bin(w * INTPTR_SIZE) == Bin(size)
  {
    assert WSize(w * INTPTR_SIZE) == w && size <= MEDIUM_OBJ_SIZE_MAX;
  }

  /** `bin_by_wsize`: the table answers for a size although it is indexed by words. */
  method BinByWSize(t: array<nat>, size: nat, w: nat) returns (n: nat)
    requires t.Length == SMALL_WSIZE_MAX + 1 && (forall v | 0 <= v <= SMALL_WSIZE_MAX :: t[v] == Bin(v * INTPTR_SIZE))
    requires w == WSize(size)
    ensures n == Bin(size)
  {
    if w <= SMALL_WSIZE_MAX {
      SmallBin(size, w);
      n := t[w];
    } else {
      n := Bin(size);
    }
  }
}
