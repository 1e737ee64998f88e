/** The table that takes a small word count to the front page of its class's queue, as pure
    functions of the table and the fronts. Page 0 is the empty sentinel. */
module DirectTable {
  import opened Bits
  import opened Bins

  const SLOTS: nat := SMALL_WSIZE_MAX + 1
  const MAX_DIRECT_BIN: nat := 24

  lemma SmallClass(w: nat)
    requires w < SLOTS
    ensures 1 <= WordBin(w) <= MAX_DIRECT_BIN && ClassWords(WordBin(w)) < SLOTS && IsClass(WordBin(w))
  {
    LeastClass(w, MAX_DIRECT_BIN);
    assert ClassWords(24) == 8 * Pow2(4) == 128;
    ClassesGrow(WordBin(w), 24);
  }

  /** The class that serves `w` words. */
  function Class(w: nat): (c: nat)
    requires w < SLOTS
    ensures 1 <= c <= MAX_DIRECT_BIN && IsClass(c)
  {
    SmallClass(w);
    WordBin(w)
  }

  /** The top slot of that class. */
  function Top(w: nat): (t: nat)
    requires w < SLOTS
    ensures t < SLOTS
  {
    SmallClass(w);
    ClassWords(WordBin(w))
  }

  /** The bottom slot, as the code derives it for any index, classes that do not exist included. */
  function Lo(b: nat): nat {
    if b <= 1 then 0 else if b == 2 then 2 else if b <= 8 then b - 1 else ClassWords(b - 1) + 1
  }

  /** `update_direct` on the table: nothing for a class too large for it, nothing if the top slot
      already has the page, else the whole range. */
  function Refreshed(d: seq<nat>, b: nat, page: nat): (r: seq<nat>)
    requires |d| == SLOTS
    ensures |r| == SLOTS
  {
    var hi := ClassWords(b);
    if hi >= SLOTS || d[hi] == page then d
    else seq(SLOTS, w requires 0 <= w < SLOTS => if Lo(b) <= w <= hi then page else d[w])
  }

  /** Every slot of a class holds the same page. */
  ghost predicate Uniform(d: seq<nat>) {
    |d| == SLOTS && forall w: nat | w < SLOTS :: d[w] == d[Top(w)]
  }

  /** Every slot holds the front of the queue that serves its word count. */
  ghost predicate Coherent(d: seq<nat>, f: seq<nat>) {
    |d| == SLOTS && |f| > MAX_DIRECT_BIN && forall w: nat | w < SLOTS :: d[w] == f[Class(w)]
  }

  /** The slots of a real class are exactly the word counts it serves. */
  lemma SlotsOf(b: nat, w: nat)
    requires IsClass(b) && b <= MAX_DIRECT_BIN
    ensures ClassWords(b) < SLOTS && Lo(b) <= ClassWords(b)
    ensures WordBin(w) == b <==> Lo(b) <= w <= ClassWords(b)
  {
    assert ClassWords(24) == 8 * Pow2(4) == 128;
    ClassesGrow(b, 24);
    if w > 8 {
      SlotsOfWide(b, w);
    } else {
      if b >= 9 {
        ClassesGrow(8, b - 1);
      }
      LowBins(w);
    }
    if b >= 9 {
      ClassesGrow(b - 1, b);
    }
  }

  lemma SlotsOfWide(b: nat, w: nat)
    requires IsClass(b) && w > 8
    ensures WordBin(w) == b <==> Lo(b) <= w <= ClassWords(b)
  {
    hide Bsr;
    Brackets(w);
    var c := WordBin(w);
    if b >= 9 {
      if c < b {
        ClassesGrow(c, b - 1);
      } else if b < c {
        ClassesGrow(b, c - 1);
      }
    } else {
      ClassesGrow(b, 8);
    }
  }

  /** The classes of the low word counts. */
  lemma LowBins(w: nat)
    ensures WordBin(0) == WordBin(1) == 1 && WordBin(2) == 2 && WordBin(3) == WordBin(4) == 4
    ensures WordBin(5) == WordBin(6) == 6 && WordBin(7) == WordBin(8) == 8
    ensures w <= 8 ==> w in {0, 1, 2, 3, 4, 5, 6, 7, 8}
  {
  }

  /** On a uniform table the top slot answers for its class: one refresh puts the front in every
      slot the class serves and in no other. */
  lemma RefreshServes(d: seq<nat>, b: nat, page: nat, w: nat)
    requires Uniform(d) && IsClass(b) && b <= MAX_DIRECT_BIN && w < SLOTS
    ensures Refreshed(d, b, page)[w] == if Class(w) == b then page else d[w]
  {
    SlotsOf(b, w);
    if Class(w) == b {
      assert Top(w) == ClassWords(b);
    }
  }

  lemma TopIsTop(w: nat)
    requires w < SLOTS
    ensures Class(Top(w)) == Class(w) && Top(Top(w)) == Top(w)
  {
    SmallClass(w);
    BinInverts(WordBin(w));
  }

  lemma RefreshUniform(d: seq<nat>, b: nat, page: nat)
    requires Uniform(d) && IsClass(b) && b <= MAX_DIRECT_BIN
    ensures Uniform(Refreshed(d, b, page))
  {
    var r := Refreshed(d, b, page);
    forall w: nat | w < SLOTS ensures r[w] == r[Top(w)] {
      TopIsTop(w);
      RefreshServes(d, b, page, w);
      RefreshServes(d, b, page, Top(w));
    }
  }

  lemma CoherentUniform(d: seq<nat>, f: seq<nat>)
    requires Coherent(d, f)
    ensures Uniform(d)
  {
    forall w: nat | w < SLOTS ensures d[w] == d[Top(w)] {
      TopIsTop(w);
    }
  }

  /** When only the front of `b` changed, refreshing `b` makes the table coherent again. */
  lemma RefreshCoherent(d: seq<nat>, f: seq<nat>, g: seq<nat>, b: nat)
    requires Coherent(d, f) && |g| == |f| && b < |f| && (forall c | 0 <= c <= MAX_DIRECT_BIN && c != b :: g[c] == f[c])
    requires IsClass(b)
    ensures Coherent(Refreshed(d, b, g[b]), g)
  {
    CoherentUniform(d, f);
    if b <= MAX_DIRECT_BIN {
      forall w: nat | w < SLOTS ensures Refreshed(d, b, g[b])[w] == g[Class(w)] {
        RefreshServes(d, b, g[b], w);
      }
    } else {
      LargeClass(b);
    }
  }

  /** Classes past the last direct one have no slots. */
  lemma LargeClass(b: nat)
    requires b > MAX_DIRECT_BIN
    ensures ClassWords(b) >= SLOTS
  {
    assert ClassWords(25) == 5 * Pow2(5) == 160;
    ClassesGrow(25, b);
  }

  // -------------------------------------------------------------- the rebuild

  /** Refreshing `b`, `b + 1`, .. up to the last direct class, indices that are no class included. */
  function Rebuilt(d: seq<nat>, f: seq<nat>, b: nat): (r: seq<nat>)
    requires |d| == SLOTS && |f| > MAX_DIRECT_BIN
    ensures |r| == SLOTS
    decreases MAX_DIRECT_BIN + 1 - b
  {
    if b > MAX_DIRECT_BIN then d else Rebuilt(Refreshed(d, b, f[b]), f, b + 1)
  }

  /** Slots above the eighth are uniform. */
  ghost predicate HighUniform(d: seq<nat>) {
    |d| == SLOTS && forall w: nat | 8 < w < SLOTS :: d[w] == d[Top(w)]
  }

  lemma HighRefresh(d: seq<nat>, b: nat, page: nat, w: nat)
    requires HighUniform(d) && 9 <= b <= MAX_DIRECT_BIN && w < SLOTS
    ensures Refreshed(d, b, page)[w] == if Class(w) == b then page else d[w]
  {
    SlotsOf(b, w);
    if Class(w) == b {
      assert Top(w) == ClassWords(b);
      ClassesGrow(8, b - 1);
    }
  }

  lemma HighRefreshUniform(d: seq<nat>, b: nat, page: nat)
    requires HighUniform(d) && 9 <= b <= MAX_DIRECT_BIN
    ensures HighUniform(Refreshed(d, b, page))
  {
    var r := Refreshed(d, b, page);
    forall w: nat | 8 < w < SLOTS ensures r[w] == r[Top(w)] {
      TopIsTop(w);
      HighRefresh(d, b, page, w);
      HighRefresh(d, b, page, Top(w));
    }
  }

  /** From class 9 up every index is a class: the rebuild is exact there and leaves the rest. */
  lemma {:induction false} RebuildHigh(d: seq<nat>, f: seq<nat>, b: nat, w: nat)
    requires 9 <= b <= MAX_DIRECT_BIN + 1 && |f| > MAX_DIRECT_BIN && w < SLOTS && HighUniform(d)
    ensures Rebuilt(d, f, b)[w] == if b <= Class(w) then f[Class(w)] else d[w]
    decreases MAX_DIRECT_BIN + 1 - b
  {
    if b <= MAX_DIRECT_BIN {
      HighRefresh(d, b, f[b], w);
      HighRefreshUniform(d, b, f[b]);
      RebuildHigh(Refreshed(d, b, f[b]), f, b + 1, w);
    }
  }

  /** When the loop over all indices leaves the table right: what the slots of classes 4, 6 and 8
      held before decides whether the passes over 3, 5 and 7, which have no pages, do harm. */
  predicate RebuildSafe(d: seq<nat>, f: seq<nat>)
    requires |d| == SLOTS && |f| > MAX_DIRECT_BIN
  {
    && (d[4] == 0 || f[2] == 0) && (d[4] != f[4] || f[4] == 0)
    && (d[6] == 0 || f[4] == 0) && (d[6] != f[6] || f[6] == 0)
    && (d[8] == 0 || f[6] == 0) && (d[8] != f[8] || f[8] == 0)
  }

  /** The table after the first passes. */
  function Low(d: seq<nat>, f: seq<nat>, k: nat): (r: seq<nat>)
    requires |d| == SLOTS && |f| > MAX_DIRECT_BIN && k <= 8
    ensures |r| == SLOTS
  {
    if k == 0 then d else Refreshed(Low(d, f, k - 1), k, f[k])
  }

  lemma {:induction false} LowFirst(d: seq<nat>, f: seq<nat>, k: nat)
    requires |d| == SLOTS && |f| > MAX_DIRECT_BIN && k <= 8
    ensures Rebuilt(d, f, 1) == Rebuilt(Low(d, f, k), f, k + 1)
  {
    hide Refreshed;
    if k > 0 {
      LowFirst(d, f, k - 1);
    }
  }

  /** One of the first eight passes. */
  lemma LowPass(x: seq<nat>, b: nat, page: nat)
    requires |x| == SLOTS && 1 <= b <= 8
    ensures forall w | 0 <= w < SLOTS :: Refreshed(x, b, page)[w] == if x[b] != page && Lo(b) <= w <= b then page else x[w]
  {
  }

  /** The low slots after the first eight passes. */
  ghost predicate LowSlots(d: seq<nat>, f: seq<nat>, r: seq<nat>)
    requires |r| == |d| == SLOTS && |f| > MAX_DIRECT_BIN
  {
    && r[0] == f[1] && r[1] == f[1]
    && r[2] == (if d[4] == 0 then f[2] else 0)
    && r[3] == (if d[4] == f[4] && f[4] != 0 then 0 else f[4])
    && r[4] == (if d[6] == 0 then f[4] else 0)
    && r[5] == (if d[6] == f[6] && f[6] != 0 then 0 else f[6])
    && r[6] == (if d[8] == 0 then f[6] else 0)
    && r[7] == (if d[8] == f[8] && f[8] != 0 then 0 else f[8])
    && r[8] == f[8]
  }

  lemma LowPasses(d: seq<nat>, f: seq<nat>)
    requires Uniform(d) && |f| > MAX_DIRECT_BIN && f[3] == 0 && f[5] == 0 && f[7] == 0
    ensures LowSlots(d, f, Low(d, f, 8))
    ensures forall w | 8 < w < SLOTS :: Low(d, f, 8)[w] == d[w]
  {
    LowBins(0);
    assert d[0] == d[Top(0)] == d[1] && d[3] == d[Top(3)] == d[4] && d[5] == d[Top(5)] == d[6] && d[7] == d[Top(7)] == d[8];
    LowPass(d, 1, f[1]);
    var x1 := Refreshed(d, 1, f[1]);
    LowPass(x1, 2, f[2]);
    var x2 := Refreshed(x1, 2, f[2]);
    LowPass(x2, 3, f[3]);
    var x3 := Refreshed(x2, 3, f[3]);
    LowPass(x3, 4, f[4]);
    var x4 := Refreshed(x3, 4, f[4]);
    LowPass(x4, 5, f[5]);
    var x5 := Refreshed(x4, 5, f[5]);
    LowPass(x5, 6, f[6]);
    var x6 := Refreshed(x5, 6, f[6]);
    LowPass(x6, 7, f[7]);
    var x7 := Refreshed(x6, 7, f[7]);
    LowPass(x7, 8, f[8]);
    var x8 := Refreshed(x7, 8, f[8]);
    assert Low(d, f, 0) == d && Low(d, f, 1) == x1 && Low(d, f, 2) == x2;
    assert Low(d, f, 3) == x3 && Low(d, f, 4) == x4 && Low(d, f, 5) == x5;
    assert Low(d, f, 6) == x6 && Low(d, f, 7) == x7 && Low(d, f, 8) == x8;
  }

  /** After all passes: the low slots stay as the first eight left them, the others are right. */
  lemma RebuiltSlots(d: seq<nat>, f: seq<nat>)
    requires Uniform(d) && |f| > MAX_DIRECT_BIN && f[3] == 0 && f[5] == 0 && f[7] == 0
    ensures LowSlots(d, f, Rebuilt(d, f, 1))
    ensures forall w: nat | 8 < w < SLOTS :: Rebuilt(d, f, 1)[w] == f[Class(w)]
  {
    LowFirst(d, f, 8);
    LowPasses(d, f);
    var e := Low(d, f, 8);
    assert HighUniform(e) by {
      forall w: nat | 8 < w < SLOTS ensures e[w] == e[Top(w)] {
        Brackets(w);
      }
    }
    forall w: nat | w < SLOTS ensures Rebuilt(d, f, 1)[w] == if w > 8 then f[Class(w)] else e[w] {
      LowBins(w);
      if w > 8 {
        Brackets(w);
      }
      RebuildHigh(e, f, 9, w);
    }
  }

  /** The rebuild after an adoption, over every index up to the last direct class, leaves the table
      coherent exactly under that condition. */
  lemma RebuildCoherentWhen(d: seq<nat>, f: seq<nat>)
    requires Uniform(d) && |f| > MAX_DIRECT_BIN && f[3] == 0 && f[5] == 0 && f[7] == 0
    ensures Coherent(Rebuilt(d, f, 1), f) <==> RebuildSafe(d, f)
  {
    RebuiltSlots(d, f);
    LowBins(0);
    var r := Rebuilt(d, f, 1);
    if Coherent(r, f) {
      assert r[2] == f[Class(2)] && r[3] == f[Class(3)] && r[4] == f[Class(4)];
      assert r[5] == f[Class(5)] && r[6] == f[Class(6)] && r[7] == f[Class(7)];
    }
    if RebuildSafe(d, f) {
      forall w: nat | w < SLOTS ensures r[w] == f[Class(w)] {
        LowBins(w);
      }
    }
  }

  /** The same condition before the adoption, over the fronts alone: of each such pair of classes the
      larger had no page or the smaller has none after; and the larger has a new front or no page. */
  predicate FrontsSafe(f0: seq<nat>, f: seq<nat>)
    requires |f0| > MAX_DIRECT_BIN && |f| > MAX_DIRECT_BIN
  {
    && (f0[4] == 0 || f[2] == 0) && (f0[4] != f[4] || f[4] == 0)
    && (f0[6] == 0 || f[4] == 0) && (f0[6] != f[6] || f[6] == 0)
    && (f0[8] == 0 || f[6] == 0) && (f0[8] != f[8] || f[8] == 0)
  }

  /** From a coherent table, an adoption that turns the fronts `f0` into `f` leaves a coherent one
      exactly under that condition. */
  lemma AdoptionCoherentWhen(d: seq<nat>, f0: seq<nat>, f: seq<nat>)
    requires Coherent(d, f0) && |f| > MAX_DIRECT_BIN && f[3] == 0 && f[5] == 0 && f[7] == 0
    ensures Coherent(Rebuilt(d, f, 1), f) <==> FrontsSafe(f0, f)
  {
    CoherentUniform(d, f0);
    RebuildCoherentWhen(d, f);
    LowBins(0);
    assert d[4] == f0[Class(4)] && d[6] == f0[Class(6)] && d[8] == f0[Class(8)];
  }

  /** One way it goes wrong for good: class 4 gets its first page while class 6 has one cached.
      Slot 3 then names the page, slot 4 the sentinel; and when the page later leaves the queue,
      the refresh sees the sentinel on top and keeps the stale page in slot 3. */
  lemma StaleSlot(d: seq<nat>, f: seq<nat>, g: seq<nat>)
    requires Uniform(d) && |f| == |g| > MAX_DIRECT_BIN && f[3] == 0 && f[5] == 0 && f[7] == 0
    requires d[4] == 0 && f[4] != 0 && d[6] != 0 && g == f[4 := 0]
    ensures var r := Rebuilt(d, f, 1); r[3] == f[4] && r[4] == 0 && Refreshed(r, 4, g[4])[3] == f[4] != g[4]
  {
    RebuiltSlots(d, f);
  }

  // ----------------------------------------------- the rebuild over real classes

  /** The same loop, passing over the indices that are no class. */
  function RebuiltReal(d: seq<nat>, f: seq<nat>, b: nat): (r: seq<nat>)
    requires |d| == SLOTS && |f| > MAX_DIRECT_BIN
    ensures |r| == SLOTS
    decreases MAX_DIRECT_BIN + 1 - b
  {
    if b > MAX_DIRECT_BIN then d
    else RebuiltReal(if IsClass(b) then Refreshed(d, b, f[b]) else d, f, b + 1)
  }

  lemma {:induction false} RealSlots(d: seq<nat>, f: seq<nat>, b: nat, w: nat)
    requires Uniform(d) && 1 <= b <= MAX_DIRECT_BIN + 1 && |f| > MAX_DIRECT_BIN && w < SLOTS
    ensures RebuiltReal(d, f, b)[w] == if b <= Class(w) then f[Class(w)] else d[w]
    decreases MAX_DIRECT_BIN + 1 - b
  {
    if b <= MAX_DIRECT_BIN {
      if IsClass(b) {
        RefreshUniform(d, b, f[b]);
        RefreshServes(d, b, f[b], w);
        RealSlots(Refreshed(d, b, f[b]), f, b + 1, w);
      } else {
        RealSlots(d, f, b + 1, w);
      }
    }
  }

  /** Restricted to the classes that exist, the rebuild is right whatever the fronts became. */
  lemma RebuildRealCoherent(d: seq<nat>, f: seq<nat>)
    requires Uniform(d) && |f| > MAX_DIRECT_BIN
    ensures Coherent(RebuiltReal(d, f, 1), f)
  {
    forall w: nat | w < SLOTS ensures RebuiltReal(d, f, 1)[w] == f[Class(w)] {
      RealSlots(d, f, 1, w);
    }
  }
}
