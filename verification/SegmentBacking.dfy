/** Which slices of a segment have memory behind them, and how its flags record that. */
module SegmentBacking {
  import opened Common
  import opened SegmentLayout
  import opened SegmentSpans

  /** Below `commitEnd` everything is backed, except slices of free spans whose start says `purged`. */
  ghost predicate BackOk(g: Slots, next: nat, commitEnd: nat, purgedAny: bool, backed: set<int>) {
    && |g| == SLICES && HEADER <= next <= commitEnd <= SLICES
    && (forall i | 0 <= i < HEADER || next <= i < commitEnd :: i in backed)
    && (forall i | HEADER <= i < next && i !in backed :: purgedAny && Excused(g, next, i))
  }

  /** Slice `i` lies in a free span that is flagged purged. */
  ghost predicate Excused(g: Slots, next: nat, i: nat)
    requires next <= |g| && i < |g|
  {
    IsFree(g, next, Owner(g, i)) && g[Owner(g, i)].purged
  }

  /** Committing past the frontier. */
  lemma FrontierBack(g: Slots, next: nat, have: nat, end: nat, purgedAny: bool, backed: set<int>)
    requires BackOk(g, next, have, purgedAny, backed) && have <= end <= SLICES
    ensures BackOk(g, next, end, purgedAny, backed + Range(have, end))
  {
    forall i | HEADER <= i < next && i !in backed + Range(have, end) ensures purgedAny && Excused(g, next, i) {
      assert i !in backed;
    }
  }

  /** A live span is backed in full. */
  lemma LiveIsBacked(g: Slots, next: nat, commitEnd: nat, purgedAny: bool, backed: set<int>, o: nat)
    requires BackOk(g, next, commitEnd, purgedAny, backed) && Tiled(g, HEADER, next) && IsLive(g, next, o)
    ensures SpanSlices(g, o) <= backed
  {
    NextStarts(g, next, o);
    forall j | o <= j < End(g, o) ensures j in backed {
      assert Owner(g, j) == o;
    }
  }

  /** So is a free span that is not flagged. */
  lemma UnflaggedIsBacked(g: Slots, next: nat, commitEnd: nat, purgedAny: bool, backed: set<int>, o: nat)
    requires BackOk(g, next, commitEnd, purgedAny, backed) && Tiled(g, HEADER, next)
    requires IsFree(g, next, o) && !g[o].purged
    ensures SpanSlices(g, o) <= backed
  {
    NextStarts(g, next, o);
    forall j | o <= j < End(g, o) ensures j in backed {
      assert Owner(g, j) == o;
    }
  }

  lemma RecommitBack(g: Slots, next: nat, commitEnd: nat, purgedAny: bool, backed: set<int>, o: nat)
    requires BackOk(g, next, commitEnd, purgedAny, backed) && Tiled(g, HEADER, next) && IsFree(g, next, o)
    ensures BackOk(g[o := g[o].(purged := false)], next, commitEnd, purgedAny, backed + SpanSlices(g, o))
  {
    var h, more := g[o := g[o].(purged := false)], backed + SpanSlices(g, o);
    forall i | HEADER <= i < next && i !in more ensures purgedAny && Excused(h, next, i) {
      assert Excused(g, next, i);
      assert Owner(g, i) <= i < End(g, Owner(g, i));
    }
  }

  lemma PurgeBack(g: Slots, next: nat, commitEnd: nat, purgedAny: bool, backed: set<int>, less: set<int>, o: nat)
    requires BackOk(g, next, commitEnd, purgedAny, backed) && Tiled(g, HEADER, next) && IsFree(g, next, o)
    requires backed - SpanSlices(g, o) <= less
    ensures BackOk(g[o := g[o].(purged := true)], next, commitEnd, true, less)
  {
    NextStarts(g, next, o);
    var h := g[o := g[o].(purged := true)];
    forall i | HEADER <= i < next && i !in less ensures Excused(h, next, i) {
      if i in backed {
        assert o <= i < End(g, o);
        assert Owner(g, i) == o;
      } else {
        assert Excused(g, next, i);
      }
    }
  }

  /** Changing stamps, or raising flags, keeps the record true. */
  lemma RaiseBack(g: Slots, h: Slots, next: nat, commitEnd: nat, purgedAny: bool, backed: set<int>)
    requires BackOk(g, next, commitEnd, purgedAny, backed) && SameSpans(g, h)
    requires forall i | 0 <= i < |g| :: g[i].purged ==> h[i].purged
    ensures BackOk(h, next, commitEnd, purgedAny, backed)
  {
    forall i | HEADER <= i < next && i !in backed ensures purgedAny && Excused(h, next, i) {
      assert Excused(g, next, i);
    }
  }

  /** Handing out the front of a backed free span. */
  lemma TakeBack(g: Slots, h: Slots, next: nat, a: nat, m: nat, b: nat, bs: nat,
                 commitEnd: nat, purgedAny: bool, backed: set<int>)
    requires BackOk(g, next, commitEnd, purgedAny, backed) && Tiled(g, HEADER, next)
    requires Recut(g, h, a, m, b) && Sizes(g, h, a, bs, m, b) && bs > 0
    requires IsFree(g, next, a) && End(g, a) == b && !g[a].purged
    requires forall i | 0 <= i < SLICES :: h[i].purged == g[i].purged
    ensures BackOk(h, next, commitEnd, purgedAny, backed)
    ensures Range(a, m) <= backed
  {
    UnflaggedIsBacked(g, next, commitEnd, purgedAny, backed, a);
    NextStarts(g, next, a);
    forall i | HEADER <= i < next && i !in backed ensures purgedAny && Excused(h, next, i) {
      assert Excused(g, next, i);
      assert i < a || b <= i;
      RecutStarts(g, h, a, m, b, i);
      TakeKinds(g, h, next, a, m, b, bs, Owner(g, i));
      assert Owner(g, i) <= i < End(g, Owner(g, i));
    }
  }

  lemma GrownBack(l: Layout, r: Layout, n: nat, bs: nat, commitEnd: nat, purgedAny: bool, backed: set<int>)
    requires BackOk(l.g, l.next, commitEnd, purgedAny, backed) && Grown(l, r, n, bs) && bs > 0
    requires Tiled(l.g, HEADER, l.next) && r.next <= commitEnd
    ensures BackOk(r.g, r.next, commitEnd, purgedAny, backed)
    ensures Range(l.next, r.next) <= backed
  {
    forall i | HEADER <= i < r.next && i !in backed ensures purgedAny && Excused(r.g, r.next, i) {
      assert Excused(l.g, l.next, i);
      GrownKinds(l, r, n, bs, Owner(l.g, i));
      assert Owner(l.g, i) <= i;
    }
  }

  /** After a merge, the start must carry the flag if any part's start did. */
  lemma MergeBack(l: Layout, r: Layout, idx: nat, a: nat, b: nat, flag: bool,
                  commitEnd: nat, purgedAny: bool, backed: set<int>)
    requires BackOk(l.g, l.next, commitEnd, purgedAny, backed) && Sized(l) && Tiled(l.g, HEADER, l.next)
    requires Sized(r) && HEADER <= a && MergeOf(l.g, l.next, a, b, idx) && Merged(l, r, idx, a, b)
    requires forall i | a <= i < b && IsFree(l.g, l.next, i) && l.g[i].purged :: flag
    ensures BackOk(r.g[a := r.g[a].(purged := flag)], r.next, commitEnd, purgedAny, backed)
  {
    var h := r.g[a := r.g[a].(purged := flag)];
    TiledCut(l.g, HEADER, a, l.next);
    TiledCut(l.g, a, b, l.next);
    forall i | HEADER <= i < r.next && i !in backed ensures purgedAny && Excused(h, r.next, i) {
      assert Excused(l.g, l.next, i);
      RecutStarts(l.g, r.g, a, b, b, i);
      var o := Owner(l.g, i);
      assert o <= i < End(l.g, o);
      if a <= i < b {
        assert a <= o && SpanAt(l.g, o, b);
      } else {
        MergeKinds(l.g, r.g, l.next, a, b, idx, o);
        assert i < a ==> SpanAt(l.g, o, a);
      }
    }
  }

  // --------------------------------------------------------------- contents

  /** `n` bytes from `a` read as zero. */
  ghost predicate ZeroAt(bytes: int -> int, a: int, n: int) {
    forall x | a <= x < a + n :: bytes(x) == 0
  }

  /** On memory that came zero, a slice that was never handed out still is. */
  ghost predicate BytesOk(zero: bool, handed: set<int>, bytes: int -> int) {
    zero ==> forall i | HEADER <= i < SLICES && i !in handed :: ZeroAt(bytes, i * SLICE_SIZE, SLICE_SIZE)
  }

  /** From `b0` to `b1` only bytes of the slices `part` changed. */
  ghost predicate OnlyIn(b0: int -> int, b1: int -> int, part: set<int>) {
    forall x :: b1(x) != b0(x) ==> x / SLICE_SIZE in part
  }

  lemma BytesKept(zero: bool, handed: set<int>, b0: int -> int, b1: int -> int, part: set<int>)
    requires BytesOk(zero, handed, b0) && OnlyIn(b0, b1, part) && part <= handed
    ensures BytesOk(zero, handed, b1)
  {
    forall i, x | HEADER <= i < SLICES && i !in handed && i * SLICE_SIZE <= x < i * SLICE_SIZE + SLICE_SIZE
      ensures b1(x) == b0(x)
    {
      assert x / SLICE_SIZE == i;
    }
  }

  lemma BytesMore(zero: bool, next: nat, n: nat, bytes: int -> int)
    requires BytesOk(zero, Range(HEADER, next), bytes) && HEADER <= next
    ensures Range(HEADER, next) + Range(next, next + n) == Range(HEADER, next + n)
    ensures BytesOk(zero, Range(HEADER, next + n), bytes)
  {
  }

  lemma HandedStays(g: Slots, next: nat, s: nat, n: nat)
    requires next <= |g| && Range(s, s + n) <= FreeSlices(g, next)
    ensures Range(HEADER, next) + Range(s, s + n) == Range(HEADER, next)
  {
  }

  /** A run of such slices. */
  lemma ZeroRun(handed: set<int>, bytes: int -> int, s: nat, n: nat)
    requires BytesOk(true, handed, bytes) && HEADER <= s && s + n <= SLICES && Range(s, s + n) !! handed
    ensures ZeroAt(bytes, s * SLICE_SIZE, n * SLICE_SIZE)
  {
    forall x | s * SLICE_SIZE <= x < (s + n) * SLICE_SIZE ensures bytes(x) == 0 {
      var i := x / SLICE_SIZE;
      assert i in Range(s, s + n);
      assert ZeroAt(bytes, i * SLICE_SIZE, SLICE_SIZE);
    }
  }

  // ------------------------------------------- what a whole operation leaves

  /** The table and its backing record, together. */
  ghost predicate TableOk(l: Layout, fl: seq<nat>, commitEnd: nat, purgedAny: bool, backed: set<int>) {
    LayoutOk(l, fl) && BackOk(l.g, l.next, commitEnd, purgedAny, backed)
  }

  /** Every span live before, but `gone`, is there as it was. */
  ghost predicate Kept(l: Layout, r: Layout, gone: int)
    requires Sized(l) && Sized(r)
  {
    forall o | o in LiveSet(l.g, l.next) && o != gone ::
      && o in LiveSet(r.g, r.next)
      && r.g[o].blockSize == l.g[o].blockSize && r.g[o].sliceCount == l.g[o].sliceCount
  }

  /** Slots at or above the cursor keep their size, extent and flag. */
  ghost predicate SameAbove(l: Layout, r: Layout)
    requires Sized(l) && Sized(r)
  {
    forall i | r.next <= i < SLICES ::
      && r.g[i].blockSize == l.g[i].blockSize && r.g[i].purged == l.g[i].purged
      && r.g[i].sliceCount == l.g[i].sliceCount && r.g[i].sliceOffset == l.g[i].sliceOffset
  }

  /** `r` is `l` with the span `s..s+n` handed out. */
  ghost predicate HandsOut(l: Layout, r: Layout, s: nat, n: nat, bs: nat, backed: set<int>)
    requires Sized(l) && Sized(r)
  {
    && HEADER <= s < r.next && r.g[s].sliceCount == n && r.g[s].blockSize == bs
    && s !in LiveSet(l.g, l.next) && LiveSet(r.g, r.next) == LiveSet(l.g, l.next) + {s}
    && FreeSlices(r.g, r.next) == FreeSlices(l.g, l.next) - Range(s, s + n)
    && Range(s, s + n) <= backed
    && Kept(l, r, 0)
    && SameAbove(l, r)
  }

  /** Of that, what a caller counting live spans needs. */
  lemma HandsOutAbove(l: Layout, r: Layout, s: nat, n: nat, bs: nat, backed: set<int>)
    requires Sized(l) && Sized(r) && HandsOut(l, r, s, n, bs, backed)
    ensures SameAbove(l, r) && |LiveSet(r.g, r.next)| == |LiveSet(l.g, l.next)| + 1
  {
  }

  lemma TakeKept(l: Layout, r: Layout, s: nat, m: nat, b: nat, bs: nat)
    requires Sized(l) && Sized(r) && r.next == l.next && Tiled(l.g, HEADER, l.next) && IsFree(l.g, l.next, s)
    requires Recut(l.g, r.g, s, m, b) && Sizes(l.g, r.g, s, bs, m, b) && bs > 0 && End(l.g, s) == b <= l.next
    requires forall i | 0 <= i < SLICES :: r.g[i].purged == l.g[i].purged
    ensures Kept(l, r, 0) && SameAbove(l, r) && s !in LiveSet(l.g, l.next)
  {
    NextStarts(l.g, l.next, s);
    forall o | o in LiveSet(l.g, l.next)
      ensures o in LiveSet(r.g, r.next) && r.g[o].blockSize == l.g[o].blockSize && r.g[o].sliceCount == l.g[o].sliceCount
    {
      TakeKinds(l.g, r.g, l.next, s, m, b, bs, o);
    }
  }

  lemma TakeHandsOut(l: Layout, fl: seq<nat>, s: nat, n: nat, bs: nat, commitEnd: nat, purgedAny: bool, backed: set<int>)
    requires TableOk(l, fl, commitEnd, purgedAny, backed)
    requires s in fl && 1 <= n <= l.g[s].sliceCount && bs > 0 && !l.g[s].purged
    ensures CanTake(l, s, n)
    ensures var r := TakeFront(l, s, n, bs);
            && TableOk(r, TakenList(fl, s, s + n, End(l.g, s)), commitEnd, purgedAny, backed)
            && r.next == l.next && HandsOut(l, r, s, n, bs, backed)
            && Range(s, s + n) <= FreeSlices(l.g, l.next)
  {
    hide Tiled, OffsAgree, Linked, Coalesced, Sizes, TakeFront;
    TakeFrontOk(l, fl, s, n, bs);
    TakeBounds(l, fl, s);
    var r, b := TakeFront(l, s, n, bs), End(l.g, s);
    TakeBack(l.g, r.g, l.next, s, s + n, b, bs, commitEnd, purgedAny, backed);
    TakeKept(l, r, s, s + n, b, bs);
  }

  lemma GrownKept(l: Layout, r: Layout, n: nat, bs: nat, backed: set<int>)
    requires Grown(l, r, n, bs) && bs > 0 && Tiled(l.g, HEADER, l.next) && Range(l.next, r.next) <= backed
    ensures HandsOut(l, r, l.next, n, bs, backed)
  {
    GrownSlices(l, r, n, bs);
    assert FreeSlices(l.g, l.next) - Range(l.next, r.next) == FreeSlices(l.g, l.next);
  }

  lemma GrownTableOk(l: Layout, fl: seq<nat>, r: Layout, n: nat, bs: nat, commitEnd: nat, purgedAny: bool, backed: set<int>)
    requires TableOk(l, fl, commitEnd, purgedAny, backed) && Grown(l, r, n, bs)
    requires r.next <= commitEnd && bs > 0
    ensures TableOk(r, fl, commitEnd, purgedAny, backed) && HandsOut(l, r, l.next, n, bs, backed)
  {
    assert LayoutOk(r, fl) by {
      GrownOk(l, r, fl, n, bs);
    }
    GrownBack(l, r, n, bs, commitEnd, purgedAny, backed);
    GrownKept(l, r, n, bs, backed);
  }

  /** Clearing the flag of a free span first makes no difference to what is handed out. */
  lemma HandsOutUnflagged(l: Layout, r: Layout, s: nat, n: nat, bs: nat, backed: set<int>)
    requires Sized(l) && Sized(r) && s < l.next <= r.next
    requires HandsOut(l.(g := l.g[s := l.g[s].(purged := false)]), r, s, n, bs, backed)
    ensures HandsOut(l, r, s, n, bs, backed)
  {
    var h := l.g[s := l.g[s].(purged := false)];
    forall i: int ensures IsLive(h, l.next, i) == IsLive(l.g, l.next, i) && IsFree(h, l.next, i) == IsFree(l.g, l.next, i) {
    }
    forall j ensures j in FreeSlices(h, l.next) <==> j in FreeSlices(l.g, l.next) {
      if HEADER <= j < l.next {
        assert Owner(h, j) == Owner(l.g, j);
      }
    }
    assert FreeSlices(h, l.next) == FreeSlices(l.g, l.next);
    assert LiveSet(h, l.next) == LiveSet(l.g, l.next);
  }

  /** Freeing one span leaves every other live span as it was. */
  lemma MergedKept(l: Layout, r: Layout, idx: nat, a: nat, b: nat)
    requires Sized(l) && Sized(r) && HEADER <= a < SLICES && idx < SLICES && Tiled(l.g, HEADER, l.next)
    requires MergeOf(l.g, l.next, a, b, idx) && Merged(l, r, idx, a, b)
    ensures Kept(l, r, idx) && SameAbove(l, r)
  {
    forall o | o in LiveSet(l.g, l.next) && o != idx
      ensures o in LiveSet(r.g, r.next) && r.g[o].blockSize == l.g[o].blockSize && r.g[o].sliceCount == l.g[o].sliceCount
    {
      MergeKinds(l.g, r.g, l.next, a, b, idx, o);
      assert !(a <= o < b);
    }
  }

  // ----------------------------------------------------------------- purging

  /** From `g`, `b0` to `h`, `b1` flags went up and memory went away, but only together, and only
      in free spans. */
  ghost predicate OnlyPurged(g: Slots, b0: set<int>, h: Slots, b1: set<int>, next: nat) {
    && next <= |g| && SameSpans(g, h) && b1 <= b0
    && (forall i | i in b0 && i !in b1 :: HEADER <= i < next && Excused(h, next, i))
    && (forall i | 0 <= i < |g| && g[i].purged :: h[i].purged)
  }

  lemma PurgedOnce(g: Slots, b0: set<int>, h: Slots, b1: set<int>, next: nat, s: nat, b2: set<int>)
    requires OnlyPurged(g, b0, h, b1, next) && Tiled(h, HEADER, next) && IsFree(h, next, s)
    requires b1 - SpanSlices(h, s) <= b2 <= b1
    ensures OnlyPurged(g, b0, h[s := h[s].(purged := true)], b2, next)
  {
    NextStarts(h, next, s);
    var k := h[s := h[s].(purged := true)];
    forall i | i in b0 && i !in b2 ensures HEADER <= i < next && Excused(k, next, i) {
      if i in b1 {
        assert s <= i < End(h, s);
        assert Owner(h, i) == s;
      } else {
        assert Excused(h, next, i);
      }
    }
  }

  /** Of the list `fl`, the first `k` spans have been offered: those that `want` says are flagged now. */
  ghost predicate Offered(g: Slots, h: Slots, fl: seq<nat>, k: nat, want: nat -> bool)
    requires forall j | 0 <= j < |fl| :: fl[j] < |g| && fl[j] < |h|
  {
    forall j | 0 <= j < |fl| :: h[fl[j]].purged == (g[fl[j]].purged || (j < k && want(fl[j])))
  }

  lemma OfferedOne(g: Slots, head: nat, h: Slots, r: Slots, fl: seq<nat>, k: nat, want: nat -> bool)
    requires Linked(h, head, fl) && |h| == |g| && k < |fl| && Offered(g, h, fl, k, want)
    requires r == if !h[fl[k]].purged && want(fl[k]) then h[fl[k] := h[fl[k]].(purged := true)] else h
    ensures Offered(g, r, fl, k + 1, want)
  {
  }
}
