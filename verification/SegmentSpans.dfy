/** Carving, splitting, freeing and merging spans keep the slot table well formed. */
module SegmentSpans {
  import opened Common
  import opened SegmentLayout

  /** The back part of a split: marked free, stamped like the span it came from. */
  function Remainder(l: Layout, m: nat, len: nat, stamp: nat): Layout
    requires Sized(l) && 1 <= len && m + len <= SLICES && l.head < SLICES
  {
    var r := MarkFree(l, m, len);
    r.(g := r.g[m := r.g[m].(capacity := stamp)])
  }

  /** The front part: marked, with the block size its caller stores. */
  function HandedOut(l: Layout, s: nat, slices: nat, bs: nat): Layout
    requires Sized(l) && 1 <= slices && s + slices <= SLICES
  {
    var g := Mark(l.g, s, slices);
    l.(g := g[s := g[s].(blockSize := bs)], off := MarkOff(l.off, s, slices))
  }

  function Front(l: Layout, s: nat, len: nat, slices: nat, stamp: nat, bs: nat): Layout
    requires Sized(l) && HEADER <= s && 1 <= slices <= len && s + len <= SLICES && l.head < SLICES
  {
    HandedOut(if len > slices then Remainder(l, s + slices, len - slices, stamp) else l, s, slices, bs)
  }

  /** First fit: unlink the span, give back its tail, hand out its front. */
  function TakeFront(l: Layout, s: nat, slices: nat, bs: nat): Layout
    requires Sized(l) && HEADER <= s < SLICES && l.g[s].prev < SLICES && l.g[s].next < SLICES && l.head < SLICES
    requires 1 <= slices <= l.g[s].sliceCount && End(l.g, s) <= SLICES
  {
    Front(Unlink(l, s), s, l.g[s].sliceCount, slices, l.g[s].capacity, bs)
  }

  /** Block sizes after a recut that gives `a` the size `bs`. */
  ghost predicate Sizes(g: Slots, h: Slots, a: nat, bs: nat, m: nat, b: nat) {
    |g| == |h| &&
    forall i | 0 <= i < |g| ::
      h[i].blockSize == if i == a then bs else if i == m && m < b then 0 else g[i].blockSize
  }

  /** The owner table after a recut. */
  ghost predicate Offs(off: seq<nat>, p: seq<nat>, a: nat, m: nat, b: nat) {
    |off| == |p| &&
    forall i | 0 <= i < |off| ::
      p[i] == if a <= i < m then PageOffFor(a) else if m <= i < b then PageOffFor(m) else off[i]
  }

  lemma RecutOffs(g: Slots, h: Slots, off: seq<nat>, p: seq<nat>, next: nat, a: nat, m: nat, b: nat)
    requires Recut(g, h, a, m, b) && Offs(off, p, a, m, b) && next <= |g| && next <= |off|
    requires OffsAgree(g, off, next)
    ensures OffsAgree(h, p, next)
  {
    forall i | HEADER <= i < next
      ensures p[i] == PageOffFor(if Owner(h, i) < 0 then 0 else Owner(h, i))
    {
      RecutStarts(g, h, a, m, b, i);
    }
  }

  // ------------------------------------------------ free and live after a take

  /** What taking the front of the free span `a..b` does to the two kinds of span. */
  lemma TakeKinds(g: Slots, h: Slots, next: nat, a: nat, m: nat, b: nat, bs: nat, i: int)
    requires Recut(g, h, a, m, b) && Sizes(g, h, a, bs, m, b) && bs > 0 && next <= |g|
    requires Tiled(g, HEADER, next) && IsFree(g, next, a) && End(g, a) == b
    ensures IsFree(h, next, i) <==> (IsFree(g, next, i) && i != a) || (i == m && m < b)
    ensures IsLive(h, next, i) <==> IsLive(g, next, i) || i == a
  {
    assert Owner(g, a) == a && SpanAt(g, a, next);
    if HEADER <= i < next {
      RecutStarts(g, h, a, m, b, i);
    }
  }

  lemma TakeCoalesced(g: Slots, h: Slots, next: nat, a: nat, m: nat, b: nat, bs: nat)
    requires Recut(g, h, a, m, b) && Sizes(g, h, a, bs, m, b) && bs > 0 && next <= |g|
    requires Tiled(g, HEADER, next) && Coalesced(g, next) && IsFree(g, next, a) && End(g, a) == b
    ensures Coalesced(h, next)
  {
    assert Owner(g, a) == a && SpanAt(g, a, next);
    forall i | IsFree(h, next, i) && End(h, i) < next ensures h[End(h, i)].blockSize != 0 {
      TakeKinds(g, h, next, a, m, b, bs, i);
      if i != m || m == b {
        RecutStarts(g, h, a, m, b, i);
        NextStarts(g, next, i);
      }
    }
  }

  lemma TakeSlices(g: Slots, h: Slots, next: nat, a: nat, m: nat, b: nat, bs: nat)
    requires Recut(g, h, a, m, b) && Sizes(g, h, a, bs, m, b) && bs > 0 && next <= |g|
    requires Tiled(g, HEADER, next) && IsFree(g, next, a) && End(g, a) == b
    ensures FreeSlices(h, next) == FreeSlices(g, next) - Range(a, m)
    ensures Range(a, m) <= FreeSlices(g, next)
    ensures LiveSet(h, next) == LiveSet(g, next) + {a}
  {
    assert Owner(g, a) == a && SpanAt(g, a, next);
    forall j | HEADER <= j < next
      ensures j in FreeSlices(h, next) <==> j in FreeSlices(g, next) && !(a <= j < m)
      ensures a <= j < m ==> j in FreeSlices(g, next)
    {
      RecutStarts(g, h, a, m, b, j);
      assert SpanAt(g, Owner(g, j), next);
      TakeKinds(g, h, next, a, m, b, bs, Owner(h, j));
    }
    forall i ensures i in LiveSet(h, next) <==> i in LiveSet(g, next) + {a} {
      TakeKinds(g, h, next, a, m, b, bs, i);
    }
  }

  // ------------------------------------------------ free and live after a free

  /** Block sizes after `idx` was scrubbed and the merged span at `a` marked free. */
  ghost predicate MergeSizes(g: Slots, h: Slots, a: nat, idx: nat) {
    |g| == |h| &&
    forall i | 0 <= i < |g| :: h[i].blockSize == if i == a || i == idx then 0 else g[i].blockSize
  }

  /** `a..b` is made of the span `idx` and free spans. */
  ghost predicate MergeOf(g: Slots, next: nat, a: nat, b: nat, idx: nat)
    requires next <= |g|
  {
    && a <= idx < b <= next && g[a].sliceOffset == 0 && (b == next || g[b].sliceOffset == 0)
    && IsLive(g, next, idx)
    && (forall i | a <= i < b && g[i].sliceOffset == 0 :: i == idx || IsFree(g, next, i))
    && (b < next ==> g[b].blockSize != 0)
    && (a == idx ==> forall i | IsFree(g, next, i) :: End(g, i) != a)
  }

  lemma MergeKinds(g: Slots, h: Slots, next: nat, a: nat, b: nat, idx: nat, i: int)
    requires Recut(g, h, a, b, b) && MergeSizes(g, h, a, idx) && next <= |g| && HEADER <= a && MergeOf(g, next, a, b, idx)
    ensures IsFree(h, next, i) <==> (IsFree(g, next, i) && !(a <= i < b)) || i == a
    ensures IsLive(h, next, i) <==> IsLive(g, next, i) && i != idx
  {
    if HEADER <= i < next {
      RecutStarts(g, h, a, b, b, i);
    }
  }

  lemma MergeCoalesced(g: Slots, h: Slots, next: nat, a: nat, b: nat, idx: nat)
    requires Recut(g, h, a, b, b) && MergeSizes(g, h, a, idx) && next <= |g| && HEADER <= a && MergeOf(g, next, a, b, idx)
    requires Tiled(g, HEADER, next) && Coalesced(g, next)
    ensures Coalesced(h, next)
  {
    forall i | IsFree(h, next, i) && End(h, i) < next ensures h[End(h, i)].blockSize != 0 {
      MergeKinds(g, h, next, a, b, idx, i);
      if i != a {
        RecutStarts(g, h, a, b, b, i);
        NextStarts(g, next, i);
        assert End(g, i) != a;
      }
    }
  }

  lemma MergeSlices(g: Slots, h: Slots, next: nat, a: nat, b: nat, idx: nat)
    requires Recut(g, h, a, b, b) && MergeSizes(g, h, a, idx) && next <= |g| && HEADER <= a && MergeOf(g, next, a, b, idx)
    requires Tiled(g, HEADER, next)
    ensures FreeSlices(h, next) == FreeSlices(g, next) + SpanSlices(g, idx)
    ensures LiveSet(h, next) == LiveSet(g, next) - {idx}
  {
    TiledCut(g, HEADER, a, next);
    TiledCut(g, a, b, next);
    assert Owner(g, idx) == idx && SpanAt(g, idx, b);
    forall j | HEADER <= j < next
      ensures j in FreeSlices(h, next) <==> j in FreeSlices(g, next) || j in SpanSlices(g, idx)
    {
      RecutStarts(g, h, a, b, b, j);
      assert SpanAt(g, Owner(g, j), next) && j < End(g, Owner(g, j));
      if a <= j < b {
        assert a <= Owner(g, j) && SpanAt(g, Owner(g, j), b);
      }
      MergeKinds(g, h, next, a, b, idx, Owner(h, j));
      MergeKinds(g, h, next, a, b, idx, Owner(g, j));
    }
    forall i ensures i in LiveSet(h, next) <==> i in LiveSet(g, next) - {idx} {
      MergeKinds(g, h, next, a, b, idx, i);
    }
  }

  // ------------------------------------------------------------ whole moves

  /** Slots that differ only in what the layout does not depend on. */
  ghost predicate SameSpans(g: Slots, h: Slots) {
    |g| == |h| &&
    forall i | 0 <= i < |g| :: h[i] == g[i].(purged := h[i].purged, capacity := h[i].capacity)
  }

  lemma SameLinked(g: Slots, h: Slots, head: nat, fl: seq<nat>)
    requires |g| == |h| && Linked(g, head, fl)
    requires forall k | 0 <= k < |fl| :: h[fl[k]].prev == g[fl[k]].prev && h[fl[k]].next == g[fl[k]].next
    ensures Linked(h, head, fl)
  {
    forall k | 0 <= k < |fl| ensures LinkAt(h, fl, k) {
      assert LinkAt(g, fl, k);
    }
  }

  /** Flags and stamps are no part of the layout. */
  lemma FlagsOk(l: Layout, h: Slots, fl: seq<nat>)
    requires LayoutOk(l, fl) && SameSpans(l.g, h)
    ensures LayoutOk(l.(g := h), fl)
    ensures LiveSet(h, l.next) == LiveSet(l.g, l.next) && FreeSlices(h, l.next) == FreeSlices(l.g, l.next)
  {
    var g, next := l.g, l.next;
    SameTiled(g, h, HEADER, next);
    SameLinked(g, h, l.head, fl);
    forall i | HEADER <= i < next ensures Owner(h, i) == Owner(g, i) && End(h, i) == End(g, i) {
    }
    forall i ensures IsFree(h, next, i) == IsFree(g, next, i) && IsLive(h, next, i) == IsLive(g, next, i) {
    }
    forall i | IsFree(h, next, i) && End(h, i) < next ensures h[End(h, i)].blockSize != 0 {
      assert IsFree(g, next, i);
    }
    forall j ensures j in FreeSlices(h, next) <==> j in FreeSlices(g, next) {
    }
  }

  lemma DropHas(g: Slots, head: nat, fl: seq<nat>, x: nat, y: nat)
    requires Linked(g, head, fl) && x in fl
    ensures y in Drop(fl, x) <==> y in fl && y != x
  {
    WithoutHas(fl, IndexOf(fl, x), y);
  }

  /** The free list after taking the front of its span `s`. */
  function TakenList(fl: seq<nat>, s: nat, m: nat, b: nat): seq<nat>
    requires s in fl
  {
    (if m < b then [m] else []) + Drop(fl, s)
  }

  lemma TakeBounds(l: Layout, fl: seq<nat>, s: nat)
    requires LayoutOk(l, fl) && s in fl
    ensures HEADER <= s < l.next && IsFree(l.g, l.next, s) && SpanAt(l.g, s, l.next)
    ensures l.g[s].prev < SLICES && l.g[s].next < SLICES && l.head < SLICES
  {
    NextStarts(l.g, l.next, s);
    UnlinkLinked(l, fl, IndexOf(fl, s));
  }

  ghost predicate CanTake(l: Layout, s: nat, slices: nat) {
    && Sized(l) && HEADER <= s < l.next && SpanAt(l.g, s, l.next) && 1 <= slices <= l.g[s].sliceCount
    && l.g[s].prev < SLICES && l.g[s].next < SLICES && l.head < SLICES
  }

  lemma RemainderSlot(l: Layout, m: nat, len: nat, stamp: nat, i: nat)
    requires Sized(l) && 1 <= len && m + len <= SLICES && l.head < SLICES && i < SLICES
    ensures var r, x := Remainder(l, m, len, stamp), l.g[i];
            && Sized(r) && r.next == l.next
            && r.g[i].sliceOffset == (if m <= i < m + len then i - m else x.sliceOffset)
            && r.g[i].sliceCount == (if i == m then len else x.sliceCount)
            && r.g[i].area == (if i == m then m * SLICE_SIZE else x.area)
            && r.g[i].blockSize == (if i == m then 0 else x.blockSize)
            && r.g[i].purged == x.purged
            && r.off[i] == (if m <= i < m + len then PageOffFor(m) else l.off[i])
  {
    MarkFreeShape(l, m, len);
  }

  lemma HandedOutSlot(l: Layout, s: nat, slices: nat, bs: nat, i: nat)
    requires Sized(l) && 1 <= slices && s + slices <= SLICES && i < SLICES
    ensures var r, x := HandedOut(l, s, slices, bs), l.g[i];
            && Sized(r) && r.next == l.next && r.head == l.head
            && r.g[i].sliceOffset == (if s <= i < s + slices then i - s else x.sliceOffset)
            && r.g[i].sliceCount == (if i == s then slices else x.sliceCount)
            && r.g[i].area == (if i == s then s * SLICE_SIZE else x.area)
            && r.g[i].blockSize == (if i == s then bs else x.blockSize)
            && r.g[i].purged == x.purged && r.g[i].prev == x.prev && r.g[i].next == x.next
            && r.off[i] == (if s <= i < s + slices then PageOffFor(s) else l.off[i])
  {
  }

  /** Slot `i` of a table `r` made from `l` by handing out `s..m` of the free span `s..b`. */
  ghost predicate FrontAt(l: Layout, r: Layout, s: nat, m: nat, b: nat, bs: nat, i: nat)
    requires Sized(l) && Sized(r) && i < SLICES
  {
    var x, y := l.g[i], r.g[i];
    && y.sliceOffset == (if s <= i < m then i - s else if m <= i < b then i - m else x.sliceOffset)
    && y.sliceCount == (if i == s then m - s else if i == m && m < b then b - m else x.sliceCount)
    && y.area == (if i == s then s * SLICE_SIZE else if i == m && m < b then m * SLICE_SIZE else x.area)
    && y.blockSize == (if i == s then bs else if i == m && m < b then 0 else x.blockSize)
    && y.purged == x.purged
    && r.off[i] == (if s <= i < m then PageOffFor(s) else if m <= i < b then PageOffFor(m) else l.off[i])
  }

  lemma FrontSlot(l: Layout, s: nat, len: nat, slices: nat, stamp: nat, bs: nat, i: nat)
    requires Sized(l) && HEADER <= s && 1 <= slices <= len && s + len <= SLICES && l.head < SLICES && i < SLICES
    ensures var r := Front(l, s, len, slices, stamp, bs);
            Sized(r) && r.next == l.next && FrontAt(l, r, s, s + slices, s + len, bs, i)
  {
    if len > slices {
      RemainderSlot(l, s + slices, len - slices, stamp, i);
      HandedOutSlot(Remainder(l, s + slices, len - slices, stamp), s, slices, bs, i);
    } else {
      HandedOutSlot(l, s, slices, bs, i);
    }
  }

  lemma RemainderLinked(l: Layout, fl: seq<nat>, m: nat, len: nat, stamp: nat)
    requires Sized(l) && Linked(l.g, l.head, fl) && 1 <= len && HEADER <= m && m + len <= SLICES && m !in fl
    ensures l.head < SLICES
    ensures var r := Remainder(l, m, len, stamp); Linked(r.g, r.head, [m] + fl)
  {
    MarkFreeLinked(l, fl, m, len);
    SameLinked(MarkFree(l, m, len).g, Remainder(l, m, len, stamp).g, m, [m] + fl);
  }

  lemma HandedOutLinked(l: Layout, fl: seq<nat>, s: nat, slices: nat, bs: nat)
    requires Sized(l) && Linked(l.g, l.head, fl) && 1 <= slices && s + slices <= SLICES
    ensures var r := HandedOut(l, s, slices, bs); Linked(r.g, r.head, fl)
  {
    SameLinked(l.g, HandedOut(l, s, slices, bs).g, l.head, fl);
  }

  lemma FrontLinked(l: Layout, fl: seq<nat>, s: nat, len: nat, slices: nat, stamp: nat, bs: nat)
    requires Sized(l) && HEADER <= s && 1 <= slices <= len && s + len <= SLICES && l.head < SLICES
    requires Linked(l.g, l.head, fl) && s + slices !in fl
    ensures var r := Front(l, s, len, slices, stamp, bs);
            Linked(r.g, r.head, if len > slices then [s + slices] + fl else fl)
  {
    if len > slices {
      RemainderLinked(l, fl, s + slices, len - slices, stamp);
      HandedOutLinked(Remainder(l, s + slices, len - slices, stamp), [s + slices] + fl, s, slices, bs);
    } else {
      HandedOutLinked(l, fl, s, slices, bs);
    }
  }

  lemma FrontRecut(l: Layout, r: Layout, s: nat, m: nat, b: nat, bs: nat)
    requires Sized(l) && Sized(r) && s < m <= b <= SLICES
    requires forall i: nat | i < SLICES :: FrontAt(l, r, s, m, b, bs, i)
    ensures Recut(l.g, r.g, s, m, b) && Sizes(l.g, r.g, s, bs, m, b) && Offs(l.off, r.off, s, m, b)
    ensures forall i | 0 <= i < SLICES :: r.g[i].purged == l.g[i].purged
  {
    assert SpanAt(r.g, s, m) && End(r.g, s) == m by {
      assert FrontAt(l, r, s, m, b, bs, s);
      forall j | s < j < m ensures r.g[j].sliceOffset == j - s {
        assert FrontAt(l, r, s, m, b, bs, j);
      }
    }
    if m < b {
      assert FrontAt(l, r, s, m, b, bs, m);
      forall j | m < j < b ensures r.g[j].sliceOffset == j - m {
        assert FrontAt(l, r, s, m, b, bs, j);
      }
    }
    forall i | 0 <= i < s || b <= i < SLICES
      ensures r.g[i].sliceOffset == l.g[i].sliceOffset && r.g[i].sliceCount == l.g[i].sliceCount && r.g[i].area == l.g[i].area
    {
      assert FrontAt(l, r, s, m, b, bs, i);
    }
    forall i | 0 <= i < SLICES
      ensures r.g[i].blockSize == if i == s then bs else if i == m && m < b then 0 else l.g[i].blockSize
      ensures r.off[i] == if s <= i < m then PageOffFor(s) else if m <= i < b then PageOffFor(m) else l.off[i]
      ensures r.g[i].purged == l.g[i].purged
    {
      assert FrontAt(l, r, s, m, b, bs, i);
    }
  }

  lemma TakeFrontShape(l: Layout, s: nat, slices: nat, bs: nat)
    requires CanTake(l, s, slices)
    ensures var r, m, b := TakeFront(l, s, slices, bs), s + slices, End(l.g, s);
            && Sized(r) && r.next == l.next
            && Recut(l.g, r.g, s, m, b) && Sizes(l.g, r.g, s, bs, m, b) && Offs(l.off, r.off, s, m, b)
            && (forall i | 0 <= i < SLICES :: r.g[i].purged == l.g[i].purged)
  {
    UnlinkShape(l, s);
    var r, m, b := TakeFront(l, s, slices, bs), s + slices, End(l.g, s);
    FrontSlot(Unlink(l, s), s, l.g[s].sliceCount, slices, l.g[s].capacity, bs, 0);
    forall i: nat | i < SLICES ensures FrontAt(l, r, s, m, b, bs, i) {
      FrontSlot(Unlink(l, s), s, l.g[s].sliceCount, slices, l.g[s].capacity, bs, i);
    }
    FrontRecut(l, r, s, m, b, bs);
  }

  lemma TakeFrontLinked(l: Layout, fl: seq<nat>, s: nat, slices: nat, bs: nat)
    requires CanTake(l, s, slices) && Linked(l.g, l.head, fl) && s in fl && s + slices !in fl
    ensures var r := TakeFront(l, s, slices, bs);
            Linked(r.g, r.head, TakenList(fl, s, s + slices, End(l.g, s)))
  {
    UnlinkLinked(l, fl, IndexOf(fl, s));
    UnlinkShape(l, s);
    DropHas(l.g, l.head, fl, s, s + slices);
    FrontLinked(Unlink(l, s), Drop(fl, s), s, l.g[s].sliceCount, slices, l.g[s].capacity, bs);
    assert [] + Drop(fl, s) == Drop(fl, s);
  }

  lemma TakenListIsFree(g: Slots, h: Slots, next: nat, head: nat, fl: seq<nat>, s: nat, m: nat, b: nat, bs: nat)
    requires Recut(g, h, s, m, b) && Sizes(g, h, s, bs, m, b) && bs > 0 && next <= |g|
    requires Tiled(g, HEADER, next) && IsFree(g, next, s) && End(g, s) == b
    requires Linked(g, head, fl) && ListsFree(g, next, fl) && s in fl
    ensures ListsFree(h, next, TakenList(fl, s, m, b))
  {
    forall x: nat ensures x in TakenList(fl, s, m, b) <==> IsFree(h, next, x) {
      TakeKinds(g, h, next, s, m, b, bs, x);
      DropHas(g, head, fl, s, x);
    }
  }

  /** Taking the front of a free span: exactly its first `slices` slices become one live span. */
  lemma TakeFrontOk(l: Layout, fl: seq<nat>, s: nat, slices: nat, bs: nat)
    requires LayoutOk(l, fl) && s in fl && 1 <= slices <= l.g[s].sliceCount && bs > 0
    ensures CanTake(l, s, slices)
    ensures var r := TakeFront(l, s, slices, bs);
            && LayoutOk(r, TakenList(fl, s, s + slices, End(l.g, s)))
            && r.next == l.next
            && LiveSet(r.g, r.next) == LiveSet(l.g, l.next) + {s}
            && FreeSlices(r.g, r.next) == FreeSlices(l.g, l.next) - Range(s, s + slices)
            && Range(s, s + slices) <= FreeSlices(l.g, l.next)
            && End(r.g, s) == s + slices && r.g[s].blockSize == bs
            && Recut(l.g, r.g, s, s + slices, End(l.g, s)) && Sizes(l.g, r.g, s, bs, s + slices, End(l.g, s))
            && (forall i | 0 <= i < SLICES :: r.g[i].purged == l.g[i].purged)
  {
    TakeBounds(l, fl, s);
    NextStarts(l.g, l.next, s);
    TakeFrontShape(l, s, slices, bs);
    var r, m, b := TakeFront(l, s, slices, bs), s + slices, End(l.g, s);
    TakeFrontLinked(l, fl, s, slices, bs);
    TookOk(l, fl, r, s, m, b, bs);
  }

  lemma TookOk(l: Layout, fl: seq<nat>, r: Layout, s: nat, m: nat, b: nat, bs: nat)
    requires LayoutOk(l, fl) && s in fl && IsFree(l.g, l.next, s) && End(l.g, s) == b <= l.next && bs > 0
    requires b < l.next ==> l.g[b].sliceOffset == 0
    requires Sized(r) && r.next == l.next && Recut(l.g, r.g, s, m, b) && Sizes(l.g, r.g, s, bs, m, b) && Offs(l.off, r.off, s, m, b)
    requires Linked(r.g, r.head, TakenList(fl, s, m, b))
    ensures LayoutOk(r, TakenList(fl, s, m, b))
    ensures LiveSet(r.g, r.next) == LiveSet(l.g, l.next) + {s}
    ensures FreeSlices(r.g, r.next) == FreeSlices(l.g, l.next) - Range(s, m) && Range(s, m) <= FreeSlices(l.g, l.next)
  {
    hide Tiled, OffsAgree, Linked, ListsFree, Coalesced, Sizes, Offs;
    RecutTiled(l.g, r.g, l.next, s, m, b);
    RecutOffs(l.g, r.g, l.off, r.off, l.next, s, m, b);
    TakeCoalesced(l.g, r.g, l.next, s, m, b, bs);
    TakeSlices(l.g, r.g, l.next, s, m, b, bs);
    TakenListIsFree(l.g, r.g, l.next, l.head, fl, s, m, b, bs);
  }

  // ---------------------------------------------------------------- the bump

  /** Carve `slices` never-carved slices at the cursor, zeroing their slots if they are stale. */
  function Bump(l: Layout, slices: nat, bs: nat, zeroed: bool): Layout
    requires Sized(l) && 1 <= slices && l.next + slices <= SLICES
  {
    HandedOut(l.(g := if zeroed then l.g else Zeroed(l.g, l.next, slices)), l.next, slices, bs)
    .(next := l.next + slices)
  }

  function Zeroed(g: Slots, a: nat, n: nat): Slots
    requires a + n <= |g|
  {
    seq(|g|, i requires 0 <= i < |g| => if a <= i < a + n then ZERO_SLOT else g[i])
  }

  lemma BumpSlot(l: Layout, slices: nat, bs: nat, zeroed: bool, i: nat)
    requires Sized(l) && 1 <= slices && l.next + slices <= SLICES && i < SLICES
    ensures var r := Bump(l, slices, bs, zeroed);
            && Sized(r) && r.next == l.next + slices && r.head == l.head
            && (i < l.next || r.next <= i ==> r.g[i] == l.g[i] && r.off[i] == l.off[i])
            && (l.next <= i < r.next ==> r.g[i].sliceOffset == i - l.next && r.off[i] == PageOffFor(l.next)
                                         && (!zeroed ==> !r.g[i].purged) && (zeroed ==> r.g[i].purged == l.g[i].purged))
            && (i == l.next ==> r.g[i].sliceCount == slices && r.g[i].area == i * SLICE_SIZE && r.g[i].blockSize == bs)
  {
    HandedOutSlot(l.(g := if zeroed then l.g else Zeroed(l.g, l.next, slices)), l.next, slices, bs, i);
  }

  /** The slots below the cursor are untouched, the new ones make up one live span. */
  ghost predicate Grown(l: Layout, r: Layout, n: nat, bs: nat) {
    && Sized(l) && Sized(r) && r.next == l.next + n && n >= 1 && r.head == l.head
    && (forall i | 0 <= i < l.next :: r.g[i] == l.g[i] && r.off[i] == l.off[i])
    && (forall i | r.next <= i < SLICES :: r.g[i] == l.g[i])
    && (forall i | l.next <= i < r.next :: r.off[i] == PageOffFor(l.next))
    && SpanAt(r.g, l.next, r.next) && End(r.g, l.next) == r.next && r.g[l.next].blockSize == bs
  }

  lemma BumpGrown(l: Layout, slices: nat, bs: nat, zeroed: bool)
    requires Sized(l) && 1 <= slices && l.next + slices <= SLICES
    ensures Grown(l, Bump(l, slices, bs, zeroed), slices, bs)
  {
    var r := Bump(l, slices, bs, zeroed);
    BumpSlot(l, slices, bs, zeroed, 0);
    forall i: nat | i < SLICES
      ensures i < l.next || r.next <= i ==> r.g[i] == l.g[i] && r.off[i] == l.off[i]
      ensures l.next <= i < r.next ==> r.g[i].sliceOffset == i - l.next && r.off[i] == PageOffFor(l.next)
    {
      BumpSlot(l, slices, bs, zeroed, i);
    }
    BumpSlot(l, slices, bs, zeroed, l.next);
  }

  lemma GrownTiled(l: Layout, r: Layout, n: nat, bs: nat)
    requires Grown(l, r, n, bs) && Tiled(l.g, HEADER, l.next) && OffsAgree(l.g, l.off, l.next)
    ensures Tiled(r.g, HEADER, r.next) && OffsAgree(r.g, r.off, r.next)
  {
    SameTiled(l.g, r.g, HEADER, l.next);
    OneSpan(r.g, l.next, r.next);
    TiledJoin(r.g, HEADER, l.next, r.next);
    forall i | HEADER <= i < r.next
      ensures r.off[i] == PageOffFor(if Owner(r.g, i) < 0 then 0 else Owner(r.g, i))
    {
      assert i < l.next ==> Owner(r.g, i) == Owner(l.g, i);
    }
  }

  lemma GrownKinds(l: Layout, r: Layout, n: nat, bs: nat, i: int)
    requires Grown(l, r, n, bs) && bs > 0
    ensures IsFree(r.g, r.next, i) <==> IsFree(l.g, l.next, i)
    ensures IsLive(r.g, r.next, i) <==> IsLive(l.g, l.next, i) || i == l.next
  {
  }

  lemma GrownSlices(l: Layout, r: Layout, n: nat, bs: nat)
    requires Grown(l, r, n, bs) && bs > 0 && Tiled(l.g, HEADER, l.next)
    ensures LiveSet(r.g, r.next) == LiveSet(l.g, l.next) + {l.next}
    ensures FreeSlices(r.g, r.next) == FreeSlices(l.g, l.next)
  {
    forall i ensures i in LiveSet(r.g, r.next) <==> i in LiveSet(l.g, l.next) + {l.next} {
      GrownKinds(l, r, n, bs, i);
    }
    forall j ensures j in FreeSlices(r.g, r.next) <==> j in FreeSlices(l.g, l.next) {
      if HEADER <= j < l.next {
        GrownKinds(l, r, n, bs, Owner(l.g, j));
        assert Owner(r.g, j) == Owner(l.g, j);
      } else if l.next <= j < r.next {
        assert Owner(r.g, j) == l.next;
      }
    }
  }

  lemma GrownLists(l: Layout, r: Layout, fl: seq<nat>, n: nat, bs: nat)
    requires Grown(l, r, n, bs) && bs > 0 && Linked(l.g, l.head, fl) && ListsFree(l.g, l.next, fl)
    ensures Linked(r.g, r.head, fl) && ListsFree(r.g, r.next, fl)
  {
    forall k | 0 <= k < |fl| ensures r.g[fl[k]] == l.g[fl[k]] {
      assert fl[k] in fl;
    }
    SameLinked(l.g, r.g, l.head, fl);
    forall i: int ensures IsFree(r.g, r.next, i) <==> IsFree(l.g, l.next, i) {
      GrownKinds(l, r, n, bs, i);
    }
  }

  lemma GrownCoalesced(l: Layout, r: Layout, n: nat, bs: nat)
    requires Grown(l, r, n, bs) && bs > 0 && Tiled(l.g, HEADER, l.next) && Coalesced(l.g, l.next)
    ensures Coalesced(r.g, r.next)
  {
    forall i | IsFree(r.g, r.next, i) && End(r.g, i) < r.next ensures r.g[End(r.g, i)].blockSize != 0 {
      GrownKinds(l, r, n, bs, i);
      NextStarts(l.g, l.next, i);
    }
  }

  lemma GrownOk(l: Layout, r: Layout, fl: seq<nat>, n: nat, bs: nat)
    requires Grown(l, r, n, bs) && bs > 0 && LayoutOk(l, fl)
    ensures LayoutOk(r, fl)
  {
    hide Tiled, OffsAgree, Linked, ListsFree, Coalesced;
    GrownTiled(l, r, n, bs);
    GrownLists(l, r, fl, n, bs);
    GrownCoalesced(l, r, n, bs);
  }

  // -------------------------------------------------------------- the release

  /** The left neighbour's start, or `idx` when there is none or it is live. */
  function LeftEdge(l: Layout, idx: nat): int
    requires Sized(l) && HEADER <= idx < l.next
  {
    if idx > HEADER && 0 <= Owner(l.g, idx - 1) && l.g[Owner(l.g, idx - 1)].blockSize == 0
    then Owner(l.g, idx - 1) else idx
  }

  /** The end of the right neighbour, if it is free, or of the span itself. */
  function RightEdge(l: Layout, idx: nat): nat
    requires Sized(l) && HEADER <= idx < l.next && End(l.g, idx) <= l.next
  {
    var e := End(l.g, idx);
    if e < l.next && l.g[e].blockSize == 0 then End(l.g, e) else e
  }

  lemma EndOwner(g: Slots, next: nat, i: nat)
    requires next <= |g| && SpanAt(g, i, next)
    ensures i <= End(g, i) - 1 && Owner(g, End(g, i) - 1) == i
  {
  }

  /** The left neighbour, if there is one, ends where `idx` starts. */
  lemma LeftNeighbour(g: Slots, next: nat, idx: nat)
    requires next <= |g| && Tiled(g, HEADER, next) && HEADER < idx < next && g[idx].sliceOffset == 0
    ensures HEADER <= Owner(g, idx - 1) < idx && SpanAt(g, Owner(g, idx - 1), next) && End(g, Owner(g, idx - 1)) == idx
  {
    var q := Owner(g, idx - 1);
    assert SpanAt(g, q, next) && idx - 1 < End(g, q);
  }

  /** The two neighbours merge exactly when they are free, and the union is one merge. */
  lemma EdgesMerge(l: Layout, fl: seq<nat>, idx: nat)
    requires LayoutOk(l, fl) && IsLive(l.g, l.next, idx)
    ensures End(l.g, idx) <= l.next
    ensures HEADER <= LeftEdge(l, idx) && MergeOf(l.g, l.next, LeftEdge(l, idx), RightEdge(l, idx), idx)
    ensures var e := End(l.g, idx); e < l.next && l.g[e].blockSize == 0 ==> e in fl
    ensures LeftEdge(l, idx) != idx ==> LeftEdge(l, idx) in fl && End(l.g, LeftEdge(l, idx)) == idx
  {
    var g, next := l.g, l.next;
    NextStarts(g, next, idx);
    var e := End(g, idx);
    if e < next && g[e].blockSize == 0 {
      assert IsFree(g, next, e);
      NextStarts(g, next, e);
    }
    if idx > HEADER {
      LeftNeighbour(g, next, idx);
      assert g[Owner(g, idx - 1)].blockSize == 0 ==> IsFree(g, next, Owner(g, idx - 1));
    }
    var a, b := LeftEdge(l, idx), RightEdge(l, idx);
    forall i | a <= i < b && g[i].sliceOffset == 0 ensures i == idx || IsFree(g, next, i) {
      assert Owner(g, i) == i;
    }
    forall i | IsFree(g, next, i) ensures End(g, i) == idx ==> i == a {
      NextStarts(g, next, i);
      EndOwner(g, next, i);
    }
  }

  /** Slots that differ only in their links, except that `idx` was scrubbed. */
  ghost predicate Scrubbed(g: Slots, h: Slots, idx: nat) {
    |g| == |h| &&
    forall i | 0 <= i < |g| ::
      h[i] == g[i].(prev := h[i].prev, next := h[i].next,
                    blockSize := if i == idx then 0 else g[i].blockSize,
                    capacity := if i == idx then 0 else g[i].capacity)
  }

  lemma MergedSlot(l: Layout, k: Layout, idx: nat, a: nat, b: nat, i: nat)
    requires Sized(k) && k.head < SLICES && |l.g| == SLICES && Scrubbed(l.g, k.g, idx) && a < b <= SLICES && i < SLICES
    ensures var r, x := MarkFree(k, a, b - a), l.g[i];
            && Sized(r) && r.next == k.next
            && r.g[i].sliceOffset == (if a <= i < b then i - a else x.sliceOffset)
            && r.g[i].sliceCount == (if i == a then b - a else x.sliceCount)
            && r.g[i].area == (if i == a then a * SLICE_SIZE else x.area)
            && r.g[i].blockSize == (if i == a || i == idx then 0 else x.blockSize)
            && r.g[i].purged == x.purged
            && r.off[i] == (if a <= i < b then PageOffFor(a) else k.off[i])
  {
    MarkFreeShape(k, a, b - a);
  }

  lemma MergedShape(l: Layout, k: Layout, idx: nat, a: nat, b: nat)
    requires Sized(l) && Sized(k) && k.next == l.next && k.off == l.off && k.head < SLICES
    requires Scrubbed(l.g, k.g, idx) && HEADER <= a <= idx < b <= SLICES
    ensures var r := MarkFree(k, a, b - a);
            && Sized(r) && r.next == l.next && Recut(l.g, r.g, a, b, b)
            && MergeSizes(l.g, r.g, a, idx) && Offs(l.off, r.off, a, b, b)
            && (forall i | 0 <= i < SLICES :: r.g[i].purged == l.g[i].purged)
  {
    hide MarkFree;
    var r := MarkFree(k, a, b - a);
    MergedSlot(l, k, idx, a, b, a);
    forall i: nat | i < SLICES
      ensures r.g[i].sliceOffset == (if a <= i < b then i - a else l.g[i].sliceOffset)
      ensures r.g[i].sliceCount == (if i == a then b - a else l.g[i].sliceCount)
      ensures r.g[i].area == (if i == a then a * SLICE_SIZE else l.g[i].area)
      ensures r.g[i].blockSize == (if i == a || i == idx then 0 else l.g[i].blockSize)
      ensures r.g[i].purged == l.g[i].purged
      ensures r.off[i] == (if a <= i < b then PageOffFor(a) else l.off[i])
    {
      MergedSlot(l, k, idx, a, b, i);
    }
    assert SpanAt(r.g, a, b);
  }

  lemma MergedListIsFree(g: Slots, h: Slots, next: nat, a: nat, b: nat, idx: nat, fl: seq<nat>, fl2: seq<nat>)
    requires Recut(g, h, a, b, b) && MergeSizes(g, h, a, idx) && next <= |g| && HEADER <= a && MergeOf(g, next, a, b, idx)
    requires ListsFree(g, next, fl) && (forall x: nat :: x in fl2 <==> x in fl && !(a <= x < b))
    ensures ListsFree(h, next, [a] + fl2)
  {
    forall x: nat ensures x in [a] + fl2 <==> IsFree(h, next, x) {
      MergeKinds(g, h, next, a, b, idx, x);
    }
  }

  ghost predicate CanMerge(l: Layout, fl: seq<nat>, idx: nat, a: nat, b: nat) {
    && Sized(l) && Tiled(l.g, HEADER, l.next) && OffsAgree(l.g, l.off, l.next)
    && ListsFree(l.g, l.next, fl) && Coalesced(l.g, l.next)
    && HEADER <= a && MergeOf(l.g, l.next, a, b, idx)
  }

  /** The free span `a..b` stands where the live span `idx` and its free neighbours stood. */
  ghost predicate Merged(l: Layout, r: Layout, idx: nat, a: nat, b: nat)
    requires Sized(l) && Sized(r) && a < SLICES && idx < SLICES
  {
    && r.next == l.next && b <= SLICES
    && LiveSet(r.g, r.next) == LiveSet(l.g, l.next) - {idx}
    && FreeSlices(r.g, r.next) == FreeSlices(l.g, l.next) + SpanSlices(l.g, idx)
    && IsFree(r.g, r.next, a) && End(r.g, a) == b
    && Recut(l.g, r.g, a, b, b) && MergeSizes(l.g, r.g, a, idx)
    && (forall i | 0 <= i < SLICES :: r.g[i].purged == l.g[i].purged)
  }

  lemma MergedTable(l: Layout, fl: seq<nat>, r: Layout, fl2: seq<nat>, idx: nat, a: nat, b: nat)
    requires CanMerge(l, fl, idx, a, b)
    requires Sized(r) && r.next == l.next && Recut(l.g, r.g, a, b, b) && MergeSizes(l.g, r.g, a, idx)
    requires Offs(l.off, r.off, a, b, b) && (forall i | 0 <= i < SLICES :: r.g[i].purged == l.g[i].purged)
    requires Linked(r.g, r.head, [a] + fl2) && (forall x: nat :: x in fl2 <==> x in fl && !(a <= x < b))
    ensures LayoutOk(r, [a] + fl2) && Merged(l, r, idx, a, b)
  {
    RecutTiled(l.g, r.g, l.next, a, b, b);
    RecutOffs(l.g, r.g, l.off, r.off, l.next, a, b, b);
    MergeCoalesced(l.g, r.g, l.next, a, b, idx);
    MergeSlices(l.g, r.g, l.next, a, b, idx);
    MergedListIsFree(l.g, r.g, l.next, a, b, idx, fl, fl2);
    MergeKinds(l.g, r.g, l.next, a, b, idx, a);
  }

  /** Freeing a span: its slices, and its free neighbours', become one free span, on the list once. */
  lemma MergedOk(l: Layout, fl: seq<nat>, k: Layout, fl2: seq<nat>, idx: nat, a: nat, b: nat)
    requires CanMerge(l, fl, idx, a, b)
    requires Sized(k) && k.next == l.next && k.off == l.off && k.head < SLICES && Scrubbed(l.g, k.g, idx)
    requires Linked(k.g, k.head, fl2) && (forall x: nat :: x in fl2 <==> x in fl && !(a <= x < b))
    ensures var r := MarkFree(k, a, b - a); LayoutOk(r, [a] + fl2) && Merged(l, r, idx, a, b)
  {
    MarkFreeLinked(k, fl2, a, b - a);
    MergedShape(l, k, idx, a, b);
    MergedTable(l, fl, MarkFree(k, a, b - a), fl2, idx, a, b);
  }

  // ------------------------------------------------------ the empty segment

  /** With no live span left, all that was ever carved is one free span. */
  lemma EmptyIsOneSpan(l: Layout, fl: seq<nat>)
    requires LayoutOk(l, fl) && LiveSet(l.g, l.next) == {} && l.next > HEADER
    ensures IsFree(l.g, l.next, HEADER) && End(l.g, HEADER) == l.next && fl == [HEADER]
  {
    var g, next := l.g, l.next;
    var o := Owner(g, HEADER);
    assert SpanAt(g, o, next);
    assert HEADER !in LiveSet(g, next);
    NextStarts(g, next, HEADER);
    var e := End(g, HEADER);
    assert e !in LiveSet(g, next);
    forall x | x in fl ensures x == HEADER {
      assert IsFree(g, next, x);
      assert Owner(g, x) == x;
    }
    assert HEADER in fl;
    assert |fl| == 1 by {
      assert fl[|fl| - 1] in fl && fl[0] in fl;
    }
  }

  /** Both records of a carved slice name the same span, and it holds the slice. */
  lemma RecordsAgree(l: Layout, fl: seq<nat>, i: nat)
    requires LayoutOk(l, fl) && HEADER <= i < l.next
    ensures 0 <= Owner(l.g, i) && (IsLive(l.g, l.next, Owner(l.g, i)) || IsFree(l.g, l.next, Owner(l.g, i)))
    ensures Owner(l.g, i) <= i < End(l.g, Owner(l.g, i))
    ensures l.off[i] == PageOffFor(Owner(l.g, i))
    ensures forall q: nat | PageOffFor(q) == l.off[i] :: q == Owner(l.g, i)
    ensures l.g[Owner(l.g, i)].area == Owner(l.g, i) * SLICE_SIZE
  {
    assert SpanAt(l.g, Owner(l.g, i), l.next);
  }
}
