/** Large blocks: spans of their own, with the one freed last kept for the next request of its size. */
module LargeSpans {
  import opened Common
  import opened SegmentLayout
  import opened SegmentSpans
  import opened SegmentBacking
  import opened Segments
  import opened ZeroPages

  const LARGE_CACHE_MAX_SLICES: nat := 64

  /** A heap's large spans in one segment. */
  class LargeHeap {
    const seg: Segment
    const used: array<nat>          // per slot: 1 while the block lives, 0 once it was freed
    const zeroFlag: array<bool>     // per slot: `free_is_zero`
    var cache: nat                  // the span kept, 0 for none
    var freed: bool                 // a large block was freed since the last large allocation
    ghost var large: set<nat>       // the large spans, the cached one among them

    /** The spans clients have. */
    ghost function InUse(): set<nat>
      reads this
    {
      large - {cache}
    }

    ghost predicate Owned()
      reads this, seg, seg.pages, seg.pageOff, used
    {
      && used.Length == zeroFlag.Length == SLICES && used != seg.pageOff && seg.Valid()
      && (forall o | o in large :: o in seg.Live() && o < SLICES && seg.pages[o].blockSize == seg.pages[o].sliceCount * SLICE_SIZE)
      && (forall o | o in large :: used[o] == if o == cache then 0 else 1)
    }

    ghost predicate Valid()
      reads this, seg, seg.pages, seg.pageOff, used
    {
      Owned() && 0 !in large && (cache != 0 ==> cache in large)
    }

    constructor (s: Segment)
      requires s.Valid()
      ensures Valid() && seg == s && fresh(used) && fresh(zeroFlag) && InUse() == {} && cache == 0
    {
      seg := s;
      used := new nat[SLICES](i => 0);
      zeroFlag := new bool[SLICES](i => false);
      cache, freed, large := 0, false, {};
    }

    /** `large_alloc`: the kept span if it has the size, and then never as zero; else a span of the
        segment, zero when the segment says so, which is true of every byte. */
    method Alloc(slices: nat, os: Commits) returns (start: nat, zero: bool)
      requires Valid() && 1 <= slices
      modifies this, seg, seg.pages, seg.pageOff, used, zeroFlag
      ensures Valid() && !freed && seg.bytes == old(seg.bytes)
      ensures start == if old(cache) != 0 && old(seg.pages[cache].sliceCount) == slices then old(cache)
                       else old(seg.Choice(slices, os))
      ensures start == 0 ==> InUse() == old(InUse()) && cache == old(cache) && !zero
      ensures start != 0 ==> start !in old(InUse()) && InUse() == old(InUse()) + {start} && seg.pages[start].sliceCount == slices
      ensures start != 0 ==> zeroFlag[start] == zero && cache == if start == old(cache) then 0 else old(cache)
      ensures zero ==> ZeroAt(seg.bytes, start * SLICE_SIZE, slices * SLICE_SIZE)
      ensures zero <==> start != 0 && start != old(cache) && seg.memIsZero && start == old(seg.nextFree)
    {
      freed := false;
      if cache != 0 && seg.pages[cache].sliceCount == slices {
        start, zero := cache, false;
        cache := 0;
        used[start], zeroFlag[start] := 1, false;
      } else {
        start, zero := FreshSpan(slices, os);
      }
    }

    /** For a request of `size` bytes: as many slices as hold it, and no more. */
    method AllocSize(size: nat, os: Commits) returns (start: nat, zero: bool)
      requires Valid() && size > 0
      modifies this, seg, seg.pages, seg.pageOff, used, zeroFlag
      ensures Valid() && seg.bytes == old(seg.bytes)
      ensures start == 0 ==> InUse() == old(InUse())
      ensures start != 0 ==> start !in old(InUse()) && InUse() == old(InUse()) + {start}
      ensures start != 0 ==> size <= seg.pages[start].sliceCount * SLICE_SIZE < size + SLICE_SIZE
      ensures zero ==> start != 0 && ZeroAt(seg.bytes, start * SLICE_SIZE, size)
    {
      start, zero := Alloc((size + SLICE_SIZE - 1) / SLICE_SIZE, os);
    }

    method FreshSpan(slices: nat, os: Commits) returns (start: nat, zero: bool)
      requires Valid() && 1 <= slices
      modifies this`large, seg, seg.pages, seg.pageOff, used, zeroFlag
      ensures Valid() && seg.bytes == old(seg.bytes)
      ensures start == old(seg.Choice(slices, os))
      ensures if start == 0 then large == old(large) && !zero
              else start !in old(large) && large == old(large) + {start} && seg.pages[start].sliceCount == slices
                   && zeroFlag[start] == zero
      ensures zero ==> ZeroAt(seg.bytes, start * SLICE_SIZE, slices * SLICE_SIZE)
      ensures zero <==> start != 0 && seg.memIsZero && start == old(seg.nextFree)
    {
      hide TableOk, BytesOk, Segments.Clean, LiveSet;
      ghost var l := seg.Table();
      start, zero := SpanFor(seg, slices, slices * SLICE_SIZE, os);
      AllKept(l, seg.Table(), large);
      if start != 0 {
        used[start], zeroFlag[start] := 1, zero;
        large := large + {start};
      }
    }

    /** `retire_span` of a large span: the others keep their extents and what is in them. */
    method Retire(o: nat, opt: Purging)
      requires Owned() && 0 !in large && o in large
      modifies this`large, seg, seg.pages, seg.pageOff
      ensures Owned() && large == old(large) - {o}
      ensures Undisturbed(old(seg.pages[..]), old(seg.bytes), seg.pages[..], seg.bytes, large)
    {
      hide TableOk, BytesOk, Segments.Clean, LiveSet, FreeSlices, SpanSlices, Considered, Reflagged, SameSpans;
      ghost var l, b0 := seg.Table(), seg.bytes;
      ghost var i, g := seg.SpanFree(o, opt);
      FreedKept(l, seg.Table(), large, o);
      large := large - {o};
      forall p | p in large ensures SpanSlices(seg.pages[..], p) !! seg.Unused() {
        seg.LiveAlone(p);
      }
      hide OnlyIn;
      StillThere(l.g, b0, seg.pages[..], seg.bytes, large, seg.Unused());
    }

    method RetireKept(opt: Purging)
      requires Valid()
      modifies this`large, this`cache, seg, seg.pages, seg.pageOff
      ensures Valid() && cache == 0 && large == old(InUse())
      ensures Undisturbed(old(seg.pages[..]), old(seg.bytes), seg.pages[..], seg.bytes, large)
    {
      if cache != 0 {
        Retire(cache, opt);
        cache := 0;
      }
    }

    /** `free_large_span`: the span kept so far is retired first; then this one is kept if it is a lone
        free of a size worth keeping and purging is not immediate, else retired. A block whose span is
        the kept one was freed already. */
    method Free(p: nat, opt: Purging) returns (abort: bool)
      requires Valid() && p in large
      modifies this, seg, seg.pages, seg.pageOff, used
      ensures Valid() && abort == (p !in old(InUse()))
      ensures abort ==> large == old(large) && cache == old(cache) && seg.Table() == old(seg.Table())
      ensures !abort ==> InUse() == old(InUse()) - {p} && freed
      ensures !abort ==>
                cache == if !old(freed) && old(seg.pages[p].sliceCount) <= LARGE_CACHE_MAX_SLICES && opt.delay != 0 then p else 0
      ensures Undisturbed(old(seg.pages[..]), old(seg.bytes), seg.pages[..], seg.bytes, InUse())
    {
      abort := used[p] == 0;
      if !abort {
        hide Undisturbed;
        ghost var g, b0 := seg.pages[..], seg.bytes;
        var slices, lone := seg.pages[p].sliceCount, !freed;
        RetireKept(opt);
        freed := true;
        ghost var h, b1, more := seg.pages[..], seg.bytes, large;
        if lone && slices <= LARGE_CACHE_MAX_SLICES && opt.delay != 0 {
          used[p], cache := 0, p;
          SameUndisturbed(h, b1, InUse());
        } else {
          Retire(p, opt);
        }
        UndisturbedTwice(g, b0, h, b1, seg.pages[..], seg.bytes, InUse(), more);
      }
    }
  }

  /** The spans `large` have kept their extents, and their bytes what is in them. */
  ghost predicate Undisturbed(g: Slots, b0: int -> int, h: Slots, b1: int -> int, large: set<nat>) {
    forall o | o in large ::
      && o < |g| && o < |h| && h[o].sliceCount == g[o].sliceCount && h[o].blockSize == g[o].blockSize
      && SameOn(b0, b1, SpanSlices(h, o))
  }

  ghost predicate SameOn(b0: int -> int, b1: int -> int, slices: set<int>) {
    forall x :: x / SLICE_SIZE in slices ==> b1(x) == b0(x)
  }

  lemma StillThere(g: Slots, b0: int -> int, h: Slots, b1: int -> int, large: set<nat>, part: set<int>)
    requires OnlyIn(b0, b1, part) && forall o | o in large ::
               && o < |g| && o < |h| && h[o].sliceCount == g[o].sliceCount && h[o].blockSize == g[o].blockSize
               && SpanSlices(h, o) !! part
    ensures Undisturbed(g, b0, h, b1, large)
  {
    forall o | o in large ensures SameOn(b0, b1, SpanSlices(h, o)) {
    }
  }

  lemma SameUndisturbed(g: Slots, b: int -> int, large: set<nat>)
    requires forall o | o in large :: o < |g|
    ensures Undisturbed(g, b, g, b, large)
  {
  }

  lemma UndisturbedTwice(g: Slots, b0: int -> int, h: Slots, b1: int -> int, k: Slots, b2: int -> int, large: set<nat>, more: set<nat>)
    requires Undisturbed(g, b0, h, b1, more) && Undisturbed(h, b1, k, b2, large) && large <= more
    ensures Undisturbed(g, b0, k, b2, large)
  {
    forall o | o in large ensures SameOn(b0, b2, SpanSlices(k, o)) {
      assert SpanSlices(k, o) == SpanSlices(h, o);
    }
  }

  lemma FreedKept(l: Layout, r: Layout, large: set<nat>, o: nat)
    requires Sized(l) && Sized(r) && o < SLICES && Freed(l, r, o)
    requires forall p | p in large :: p in LiveSet(l.g, l.next) && p < SLICES
    ensures forall p | p in large && p != o :: p in LiveSet(r.g, r.next)
              && r.g[p].sliceCount == l.g[p].sliceCount && r.g[p].blockSize == l.g[p].blockSize
  {
  }

  lemma AllKept(l: Layout, r: Layout, large: set<nat>)
    requires LiveKept(l, r, 0) && 0 !in large && forall o | o in large :: o in LiveSet(l.g, l.next) && o < SLICES
    ensures forall o | o in large :: o in LiveSet(r.g, r.next) && o < SLICES
              && r.g[o].sliceCount == l.g[o].sliceCount && r.g[o].blockSize == l.g[o].blockSize
  {
  }
}
