/** The zero promise from end to end: a binned page over a span of a segment, byte by byte. */
module ZeroPages {
  import opened Common
  import opened SegmentLayout
  import opened SegmentSpans
  import opened SegmentBacking
  import opened Segments
  import opened Pages
  import P = PageLists

  const SMALL_OBJ_SIZE_MAX: nat := 8192
  const MEDIUM_OBJ_SIZE_MAX: nat := 65536
  const WORD_BYTES: nat := 8

  /** Where block `b` of a page whose span starts at slice `start` begins, in the segment. */
  function BlockAt(start: nat, bsize: nat, b: int): int {
    start * SLICE_SIZE + (b - 1) * bsize
  }

  /** Block `b` is zero apart from its first word. */
  ghost predicate BlockZero(bytes: int -> int, start: nat, bsize: nat, b: int) {
    ZeroAt(bytes, BlockAt(start, bsize, b) + WORD_BYTES, bsize - WORD_BYTES)
  }

  /** `rest[b]` is 0 exactly for such blocks. */
  ghost predicate Describes(bytes: int -> int, start: nat, bsize: nat, rest: seq<nat>) {
    forall b | 1 <= b < |rest| :: rest[b] == 0 <==> BlockZero(bytes, start, bsize, b)
  }

  /** Page `page` lies on the live span at `start`, and says of its blocks what memory says. */
  ghost predicate LiesOn(page: Page, seg: Segment, start: nat)
    reads page, page.links, page.rest, seg, seg.pages, seg.pageOff
  {
    && seg.Valid() && page.Valid() && start in seg.Live() && page.blockSize >= WORD_BYTES
    && seg.pages[start].sliceCount == page.slices && page.links != seg.pageOff && page.rest != seg.pageOff
    && Describes(seg.bytes, start, page.blockSize, page.rest[..])
  }

  lemma BlockInSpan(start: nat, slices: nat, bsize: nat, b: nat)
    requires bsize > 0 && 1 <= b <= P.Reserved(slices, bsize)
    ensures BlockAt(start, bsize, b + 1) == BlockAt(start, bsize, b) + bsize
    ensures start * SLICE_SIZE <= BlockAt(start, bsize, b)
    ensures BlockAt(start, bsize, b) + bsize <= start * SLICE_SIZE + slices * SLICE_SIZE
  {
    P.BlockInside(slices, bsize, b - 1);
    assert b * bsize == (b - 1) * bsize + bsize;
  }

  lemma BlocksApart(start: nat, slices: nat, bsize: nat, b: nat, c: nat)
    requires bsize > 0 && 1 <= b <= P.Reserved(slices, bsize) && 1 <= c <= P.Reserved(slices, bsize) && b != c
    ensures BlockAt(start, bsize, b) + bsize <= BlockAt(start, bsize, c) || BlockAt(start, bsize, c) + bsize <= BlockAt(start, bsize, b)
  {
    if b < c {
      P.BlocksInside(slices, bsize, b - 1, c - 1);
    } else {
      P.BlocksInside(slices, bsize, c - 1, b - 1);
    }
  }

  /** On a zero span every block is. */
  lemma ZeroBlocks(bytes: int -> int, start: nat, slices: nat, bsize: nat, rest: seq<nat>)
    requires bsize >= WORD_BYTES && |rest| == P.Reserved(slices, bsize) + 1 && Describes(bytes, start, bsize, rest)
    requires ZeroAt(bytes, start * SLICE_SIZE, slices * SLICE_SIZE)
    ensures forall b | 1 <= b < |rest| :: rest[b] == 0
  {
    hide BlockAt, P.Reserved;
    forall b: nat | 1 <= b < |rest| ensures rest[b] == 0 {
      BlockInSpan(start, slices, bsize, b);
      assert BlockZero(bytes, start, bsize, b);
    }
  }

  /** Changes outside the span do not show. */
  lemma DescribesKept(b0: int -> int, b1: int -> int, part: set<int>, start: nat, slices: nat, bsize: nat, rest: seq<nat>)
    requires bsize >= WORD_BYTES && |rest| == P.Reserved(slices, bsize) + 1 && Describes(b0, start, bsize, rest)
    requires OnlyIn(b0, b1, part) && Range(start, start + slices) !! part
    ensures Describes(b1, start, bsize, rest)
  {
    hide BlockAt, P.Reserved;
    forall b: nat | 1 <= b < |rest| ensures BlockZero(b1, start, bsize, b) == BlockZero(b0, start, bsize, b) {
      BlockInSpan(start, slices, bsize, b);
      var a := BlockAt(start, bsize, b);
      forall x | a <= x < a + bsize ensures b1(x) == b0(x) {
        assert x / SLICE_SIZE in Range(start, start + slices);
      }
    }
  }

  /** What a page needs to know of the span it is given. */
  method SpanFor(seg: Segment, slices: nat, bsize: nat, os: Commits) returns (start: nat, zero: bool)
    requires seg.Valid() && 1 <= slices && bsize > 0
    modifies seg, seg.pages, seg.pageOff
    ensures seg.Valid() && start == old(seg.Choice(slices, os)) && seg.bytes == old(seg.bytes)
    ensures start != 0 ==> start in seg.Live() && start !in old(seg.Live()) && start < SLICES
    ensures start != 0 ==> seg.pages[start].sliceCount == slices && seg.pages[start].blockSize == bsize
    ensures LiveKept(old(seg.Table()), seg.Table(), 0)
    ensures zero == (start != 0 && seg.memIsZero && start == old(seg.nextFree))
    ensures zero ==> ZeroAt(seg.bytes, start * SLICE_SIZE, slices * SLICE_SIZE)
  {
    hide TableOk, BytesOk, Segments.Clean, LiveSet, FreeSlices, HandsOut;
    start, zero := seg.SpanAlloc(slices, bsize, os);
    if start != 0 {
      Handed(old(seg.Table()), seg.Table(), start, slices, bsize, seg.backed);
    } else {
      assert seg.Table() == old(seg.Table());
    }
  }

  /** `fresh_page`: the span comes from the segment, the page is built over what memory holds there; the
      zero flag is the segment's, and it is true of every byte of every block. */
  method FreshPage(seg: Segment, bsize: nat, os: Commits, heads: nat -> seq<nat>, rests: nat -> seq<nat>)
    returns (start: nat, page: Page?)
    requires seg.Valid() && WORD_BYTES <= bsize <= MEDIUM_OBJ_SIZE_MAX
    requires forall s :: |heads(s)| == |rests(s)| == P.Reserved(Slices(bsize), bsize) + 1
    requires forall s :: Describes(seg.bytes, s, bsize, rests(s))
    modifies seg, seg.pages, seg.pageOff
    ensures seg.Valid() && start == old(seg.Choice(Slices(bsize), os)) && (start == 0 <==> page == null)
    ensures page != null ==> fresh(page) && fresh(page.links) && fresh(page.rest) && LiesOn(page, seg, start)
    ensures page != null ==> page.blockSize == bsize && page.capacity == 0
    ensures page != null ==> page.slices == seg.pages[start].sliceCount == if bsize <= 8192 then 1 else 8
    ensures page != null ==> page.freeIsZero == (seg.memIsZero && start == old(seg.nextFree))
    ensures page != null && page.freeIsZero ==> ZeroAt(seg.bytes, start * SLICE_SIZE, Slices(bsize) * SLICE_SIZE)
  {
    hide TableOk, BytesOk, Segments.Clean, LiveSet, Describes, Slices, P.Spells, P.Reserved, P.Parted;
    var slices, zero := Slices(bsize), false;
    start, zero := SpanFor(seg, slices, bsize, os);
    page := null;
    if start != 0 {
      if zero {
        ZeroBlocks(seg.bytes, start, slices, bsize, rests(start));
      }
      page := new Page(bsize, slices, zero, heads(start), rests(start));
    }
  }

  lemma Handed(l: Layout, r: Layout, s: nat, n: nat, bs: nat, backed: set<int>)
    requires Sized(l) && Sized(r) && HandsOut(l, r, s, n, bs, backed)
    ensures s in LiveSet(r.g, r.next) && s !in LiveSet(l.g, l.next) && r.g[s].sliceCount == n && r.g[s].blockSize == bs
    ensures LiveKept(l, r, 0) && s < SLICES
  {
  }

  /** Every live span but `gone` is there as it was. */
  ghost predicate LiveKept(l: Layout, r: Layout, gone: int) {
    Sized(l) && Sized(r) && Kept(l, r, gone)
  }

  /** Blocks up to 8 KiB come from one slice, larger ones from eight. */
  function Slices(bsize: nat): (n: nat)
    ensures n == if bsize <= 8192 then 1 else 8
  {
    if bsize <= SMALL_OBJ_SIZE_MAX then 1 else MEDIUM_PAGE_SLICES
  }

  /** A block returned with the zero flag is zero in memory apart from its first word. */
  method PopZero(seg: Segment, page: Page, start: nat) returns (b: nat, zero: bool)
    requires LiesOn(page, seg, start)
    modifies page
    ensures LiesOn(page, seg, start)
    ensures b != 0 ==> page.Client(b) && zero == old(page.freeIsZero)
    ensures zero ==> b != 0 && BlockZero(seg.bytes, start, page.blockSize, b)
  {
    b, zero := page.Pop();
  }

  /** A write to block `b` shows on that block only, and nowhere outside the span. */
  lemma WriteDescribes(b0: int -> int, b1: int -> int, start: nat, slices: nat, bsize: nat, rest: seq<nat>, b: nat, other: nat)
    requires bsize >= WORD_BYTES && |rest| == P.Reserved(slices, bsize) + 1 && Describes(b0, start, bsize, rest) && 1 <= b < |rest|
    requires forall x :: b1(x) != b0(x) ==> BlockAt(start, bsize, b) <= x < BlockAt(start, bsize, b + 1)
    requires other == 0 <==> BlockZero(b1, start, bsize, b)
    ensures Describes(b1, start, bsize, rest[b := other])
    ensures OnlyIn(b0, b1, Range(start, start + slices))
  {
    hide BlockAt, P.Reserved;
    BlockInSpan(start, slices, bsize, b);
    forall c: nat | 1 <= c < |rest| && c != b ensures BlockZero(b1, start, bsize, c) == BlockZero(b0, start, bsize, c) {
      BlocksApart(start, slices, bsize, b, c);
      var a := BlockAt(start, bsize, c);
      assert forall x | a <= x < a + bsize :: b1(x) == b0(x);
    }
  }

  /** The client that has block `b` writes what it likes in it, and in memory nothing else changes. */
  method WriteBlock(seg: Segment, page: Page, start: nat, b: nat, first: nat, other: nat, ghost after: int -> int)
    requires LiesOn(page, seg, start) && page.Client(b)
    requires forall x :: after(x) != seg.bytes(x) ==> BlockAt(start, page.blockSize, b) <= x < BlockAt(start, page.blockSize, b + 1)
    requires other == 0 <==> BlockZero(after, start, page.blockSize, b)
    modifies page.links, page.rest, seg`bytes
    ensures LiesOn(page, seg, start) && seg.bytes == after
  {
    hide TableOk, BytesOk, Segments.Clean, Describes, Considered, Reflagged, SameSpans, LiveSet, FreeSlices, Range, P.Spells, P.Reserved, P.Parted;
    seg.LiveAlone(start);
    WriteDescribes(seg.bytes, after, start, page.slices, page.blockSize, page.rest[..], b, other);
    ghost var rest := page.rest[..];
    page.Write(b, first, other);
    assert page.rest[..] == rest[b := other] && seg.Table() == old(seg.Table());
    seg.ClientWrites(start, after);
    assert page.rest[..] == rest[b := other] && seg.Table() == old(seg.Table());
  }

  /** The links the allocator writes go in first words. */
  ghost predicate OnlyLinks(b0: int -> int, b1: int -> int, start: nat, bsize: nat, reserved: nat) {
    forall x | b1(x) != b0(x) :: exists b :: 1 <= b <= reserved && InFirstWord(start, bsize, b, x)
  }

  predicate InFirstWord(start: nat, bsize: nat, b: int, x: int) {
    BlockAt(start, bsize, b) <= x < BlockAt(start, bsize, b) + WORD_BYTES
  }

  lemma LinksHidden(b0: int -> int, b1: int -> int, start: nat, slices: nat, bsize: nat, rest: seq<nat>)
    requires bsize >= WORD_BYTES && |rest| == P.Reserved(slices, bsize) + 1 && Describes(b0, start, bsize, rest)
    requires OnlyLinks(b0, b1, start, bsize, P.Reserved(slices, bsize))
    ensures Describes(b1, start, bsize, rest) && OnlyIn(b0, b1, Range(start, start + slices))
  {
    hide BlockAt, P.Reserved;
    forall x | b1(x) != b0(x) ensures x / SLICE_SIZE in Range(start, start + slices) {
      var b: nat :| 1 <= b <= P.Reserved(slices, bsize) && InFirstWord(start, bsize, b, x);
      BlockInSpan(start, slices, bsize, b);
    }
    forall c: nat | 1 <= c < |rest| ensures BlockZero(b1, start, bsize, c) == BlockZero(b0, start, bsize, c) {
      var a := BlockAt(start, bsize, c);
      forall x | a + WORD_BYTES <= x < a + bsize ensures b1(x) == b0(x) {
        if b1(x) != b0(x) {
          var b: nat :| 1 <= b <= P.Reserved(slices, bsize) && InFirstWord(start, bsize, b, x);
          if b != c {
            BlocksApart(start, slices, bsize, b, c);
          }
        }
      }
    }
  }

  /** A local free: the block goes on the page's list, and memory keeps all but a first word. */
  method PushOn(seg: Segment, page: Page, start: nat, b: nat, ghost after: int -> int)
    requires LiesOn(page, seg, start) && page.Client(b)
    requires OnlyLinks(seg.bytes, after, start, page.blockSize, page.reserved)
    modifies page, page.links, seg`bytes
    ensures LiesOn(page, seg, start) && seg.bytes == after && page.localL == [b] + old(page.localL)
  {
    hide TableOk, BytesOk, Segments.Clean, Describes, LiveSet, FreeSlices, Range, P.Spells, P.Reserved, P.Parted;
    ghost var rest := page.rest[..];
    seg.LiveAlone(start);
    LinksHidden(seg.bytes, after, start, page.slices, page.blockSize, rest);
    page.PushLocal(b);
    assert page.rest[..] == rest && seg.Table() == old(seg.Table());
    seg.ClientWrites(start, after);
    assert page.rest[..] == rest && seg.Table() == old(seg.Table());
  }

  /** The owner collects and extends the page: the same. */
  method RefreshOn(seg: Segment, page: Page, start: nat, ghost after: int -> int) returns (serves: bool)
    requires LiesOn(page, seg, start)
    requires OnlyLinks(seg.bytes, after, start, page.blockSize, page.reserved)
    modifies page, page.links, seg`bytes
    ensures LiesOn(page, seg, start) && seg.bytes == after && serves == (page.freeL != [])
  {
    hide TableOk, BytesOk, Segments.Clean, Describes, LiveSet, FreeSlices, Range, P.Spells, P.Reserved, P.Parted;
    ghost var rest := page.rest[..];
    seg.LiveAlone(start);
    LinksHidden(seg.bytes, after, start, page.slices, page.blockSize, rest);
    serves := page.Refresh();
    assert page.rest[..] == rest && seg.Table() == old(seg.Table());
    seg.ClientWrites(start, after);
    assert page.rest[..] == rest && seg.Table() == old(seg.Table());
  }

  /** Nothing the segment does for others shows on the page: not a span they free, with every purge
      that brings about, */
  method FreeOther(seg: Segment, page: Page, start: nat, o: nat, opt: Purging)
    requires LiesOn(page, seg, start) && o in seg.Live() && o != start
    modifies seg, seg.pages, seg.pageOff
    ensures LiesOn(page, seg, start)
  {
    hide TableOk, BytesOk, Segments.Clean, Describes, Considered, Reflagged, SameSpans, LiveSet, FreeSlices, Range, P.Spells, P.Reserved, P.Parted;
    ghost var was, rest, live := seg.bytes, page.rest[..], seg.Live();
    ghost var i, g := seg.SpanFree(o, opt);
    assert page.rest[..] == rest && seg.Live() == live - {o};
    seg.LiveAlone(start);
    DescribesKept(was, seg.bytes, seg.Unused(), start, page.slices, page.blockSize, page.rest[..]);
  }

  /** nor a span they are given. */
  method AllocOther(seg: Segment, page: Page, start: nat, slices: nat, bs: nat, os: Commits) returns (r: nat, zero: bool)
    requires LiesOn(page, seg, start) && 1 <= slices && bs > 0
    modifies seg, seg.pages, seg.pageOff
    ensures LiesOn(page, seg, start) && r != start
  {
    hide TableOk, BytesOk, Segments.Clean, Describes, Considered, Reflagged, SameSpans, LiveSet, FreeSlices, Range, P.Spells, P.Reserved, P.Parted;
    ghost var rest, table, live := page.rest[..], seg.Table(), seg.Live();
    seg.LiveAlone(start);
    r, zero := seg.SpanAlloc(slices, bs, os);
    assert page.rest[..] == rest;
    if r == 0 {
      assert seg.Table() == table;
    } else {
      assert seg.Live() == live + {r as int} && start in seg.Live() && r != start;
    }
  }
}
