/** One normal segment: the span allocator and its commit and purge machine, in place. */
module Segments {
  import opened Common
  import opened SegmentLayout
  import opened SegmentSpans
  import opened SegmentBacking

  const MEDIUM_PAGE_SLICES := 8
  const COMMIT_STEP_MAX_SLICES := 64
  const NS_PER_MS := 1_000_000
  const U32 := 0x1_0000_0000

  /** What the OS answers to the commits one allocation may ask for. */
  datatype Commits = Commits(recommit: bool, step: bool, exact: bool)

  /** The purge options, the clock, and what the OS answers to a purge of the span at each start. */
  datatype Purging = Purging(delay: int, decommits: bool, now: nat, grants: nat -> bool)

  function NowMs(ns: nat): nat {
    (ns / NS_PER_MS) % U32
  }

  /** Milliseconds the span stamped `stamp` must still stay free; none when forced. */
  function Wait(now: Option<nat>, delayMs: nat, stamp: nat): nat {
    match now
    case None => 0
    case Some(t) =>
      var age := (NowMs(t) - stamp) % U32;
      if delayMs > age then delayMs - age else 0
  }

  /** Interior slots `idx+1 .. idx+from` already point back to `idx`, in both records. */
  ghost predicate Points(g: Slots, off: seq<nat>, idx: nat, from: nat)
    requires idx + from <= |g| && idx + from <= |off|
  {
    forall i | idx < i < idx + from :: g[i].sliceOffset == i - idx && off[i] == PageOffFor(idx)
  }

  /** The first span in list order with at least `slices` slices, or 0 if there is none. */
  function Pick(g: Slots, fl: seq<nat>, slices: nat): (s: nat)
    requires forall k | 0 <= k < |fl| :: fl[k] < |g|
    ensures s != 0 ==> s in fl && g[s].sliceCount >= slices
  {
    if fl == [] then 0
    else if g[fl[0]].sliceCount >= slices then fl[0]
    else Pick(g, fl[1..], slices)
  }

  /** 0 means no span fits. */
  lemma {:induction false} PickNone(g: Slots, fl: seq<nat>, slices: nat)
    requires forall k | 0 <= k < |fl| :: 0 < fl[k] < |g|
    ensures Pick(g, fl, slices) == 0 <==> forall k | 0 <= k < |fl| :: g[fl[k]].sliceCount < slices
  {
    if fl != [] && g[fl[0]].sliceCount < slices {
      PickNone(g, fl[1..], slices);
      assert forall k | 1 <= k < |fl| :: fl[k] == fl[1..][k - 1];
    }
  }

  /** The `k`-th span of the list is the first with room. */
  ghost predicate FirstFit(g: Slots, fl: seq<nat>, slices: nat, k: nat)
    requires forall j | 0 <= j < |fl| :: fl[j] < |g|
  {
    k < |fl| && g[fl[k]].sliceCount >= slices && forall j | 0 <= j < k :: g[fl[j]].sliceCount < slices
  }

  /** What is picked is that one, whichever others fit. */
  lemma {:induction false} PickFirst(g: Slots, fl: seq<nat>, slices: nat, k: nat)
    requires (forall j | 0 <= j < |fl| :: 0 < fl[j] < |g|) && FirstFit(g, fl, slices, k)
    ensures Pick(g, fl, slices) == fl[k]
  {
    if k > 0 {
      assert g[fl[0]].sliceCount < slices;
      assert forall j | 0 <= j < |fl| - 1 :: fl[1..][j] == fl[j + 1];
      PickFirst(g, fl[1..], slices, k - 1);
    }
  }

  ghost predicate Blank(g: Slots, i: nat)
    requires i < |g|
  {
    g[i].blockSize == 0 && !g[i].purged && g[i].sliceCount == 0 && g[i].sliceOffset == 0
  }

  /** Slots never carved say nothing, as the OS delivered them. */
  ghost predicate Clean(g: Slots, next: nat) {
    forall i | next <= i < |g| :: Blank(g, i)
  }

  lemma CleanAbove(zero: bool, l: Layout, r: Layout)
    requires Sized(l) && Sized(r) && l.next <= r.next && SameAbove(l, r) && (zero ==> Clean(l.g, l.next))
    ensures zero ==> Clean(r.g, r.next)
  {
    if zero {
      forall i | r.next <= i < SLICES ensures Blank(r.g, i) {
        assert Blank(l.g, i);
      }
    }
  }

  /** The delay option as the code uses it: no less than 0, no more than half the stamp's range. */
  function DelayMs(delay: int): nat {
    if delay < 0 then 0 else if delay > (U32 - 1) / 2 then (U32 - 1) / 2 else delay
  }

  /** An option in range is taken as it is; any other as the end of the range on its side. */
  lemma DelayIs(delay: int)
    ensures 0 <= delay <= 0x7FFF_FFFF ==> DelayMs(delay) == delay
    ensures delay < 0 ==> DelayMs(delay) == 0
    ensures delay > 0x7FFF_FFFF ==> DelayMs(delay) == 0x7FFF_FFFF
  {
  }

  /** Milliseconds between two times. */
  function Elapsed(from: nat, to: nat): int {
    to / NS_PER_MS - from / NS_PER_MS
  }

  /** A span was freed at `at`, less than the stamp's range ago. */
  predicate StampedAt(x: Slot, at: nat, t: nat) {
    at <= t && Elapsed(at, t) < U32 && x.capacity == (at / NS_PER_MS) % U32
  }

  /** The wrapping age is the time that passed. */
  lemma WaitIs(at: nat, t: nat, delayMs: nat, stamp: nat)
    requires at <= t && Elapsed(at, t) < U32 && stamp == (at / NS_PER_MS) % U32
    ensures Wait(Some(t), delayMs, stamp) == if delayMs > Elapsed(at, t) then delayMs - Elapsed(at, t) else 0
  {
    assert at / NS_PER_MS <= t / NS_PER_MS;
    AgeWraps(at / NS_PER_MS, t / NS_PER_MS);
  }

  lemma AgeWraps(a: nat, b: nat)
    requires a <= b < a + U32
    ensures (b % U32 - a % U32) % U32 == b - a
  {
  }

  /** A candidate: long enough to be worth a call, and not flagged yet. */
  predicate Candidate(x: Slot) {
    !x.purged && x.sliceCount >= MEDIUM_PAGE_SLICES
  }

  /** What a pass at time `t` makes of the free spans, `freed` saying when each became free: it flags
      exactly the candidates that stayed free for the whole delay and that the OS takes; and the new
      deadline is when the first of the others will have. */
  lemma PassWaits(g: Slots, h: Slots, fl: seq<nat>, t: nat, opt: Purging, due: Option<nat>, freed: nat -> nat, j: nat)
    requires PassSoFar(g, h, fl, |fl|, Some(t), opt, due) && 0 <= opt.delay <= 0x7FFF_FFFF
    requires forall k | 0 <= k < |fl| && Candidate(g[fl[k]]) :: StampedAt(g[fl[k]], freed(fl[k]), t)
    requires j < |fl|
    ensures Candidate(g[fl[j]]) ==>
              (h[fl[j]].purged <==> Elapsed(freed(fl[j]), t) >= opt.delay && opt.grants(fl[j]))
    ensures !Candidate(g[fl[j]]) ==> h[fl[j]].purged == g[fl[j]].purged
    ensures Candidate(g[fl[j]]) && Elapsed(freed(fl[j]), t) < opt.delay ==>
              due.Some? && due.value <= t + (opt.delay - Elapsed(freed(fl[j]), t)) * NS_PER_MS
    ensures due.Some? ==> exists k :: 0 <= k < |fl| && Candidate(g[fl[k]]) && Elapsed(freed(fl[k]), t) < opt.delay
                                      && due.value == t + (opt.delay - Elapsed(freed(fl[k]), t)) * NS_PER_MS
  {
    hide Wait, Elapsed;
    forall k | 0 <= k < |fl| && Candidate(g[fl[k]])
      ensures Wait(Some(t), opt.delay, g[fl[k]].capacity)
              == if opt.delay > Elapsed(freed(fl[k]), t) then opt.delay - Elapsed(freed(fl[k]), t) else 0
    {
      WaitIs(freed(fl[k]), t, opt.delay, g[fl[k]].capacity);
    }
  }

  /** A forced pass offers every candidate and leaves no deadline. */
  lemma PassForced(g: Slots, h: Slots, fl: seq<nat>, opt: Purging, due: Option<nat>, j: nat)
    requires PassSoFar(g, h, fl, |fl|, None, opt, due) && j < |fl|
    ensures due.None? && h[fl[j]].purged == (g[fl[j]].purged || (Candidate(g[fl[j]]) && opt.grants(fl[j])))
  {
  }

  /** Which spans a pass at `now` flags: long enough, free for the whole delay, and granted. */
  ghost function Wanted(g: Slots, now: Option<nat>, opt: Purging): nat -> bool {
    (x: nat) => x < |g| && g[x].sliceCount >= MEDIUM_PAGE_SLICES
         && Wait(now, DelayMs(opt.delay), g[x].capacity) == 0 && opt.grants(x)
  }

  /** A candidate that a pass at `now` leaves for later. */
  predicate Waiting(x: Slot, now: Option<nat>, delayMs: nat) {
    !x.purged && x.sliceCount >= MEDIUM_PAGE_SLICES && Wait(now, delayMs, x.capacity) > 0
  }

  function DueAt(x: Slot, now: Option<nat>, delayMs: nat): nat {
    (if now.Some? then now.value else 0) + Wait(now, delayMs, x.capacity) * NS_PER_MS
  }

  function Sooner(a: Option<nat>, b: nat): nat {
    if a.Some? && a.value < b then a.value else b
  }

  /** `due` is when the first waiting span among the first `k` falls due, if any waits. */
  ghost predicate Earliest(g: Slots, fl: seq<nat>, k: nat, now: Option<nat>, delayMs: nat, due: Option<nat>)
    requires k <= |fl| && forall j | 0 <= j < |fl| :: fl[j] < |g|
  {
    && (forall j | 0 <= j < k && Waiting(g[fl[j]], now, delayMs) ::
          due.Some? && due.value <= DueAt(g[fl[j]], now, delayMs))
    && (due.Some? ==>
          (exists j :: 0 <= j < k && Waiting(g[fl[j]], now, delayMs) && 0 < due.value == DueAt(g[fl[j]], now, delayMs)))
  }

  lemma EarliestOne(g: Slots, fl: seq<nat>, k: nat, now: Option<nat>, delayMs: nat, due: Option<nat>, next: Option<nat>)
    requires k < |fl| && (forall j | 0 <= j < |fl| :: fl[j] < |g|) && Earliest(g, fl, k, now, delayMs, due)
    requires next == if Waiting(g[fl[k]], now, delayMs) then Some(Sooner(due, DueAt(g[fl[k]], now, delayMs))) else due
    ensures Earliest(g, fl, k + 1, now, delayMs, next)
  {
    if next.Some? {
      if Waiting(g[fl[k]], now, delayMs) && next.value == DueAt(g[fl[k]], now, delayMs) {
        assert 0 < next.value;
      } else {
        var j :| 0 <= j < k && Waiting(g[fl[j]], now, delayMs) && 0 < due.value == DueAt(g[fl[j]], now, delayMs);
        assert j < k + 1 && next == due;
      }
    }
  }

  /** A pass over the free list, `k` spans in. */
  ghost predicate PassSoFar(g: Slots, h: Slots, fl: seq<nat>, k: nat, now: Option<nat>, opt: Purging, due: Option<nat>) {
    && k <= |fl| && |h| == |g| && (forall j | 0 <= j < |fl| :: fl[j] < |g|)
    && (forall i | 0 <= i < |g| :: h[i] == g[i].(purged := h[i].purged))
    && (forall j | k <= j < |fl| :: h[fl[j]] == g[fl[j]])
    && Offered(g, h, fl, k, Wanted(g, now, opt)) && Earliest(g, fl, k, now, DelayMs(opt.delay), due)
  }

  lemma PassOne(g: Slots, head: nat, h: Slots, r: Slots, fl: seq<nat>, k: nat, now: Option<nat>, opt: Purging,
                due: Option<nat>, next: Option<nat>)
    requires PassSoFar(g, h, fl, k, now, opt, due) && k < |fl| && Linked(h, head, fl)
    requires r == if !h[fl[k]].purged && Wanted(h, now, opt)(fl[k]) then h[fl[k] := h[fl[k]].(purged := true)] else h
    requires next == if Waiting(h[fl[k]], now, DelayMs(opt.delay))
                     then Some(Sooner(due, DueAt(h[fl[k]], now, DelayMs(opt.delay)))) else due
    ensures PassSoFar(g, r, fl, k + 1, now, opt, next)
  {
    OfferedOne(g, head, h, r, fl, k, Wanted(g, now, opt));
    EarliestOne(g, fl, k, now, DelayMs(opt.delay), due, next);
  }

  /** A scheduled purge of the span `idx` just freed: stamped, then the deadline is started, or left
      alone, or, when it has passed, the pass runs over all candidates and sets the next one. */
  ghost predicate Scheduled(g: Slots, r: Slots, fl: seq<nat>, idx: nat, was: nat, now: nat, opt: Purging)
    requires idx < |g|
  {
    var h := g[idx := g[idx].(capacity := NowMs(opt.now))];
    if was == 0 then r == h && now == opt.now + opt.delay * NS_PER_MS
    else if opt.now < was then r == h && now == was
    else PassSoFar(h, r, fl, |fl|, Some(opt.now), opt, if now == 0 then None else Some(now))
  }

  /** The span just freed is stamped with the time, and keeps the stamp whatever the pass does. */
  lemma ScheduledStamp(g: Slots, r: Slots, fl: seq<nat>, idx: nat, was: nat, now: nat, opt: Purging, t: nat)
    requires idx < |g| && Scheduled(g, r, fl, idx, was, now, opt) && opt.now <= t && Elapsed(opt.now, t) < U32
    ensures |r| == |g| && StampedAt(r[idx], opt.now, t)
    ensures forall i | 0 <= i < |g| && i != idx :: r[i].capacity == g[i].capacity
  {
  }

  /** What `span_free` does about the memory of the free span `idx` it made, from the table `g`. */
  ghost predicate Considered(g: Slots, r: Slots, fl: seq<nat>, idx: nat, was: nat, now: nat, opt: Purging)
    requires idx < |g|
  {
    if g[idx].sliceCount < MEDIUM_PAGE_SLICES || opt.delay < 0 then r == g && now == was
    else if opt.delay == 0 then r == (if opt.grants(idx) then g[idx := g[idx].(purged := true)] else g) && now == was
    else Scheduled(g, r, fl, idx, was, now, opt)
  }

  class Segment {
    const pages: array<Slot>
    const pageOff: array<nat>
    var nextFree: nat
    var commitEnd: nat
    var usedPages: int
    const memIsZero: bool
    var purgedAny: bool
    var purgeExpire: nat
    var freeSpans: nat

    ghost var list: seq<nat>      // the free spans, in list order
    ghost var backed: set<int>    // slices with memory behind them
    ghost var handed: set<int>    // slices that were ever part of a span handed out
    ghost var bytes: int -> int   // what each byte of the segment reads as

    ghost function Table(): Layout
      reads `nextFree, `freeSpans, pages, pageOff
    {
      Layout(pages[..], pageOff[..], nextFree, freeSpans)
    }

    ghost function Live(): set<int>
      requires nextFree <= pages.Length
      reads `nextFree, pages
    {
      LiveSet(pages[..], nextFree)
    }

    ghost function Unused(): set<int>
      requires nextFree <= pages.Length
      reads `nextFree, pages
    {
      FreeSlices(pages[..], nextFree)
    }

    ghost predicate Arrays()
      reads this
    {
      pages.Length == pageOff.Length == SLICES
    }

    ghost predicate Valid()
      reads this, pages, pageOff
    {
      && Arrays() && Sized(Table())
      && TableOk(Table(), list, commitEnd, purgedAny, backed)
      && usedPages == |Live()|
      && handed == Range(HEADER, nextFree) && BytesOk(memIsZero, handed, bytes)
      && (memIsZero ==> Clean(pages[..], nextFree))
    }

    /** `segment_alloc`: header written, nothing carved; stale slots of a recycled chunk stay. */
    constructor (found: seq<Slot>, zero: bool, committed: bool, ghost present: set<int>, ghost content: int -> int)
      requires |found| == SLICES && BytesOk(zero, {}, content)
      requires zero ==> forall i | 0 <= i < SLICES :: found[i] == ZERO_SLOT
      requires 0 in present && (committed ==> Range(0, SLICES) <= present)
      ensures Valid() && fresh(pages) && fresh(pageOff)
      ensures nextFree == HEADER && Live() == {} && list == [] && handed == {} && memIsZero == zero
      ensures commitEnd == (if committed then SLICES else HEADER) && backed == present && bytes == content
      ensures usedPages == 0 && !purgedAny && purgeExpire == 0 && freeSpans == 0
    {
      pages := new Slot[SLICES](i requires 0 <= i < SLICES => if i < HEADER then ZERO_SLOT else found[i]);
      pageOff := new nat[SLICES](i => 0);
      nextFree, commitEnd := HEADER, if committed then SLICES else HEADER;
      usedPages, memIsZero, purgedAny, purgeExpire, freeSpans := 0, zero, false, 0, 0;
      list, backed, handed, bytes := [], present, {}, content;
    }

    // ----------------------------------------------------------------- the OS

    method OsCommit(a: nat, n: nat, granted: bool) returns (ok: bool)
      modifies this`backed
      ensures ok == granted
      ensures backed == if granted then old(backed) + Range(a, a + n) else old(backed)
    {
      ok := granted;
      if ok {
        backed := backed + Range(a, a + n);
      }
    }

    /** A purge that is granted decommits the range, or only resets it: what was in it is lost. */
    method OsPurge(a: nat, n: nat, decommits: bool, granted: bool) returns (ok: bool)
      modifies this`backed, this`bytes
      ensures ok == granted
      ensures backed == if granted && decommits then old(backed) - Range(a, a + n) else old(backed)
      ensures OnlyIn(old(bytes), bytes, Range(a, a + n)) && (!ok ==> bytes == old(bytes))
    {
      ok := granted;
      if ok && decommits {
        backed := backed - Range(a, a + n);
      }
      if ok {
        ghost var was := bytes;
        ghost var after: int -> int :| OnlyIn(was, after, Range(a, a + n));
        bytes := after;
      }
    }

    /** A client writes what it likes into the span it has. */
    ghost method ClientWrites(o: nat, after: int -> int)
      requires Valid() && o in Live() && OnlyIn(bytes, after, SpanSlices(pages[..], o))
      modifies this`bytes
      ensures Valid() && bytes == after
    {
      NextStarts(pages[..], nextFree, o);
      BytesKept(memIsZero, handed, bytes, after, SpanSlices(pages[..], o));
      bytes := after;
    }

    // -------------------------------------------------------- marking, linking

    /** The skipped rewrites below `from` would have stored what is there. */
    method SpanMark(idx: nat, len: nat, from: nat)
      requires Arrays() && 1 <= len && idx + len <= SLICES && 1 <= from
      requires Points(pages[..], pageOff[..], idx, if from < len then from else len)
      modifies pages, pageOff
      ensures pages[..] == Mark(old(pages[..]), idx, len)
      ensures pageOff[..] == MarkOff(old(pageOff[..]), idx, len)
    {
      var owner := PageOffFor(idx);
      ghost var g0, o0 := pages[..], pageOff[..];
      pages[idx] := pages[idx].(sliceOffset := 0, sliceCount := len, area := idx * SLICE_SIZE);
      pageOff[idx] := owner;
      var j := from;
      while j < len
        invariant from <= j
        invariant forall i | 0 <= i < SLICES ::
          pages[i] == (if i == idx then g0[i].(sliceOffset := 0, sliceCount := len, area := idx * SLICE_SIZE)
                       else if idx < i < idx + j && i < idx + len then g0[i].(sliceOffset := i - idx) else g0[i])
        invariant forall i | 0 <= i < SLICES ::
          pageOff[i] == if idx <= i < idx + j && i < idx + len then owner else o0[i]
      {
        pages[idx + j] := pages[idx + j].(sliceOffset := j);
        pageOff[idx + j] := owner;
        j := j + 1;
      }
    }

    method SpanMarkFree(idx: nat, len: nat, from: nat)
      requires Arrays() && HEADER <= nextFree <= SLICES && freeSpans < SLICES
      requires 1 <= len && idx + len <= SLICES && 1 <= from
      requires Points(pages[..], pageOff[..], idx, if from < len then from else len)
      modifies pages, pageOff, this`freeSpans
      ensures Table() == MarkFree(old(Table()), idx, len)
      ensures old(Sized(Table()) && Linked(pages[..], freeSpans, list)) && HEADER <= idx && idx !in list ==>
                Linked(pages[..], freeSpans, [idx] + list)
    {
      ghost var l := Table();
      if Sized(l) && Linked(l.g, l.head, list) && HEADER <= idx && idx !in list {
        MarkFreeLinked(l, list, idx, len);
      }
      SpanMark(idx, len, from);
      pages[idx] := pages[idx].(blockSize := 0, prev := 0, next := freeSpans);
      if freeSpans != 0 {
        pages[freeSpans] := pages[freeSpans].(prev := idx);
      }
      freeSpans := idx;
    }

    method SpanListRemove(span: nat)
      requires Arrays() && span < SLICES && pages[span].prev < SLICES && pages[span].next < SLICES
      modifies pages, this`freeSpans
      ensures Table() == Unlink(old(Table()), span)
      ensures old(Linked(pages[..], freeSpans, list)) && span in list ==> Linked(pages[..], freeSpans, Drop(list, span))
    {
      ghost var l := Table();
      if Linked(l.g, l.head, list) && span in list {
        UnlinkLinked(l, list, IndexOf(list, span));
      }
      var p, n := pages[span].prev, pages[span].next;
      if p == 0 {
        freeSpans := n;
      } else {
        pages[p] := pages[p].(next := n);
      }
      if n != 0 {
        pages[n] := pages[n].(prev := p);
      }
      pages[span] := pages[span].(next := 0, prev := 0);
    }

    // --------------------------------------------------- commit and re-commit

    /** A refused re-commit changes nothing; a granted one backs the whole span and clears its flag. */
    method SpanRecommit(idx: nat, len: nat, granted: bool) returns (ok: bool)
      requires Valid() && IsFree(pages[..], nextFree, idx) && len == pages[idx].sliceCount
      modifies pages, this`backed
      ensures Valid() && SpanSlices(pages[..], idx) == old(SpanSlices(pages[..], idx))
      ensures ok == (granted || !old(pages[idx].purged))
      ensures ok ==> !pages[idx].purged && backed >= old(backed) && SpanSlices(pages[..], idx) <= backed
      ensures ok ==> pages[..] == old(pages[..])[idx := old(pages[idx]).(purged := false)]
      ensures !ok ==> pages[..] == old(pages[..]) && backed == old(backed)
      ensures Live() == old(Live()) && Unused() == old(Unused())
    {
      if !pages[idx].purged {
        UnflaggedIsBacked(pages[..], nextFree, commitEnd, purgedAny, backed, idx);
        assert pages[..] == pages[..][idx := pages[idx].(purged := false)];
        return true;
      }
      ok := OsCommit(idx, len, granted);
      if ok {
        RecommitBack(pages[..], nextFree, commitEnd, purgedAny, old(backed), idx);
        ghost var g := pages[..];
        FlagsOk(Table(), g[idx := g[idx].(purged := false)], list);
        CleanAbove(memIsZero, Table(), Table().(g := g[idx := g[idx].(purged := false)]));
        pages[idx] := pages[idx].(purged := false);
        assert pages[..] == g[idx := g[idx].(purged := false)];
      }
    }

    /** The committed prefix doubles, by at most a step past the need, or grows to exactly the need,
        or does not change at all. */
    method CommitFrontier(need: nat, os: Commits) returns (ok: bool)
      requires Valid() && commitEnd < need <= SLICES
      modifies this`backed, this`commitEnd
      ensures Valid() && commitEnd >= old(commitEnd) && backed >= old(backed)
      ensures ok ==> need <= commitEnd <= need + old(commitEnd) && commitEnd - need < COMMIT_STEP_MAX_SLICES + 1
      ensures os.step ==> commitEnd >= SLICES || commitEnd >= old(commitEnd) + Min(old(commitEnd), COMMIT_STEP_MAX_SLICES)
      ensures ok && !os.step ==> commitEnd == need
      ensures !ok ==> commitEnd == old(commitEnd) && backed == old(backed)
      ensures ok <==> os.step || (os.exact && need < Min(old(commitEnd) + Min(old(commitEnd), COMMIT_STEP_MAX_SLICES), SLICES))
    {
      hide LayoutOk, BackOk, Clean, BytesOk, LiveSet, Sized;
      var have := commitEnd;
      var want := Min(Max(need, have + Min(have, COMMIT_STEP_MAX_SLICES)), SLICES);
      FrontierStep(have, need, want);
      FrontierBack(pages[..], nextFree, have, want, purgedAny, backed);
      FrontierBack(pages[..], nextFree, have, need, purgedAny, backed);
      hide Min, Max, Range;
      var end := want;
      ok := OsCommit(have, want - have, os.step);
      if !ok && want > need {
        ok := OsCommit(have, need - have, os.exact);
        end := need;
      }
      if ok {
        commitEnd := end;
      }
    }

    // ------------------------------------------------------------- span_alloc

    /** What a call that hands out nothing leaves: everything. */
    twostate predicate Untouched()
      reads this, pages, pageOff
    {
      && Table() == old(Table()) && list == old(list)
      && usedPages == old(usedPages) && backed == old(backed) && handed == old(handed) && commitEnd == old(commitEnd)
      && purgedAny == old(purgedAny) && purgeExpire == old(purgeExpire)
    }

    /** Nothing changed, or the span `r` was handed out, backed, and nothing else live was touched. */
    twostate predicate Outcome(r: nat, slices: nat, bs: nat)
      requires old(Sized(Table())) && Sized(Table())
      reads this, pages, pageOff
    {
      if r == 0 then Untouched()
      else HandsOut(old(Table()), Table(), r, slices, bs, backed) && handed == old(handed) + Range(r, r + slices)
    }

    /** Mark the tail of a split span free, stamped like the span. */
    method GiveBack(m: nat, len: nat, stamp: nat)
      requires Arrays() && Sized(Table()) && HEADER <= m && 1 <= len && m + len <= SLICES && freeSpans < SLICES
      modifies pages, pageOff, this`freeSpans
      ensures Table() == Remainder(old(Table()), m, len, stamp)
    {
      SpanMarkFree(m, len, 1);
      pages[m] := pages[m].(capacity := stamp);
    }

    /** Mark the front and store the caller's block size; its interior needs no rewriting. */
    method MarkFront(s: nat, slices: nat, bs: nat)
      requires Arrays() && Sized(Table()) && 1 <= slices && s + slices <= SLICES && Points(pages[..], pageOff[..], s, slices)
      modifies pages, pageOff
      ensures Table() == HandedOut(old(Table()), s, slices, bs)
    {
      SpanMark(s, slices, slices);
      pages[s] := pages[s].(blockSize := bs);
    }

    /** Unlink `s`, give its tail back, mark its front. */
    method SplitFront(s: nat, slices: nat, bs: nat)
      requires Arrays() && CanTake(Table(), s, slices) && Points(pages[..], pageOff[..], s, slices)
      modifies pages, pageOff, this`freeSpans
      ensures Table() == TakeFront(old(Table()), s, slices, bs)
    {
      hide Unlink, HandedOut, Remainder, Points;
      var len, stamp := pages[s].sliceCount, pages[s].capacity;
      UnlinkPoints(Table(), s, slices);
      SpanListRemove(s);
      ghost var l1 := Table();
      if len > slices {
        GiveBack(s + slices, len - slices, stamp);
        RemainderPoints(l1, s, slices, s + slices, len - slices, stamp);
      }
      MarkFront(s, slices, bs);
    }

    /** The table after the front of `s` is handed out, and all it promises. */
    method SplitSpan(s: nat, slices: nat, bs: nat)
      requires Arrays() && TableOk(Table(), list, commitEnd, purgedAny, backed)
      requires s in list && 1 <= slices <= pages[s].sliceCount && bs > 0 && !pages[s].purged
      modifies pages, pageOff, this`freeSpans, this`list
      ensures Sized(Table()) && TableOk(Table(), list, commitEnd, purgedAny, backed)
      ensures HandsOut(old(Table()), Table(), s, slices, bs, backed)
      ensures Range(s, s + slices) <= old(Unused())
    {
      hide BackOk, Tiled, OffsAgree, Coalesced, ListsFree, HandsOut, LiveSet, FreeSlices;
      ghost var end := s + pages[s].sliceCount;
      TakeHandsOut(Table(), list, s, slices, bs, commitEnd, purgedAny, backed);
      InteriorPoints(Table(), list, s, slices);
      SplitFront(s, slices, bs);
      list := TakenList(list, s, s + slices, end);
    }

    /** Hand out the front of the backed free span `s`. */
    method TakeSpan(s: nat, slices: nat, bs: nat)
      requires Valid() && s in list && 1 <= slices <= pages[s].sliceCount && bs > 0 && !pages[s].purged
      modifies pages, pageOff, this`freeSpans, this`usedPages, this`list, this`handed
      ensures Valid() && nextFree == old(nextFree)
      ensures HandsOut(old(Table()), Table(), s, slices, bs, backed)
      ensures Range(s, s + slices) <= old(Unused()) && handed == old(handed) + Range(s, s + slices)
    {
      hide TableOk, HandsOut, SameAbove, Clean, BytesOk, LiveSet, FreeSlices, Range;
      ghost var l := Table();
      SplitSpan(s, slices, bs);
      HandsOutAbove(l, Table(), s, slices, bs, backed);
      HandedStays(l.g, l.next, s, slices);
      CleanAbove(memIsZero, l, Table());
      usedPages := usedPages + 1;
      handed := handed + Range(s, s + slices);
    }

    /** Carve at the cursor; the slots of a recycled chunk are cleared first. */
    method MarkBump(slices: nat, bs: nat)
      requires Arrays() && HEADER <= nextFree && 1 <= slices && nextFree + slices <= SLICES
      modifies pages, pageOff, this`nextFree
      ensures Table() == Bump(old(Table()), slices, bs, memIsZero)
    {
      var idx := nextFree;
      if !memIsZero {
        forall i | idx <= i < idx + slices {
          pages[i] := ZERO_SLOT;
        }
        assert pages[..] == Zeroed(old(pages[..]), idx, slices);
      }
      nextFree := idx + slices;
      SpanMark(idx, slices, 1);
      pages[idx] := pages[idx].(blockSize := bs);
    }

    method GrowTable(slices: nat, bs: nat, ghost l: Layout)
      requires Arrays() && l == Table() && TableOk(Table(), list, commitEnd, purgedAny, backed)
      requires 1 <= slices && nextFree + slices <= commitEnd && bs > 0
      modifies pages, pageOff, this`nextFree
      ensures nextFree == l.next + slices && Sized(Table()) && TableOk(Table(), list, commitEnd, purgedAny, backed)
      ensures HandsOut(l, Table(), l.next, slices, bs, backed)
    {
      BumpGrown(l, slices, bs, memIsZero);
      GrownTableOk(l, list, Bump(l, slices, bs, memIsZero), slices, bs, commitEnd, purgedAny, backed);
      MarkBump(slices, bs);
    }

    method BumpSpan(slices: nat, bs: nat, ghost l: Layout)
      requires Valid() && l == Table() && 1 <= slices && nextFree + slices <= commitEnd && bs > 0
      modifies pages, pageOff, this`nextFree, this`usedPages, this`handed
      ensures Valid() && nextFree == old(nextFree) + slices
      ensures HandsOut(l, Table(), old(nextFree), slices, bs, backed)
      ensures handed == old(handed) + Range(old(nextFree), old(nextFree) + slices)
    {
      hide TableOk, HandsOut, SameAbove, Clean, BytesOk, LiveSet, FreeSlices, Range;
      BytesMore(memIsZero, nextFree, slices, bytes);
      usedPages := usedPages + 1;
      handed := handed + Range(nextFree, nextFree + slices);
      GrowTable(slices, bs, l);
      HandsOutAbove(l, Table(), l.next, slices, bs, backed);
      CleanAbove(memIsZero, l, Table());
    }

    /** Re-commit the span found, all of it, before its front is split off. */
    method ReuseSpan(s: nat, slices: nat, bs: nat, granted: bool) returns (r: nat)
      requires Valid() && s in list && 1 <= slices <= pages[s].sliceCount && bs > 0
      modifies pages, pageOff, this`freeSpans, this`usedPages, this`list, this`handed, this`backed
      ensures Valid() && nextFree == old(nextFree)
      ensures r == if granted || !old(pages[s].purged) then s else 0
      ensures Outcome(r, slices, bs)
    {
      ListedSpan(Table(), list, s);
      var idx := pages[s].area / SLICE_SIZE;
      var ok := SpanRecommit(idx, pages[s].sliceCount, granted);
      r := 0;
      if ok {
        assert Table() == old(Table()).(g := old(pages[..])[s := old(pages[s]).(purged := false)]);
        TakeSpan(s, slices, bs);
        HandsOutUnflagged(old(Table()), Table(), s, slices, bs, backed);
        r := s;
        assert Outcome(r, slices, bs);
      } else {
        assert Table() == old(Table());
        assert Outcome(r, slices, bs);
      }
    }

    /** Memory is granted up to slice `need`. */
    ghost predicate CanReach(need: nat, os: Commits)
      reads this
    {
      need <= commitEnd || os.step
      || (os.exact && need < Min(commitEnd + Min(commitEnd, COMMIT_STEP_MAX_SLICES), SLICES))
    }

    method Reach(need: nat, os: Commits) returns (ok: bool)
      requires Valid() && need <= SLICES
      modifies this`backed, this`commitEnd
      ensures Valid() && (ok ==> need <= commitEnd)
      ensures ok == old(CanReach(need, os))
      ensures !ok ==> backed == old(backed) && commitEnd == old(commitEnd)
    {
      ok := true;
      if need > commitEnd {
        ok := CommitFrontier(need, os);
      }
    }

    /** Whether the never-carved slices can serve: room, and memory granted up to there. */
    ghost predicate CanBump(slices: nat, os: Commits)
      reads this
    {
      nextFree + slices <= SLICES && CanReach(nextFree + slices, os)
    }

    method CarveSpan(slices: nat, bs: nat, os: Commits) returns (r: nat)
      requires Valid() && 1 <= slices && bs > 0
      modifies pages, pageOff, this`nextFree, this`usedPages, this`handed, this`backed, this`commitEnd
      ensures Valid()
      ensures r == if old(CanBump(slices, os)) then old(nextFree) else 0
      ensures Outcome(r, slices, bs)
    {
      hide TableOk, HandsOut, Clean, Range, LiveSet;
      ghost var l := Table();
      var ok := nextFree + slices <= SLICES;
      if ok {
        ok := Reach(nextFree + slices, os);
      }
      assert Table() == l;
      if ok {
        r := nextFree;
        BumpSpan(slices, bs, l);
        assert handed == old(handed) + Range(r, r + slices);
      } else {
        r := 0;
        assert Untouched();
      }
    }

    /** First fit if any span has room, and then no other is tried; else the cursor. */
    ghost function Choice(slices: nat, os: Commits): nat
      requires Valid()
      reads this, pages, pageOff
    {
      var s := Pick(pages[..], list, slices);
      if s != 0 then (if os.recommit || !pages[s].purged then s else 0)
      else if CanBump(slices, os) then nextFree else 0
    }

    /** What that comes to: the first span with room, and it alone, unless it needs memory that is refused;
        with none, the cursor, if there is room and memory is granted that far. */
    lemma ChoiceIs(slices: nat, os: Commits, k: nat)
      requires Valid()
      ensures FirstFit(pages[..], list, slices, k) ==>
                Choice(slices, os) == if os.recommit || !pages[list[k]].purged then list[k] else 0
      ensures (forall j | 0 <= j < |list| :: pages[list[j]].sliceCount < slices) ==>
                Choice(slices, os) == if nextFree + slices <= SLICES && CanReach(nextFree + slices, os) then nextFree else 0
    {
      hide BackOk, BytesOk, Clean, LiveSet, Tiled, OffsAgree, ListsFree, Coalesced;
      if FirstFit(pages[..], list, slices, k) {
        PickFirst(pages[..], list, slices, k);
      }
      PickNone(pages[..], list, slices);
    }

    /** Serve from the span found, or from the cursor when there is none. */
    method Serve(s: nat, slices: nat, bs: nat, os: Commits) returns (r: nat)
      requires Valid() && 1 <= slices && bs > 0 && s == Pick(pages[..], list, slices)
      modifies this, pages, pageOff
      ensures Valid()
      ensures r == old(Choice(slices, os))
      ensures Outcome(r, slices, bs)
      ensures bytes == old(bytes)
    {
      if s != 0 {
        r := ReuseSpan(s, slices, bs, os.recommit);
      } else {
        r := CarveSpan(slices, bs, os);
      }
    }

    /** The first free span in list order with room, else never-carved slices; `bs` is the block
        size the caller stores. 0 is a failed allocation, and it changes nothing. */
    method SpanAlloc(slices: nat, bs: nat, os: Commits) returns (r: nat, zero: bool)
      requires Valid() && 1 <= slices && bs > 0
      modifies this, pages, pageOff
      ensures Valid()
      ensures r == old(Choice(slices, os))
      ensures Outcome(r, slices, bs)
      ensures zero <==> r != 0 && memIsZero && r == old(nextFree)
      ensures zero ==> Range(r, r + slices) !! old(handed) && ZeroAt(bytes, r * SLICE_SIZE, slices * SLICE_SIZE)
      ensures bytes == old(bytes)
    {
      var s := freeSpans;
      ghost var k := 0;
      while s != 0 && pages[s].sliceCount < slices
        invariant 0 <= k <= |list| && s == Link(list, k)
        invariant Pick(pages[..], list, slices) == Pick(pages[..], list[k..], slices)
        decreases |list| - k
      {
        assert LinkAt(pages[..], list, k);
        assert list[k..][0] == s && list[k..][1..] == list[k + 1..];
        s, k := pages[s].next, k + 1;
      }
      assert s != 0 ==> list[k..][0] == s;
      var virgin := nextFree;
      r := Serve(s, slices, bs, os);
      zero := r != 0 && s == 0 && memIsZero;
      if zero {
        ZeroRun(old(handed), bytes, r, slices);
      }
    }

    // -------------------------------------------------------------- span_free

    /** Take the free neighbour `x` off the list. */
    method Unhook(x: nat, ghost l: Layout, ghost page: nat)
      requires Arrays() && Linked(pages[..], freeSpans, list) && x in list
      requires Scrubbed(l.g, pages[..], page)
      modifies pages, this`freeSpans, this`list
      ensures Linked(pages[..], freeSpans, list) && Scrubbed(l.g, pages[..], page)
      ensures forall y: nat :: y in list <==> y in old(list) && y != x
    {
      ghost var t := Table();
      UnlinkLinked(t, list, IndexOf(list, x));
      UnlinkShape(t, x);
      forall y: nat ensures y in Drop(list, x) <==> y in list && y != x {
        DropHas(t.g, t.head, list, x, y);
      }
      SpanListRemove(x);
      list := Drop(list, x);
    }

    method AbsorbRight(right: nat, ghost l: Layout, ghost page: nat) returns (more: nat, flag: bool)
      requires Arrays() && Sized(l) && l.next == nextFree && Linked(pages[..], freeSpans, list) && Scrubbed(l.g, pages[..], page)
      requires right != page && (right < nextFree && l.g[right].blockSize == 0 ==> right in list)
      modifies pages, this`freeSpans, this`list
      ensures Linked(pages[..], freeSpans, list) && Scrubbed(l.g, pages[..], page)
      ensures if right < nextFree && l.g[right].blockSize == 0
              then more == l.g[right].sliceCount && flag == l.g[right].purged
                   && forall y: nat :: y in list <==> y in old(list) && y != right
              else more == 0 && !flag && list == old(list)
    {
      more, flag := 0, false;
      if right < nextFree && pages[right].blockSize == 0 {
        Unhook(right, l, page);
        more, flag := pages[right].sliceCount, pages[right].purged;
      }
    }

    method AbsorbLeft(page: nat, ghost l: Layout) returns (start: nat, flag: bool)
      requires Arrays() && Sized(l) && l.next == nextFree && Linked(pages[..], freeSpans, list) && Scrubbed(l.g, pages[..], page)
      requires HEADER <= page < l.next && (page > HEADER ==> 0 <= Owner(l.g, page - 1) < page)
      requires LeftEdge(l, page) != page ==> LeftEdge(l, page) in list
      modifies pages, this`freeSpans, this`list
      ensures Linked(pages[..], freeSpans, list) && Scrubbed(l.g, pages[..], page)
      ensures start == LeftEdge(l, page)
      ensures if start != page
              then flag == l.g[start].purged && forall y: nat :: y in list <==> y in old(list) && y != start
              else !flag && list == old(list)
    {
      start, flag := page, false;
      if page > HEADER {
        var left := page - 1 - pages[page - 1].sliceOffset;
        if pages[left].blockSize == 0 {
          Unhook(left, l, page);
          start, flag := left, pages[left].purged;
        }
      }
    }

    method AbsorbBoth(page: nat, ghost l: Layout) returns (idx: nat, end: nat, merged: bool, ghost fl1: seq<nat>)
      requires Arrays() && Sized(l) && l.next == nextFree && Linked(pages[..], freeSpans, list) && Scrubbed(l.g, pages[..], page)
      requires HEADER <= page < l.next && (page > HEADER ==> 0 <= Owner(l.g, page - 1) < page)
      requires page < End(l.g, page) <= l.next
      requires RightIn(l, page) ==> End(l.g, page) in list
      requires LeftEdge(l, page) != page ==> LeftEdge(l, page) in list && LeftEdge(l, page) < page
      modifies pages, this`freeSpans, this`list
      ensures Linked(pages[..], freeSpans, list) && Scrubbed(l.g, pages[..], page)
      ensures idx == LeftEdge(l, page) && end == RightEdge(l, page) && merged == NeighbourFlag(l, page)
      ensures if RightIn(l, page) then forall y: nat :: y in fl1 <==> y in old(list) && y != End(l.g, page)
              else fl1 == old(list)
      ensures if idx != page then forall y: nat :: y in list <==> y in fl1 && y != idx else list == fl1
    {
      var right := page + pages[page].sliceCount;
      var more, r := AbsorbRight(right, l, page);
      fl1 := list;
      var f;
      idx, f := AbsorbLeft(page, l);
      end, merged := right + more, r || f;
    }

    /** Scrub the span and take its free neighbours off the list: the extent to mark, and whether
        a neighbour was flagged purged. */
    method Absorb(page: nat) returns (idx: nat, end: nat, merged: bool)
      requires Arrays() && LayoutOk(Table(), list) && IsLive(pages[..], nextFree, page)
      modifies pages, this`freeSpans, this`list
      ensures Absorbed(old(Table()), old(list), Table(), list, page, idx, end)
      ensures End(old(Table()).g, page) <= nextFree && merged == NeighbourFlag(old(Table()), page)
      ensures idx == LeftEdge(old(Table()), page) && end == RightEdge(old(Table()), page)
    {
      ghost var l, fl := Table(), list;
      EdgesMerge(l, fl, page);
      ExtentStarts(l, fl, page);
      pages[page] := pages[page].(blockSize := 0, capacity := 0);
      SameLinked(l.g, pages[..], freeSpans, list);
      ghost var fl1;
      idx, end, merged, fl1 := AbsorbBoth(page, l);
      AbsorbedFrom(l, fl, Table(), fl1, list, page);
    }

    /** Mark the absorbed extent free, skipping the slots below `from`. */
    method MarkUnion(idx: nat, end: nat, from: nat, ghost l: Layout, ghost fl: seq<nat>, ghost page: nat)
      requires Arrays() && Absorbed(l, fl, Table(), list, page, idx, end)
      requires 1 <= from && idx + from <= end && Points(pages[..], pageOff[..], idx, from)
      modifies pages, pageOff, this`freeSpans, this`list
      ensures LayoutOk(Table(), list) && Merged(l, Table(), page, idx, end)
    {
      hide MarkFree, LayoutOk, Merged, Linked, Scrubbed, Tiled, OffsAgree, ListsFree, Coalesced;
      ghost var k, fl2 := Table(), list;
      SpanMarkFree(idx, end - idx, from);
      list := [idx] + list;
      MergedIs(l, fl, k, fl2, page, idx, end, Table());
    }

    /** Mark the union of the freed span and its free neighbours. */
    method MarkMerged(page: nat) returns (idx: nat, len: nat, merged: bool)
      requires Arrays() && LayoutOk(Table(), list) && IsLive(pages[..], nextFree, page)
      modifies pages, pageOff, this`freeSpans, this`list
      ensures LayoutOk(Table(), list) && HEADER <= idx < SLICES && Merged(old(Table()), Table(), page, idx, idx + len)
      ensures MergeOf(old(Table()).g, nextFree, idx, idx + len, page)
      ensures End(old(Table()).g, page) <= nextFree && merged == NeighbourFlag(old(Table()), page)
      ensures idx == LeftEdge(old(Table()), page) && idx + len == RightEdge(old(Table()), page)
    {
      ghost var l, fl := Table(), list;
      var freed := pages[page].sliceCount;
      var end;
      idx, end, merged := Absorb(page);
      len := end - idx;
      SkippedPoints(l, fl, Table(), page, idx, end);
      MarkUnion(idx, end, if idx == page then freed else page - idx, l, fl, page);
    }

    // ---------------------------------------------------------------- purging

    /** Ask the OS to drop the memory of the free span `idx`, and flag it if it did. */
    method PurgeSpan(idx: nat, decommits: bool, granted: bool) returns (ok: bool)
      requires Valid() && IsFree(pages[..], nextFree, idx)
      modifies pages, this`backed, this`bytes, this`purgedAny
      ensures Valid() && ok == granted
      ensures pages[..] == if ok then old(pages[..])[idx := old(pages[idx]).(purged := true)] else old(pages[..])
      ensures backed == if ok && decommits then old(backed) - Range(idx, End(old(pages[..]), idx)) else old(backed)
      ensures Live() == old(Live())
      ensures Unused() == old(Unused()) && OnlyIn(old(bytes), bytes, Unused())
    {
      ghost var l, was, b0 := Table(), backed, bytes;
      FreeSpanSlices(pages[..], nextFree, idx);
      ok := OsPurge(idx, pages[idx].sliceCount, decommits, granted);
      BytesKept(memIsZero, handed, b0, bytes, Unused());
      if ok {
        PurgedTable(l, list, idx, commitEnd, purgedAny, was, backed);
        CleanAbove(memIsZero, l, PurgeFlag(l, idx));
        pages[idx] := pages[idx].(purged := true);
        purgedAny := true;
        assert Table() == PurgeFlag(l, idx);
      }
    }

    // ------------------------------------------------------- span_free, whole

    method ReleaseTable(page: nat, ghost l: Layout) returns (idx: nat, len: nat)
      requires Arrays() && l == Table() && TableOk(l, list, commitEnd, purgedAny, backed) && IsLive(l.g, l.next, page)
      modifies pages, pageOff, this`freeSpans, this`list
      ensures Sized(Table()) && TableOk(Table(), list, commitEnd, purgedAny, backed) && Freed(l, Table(), page) && SameAbove(l, Table())
      ensures IsFree(pages[..], nextFree, idx) && len == pages[idx].sliceCount && idx <= page < idx + len
      ensures Reflagged(l, pages[..], page, idx)
    {
      hide Tiled, OffsAgree, Linked, Coalesced, BackOk, Kept, MergeSizes, Recut;
      ghost var fl := list;
      var merged;
      idx, len, merged := MarkMerged(page);
      ghost var r := Table();
      if merged {
        pages[idx] := pages[idx].(purged := true);
      }
      assert pages[..] == Flagged(r, idx, merged).g;
      ReleaseOk(l, fl, r, list, page, idx, len, merged, commitEnd, purgedAny, backed, Table());
    }

    /** Give the span up: its slices and its free neighbours' become one free span, whose flag is
        raised if any part's was. */
    method Release(page: nat) returns (idx: nat, len: nat)
      requires Valid() && page in Live()
      modifies pages, pageOff, this`freeSpans, this`list, this`usedPages
      ensures Valid() && Freed(old(Table()), Table(), page)
      ensures IsFree(pages[..], nextFree, idx) && len == pages[idx].sliceCount && idx <= page < idx + len
      ensures Reflagged(old(Table()), pages[..], page, idx)
    {
      hide TableOk, Kept, SameAbove, Clean, BytesOk, Range;
      ghost var l := Table();
      idx, len := ReleaseTable(page, l);
      usedPages := usedPages - 1;
      CleanAbove(memIsZero, l, Table());
    }

    /** Offer the free span `s` to the OS if `want`, unless it is flagged already. */
    method Offer(s: nat, want: bool, decommits: bool, granted: bool, ghost g: Slots, ghost was: set<int>) returns (ok: bool)
      requires Valid() && IsFree(pages[..], nextFree, s) && OnlyPurged(g, was, pages[..], backed, nextFree)
      modifies pages, this`backed, this`bytes, this`purgedAny
      ensures Valid() && OnlyPurged(g, was, pages[..], backed, nextFree)
      ensures ok == (!old(pages[s].purged) && want && granted)
      ensures pages[..] == if ok then old(pages[..])[s := old(pages[s]).(purged := true)] else old(pages[..])
      ensures Unused() == old(Unused()) && OnlyIn(old(bytes), bytes, Unused())
    {
      ok := false;
      if !pages[s].purged && want {
        ghost var h, b1 := pages[..], backed;
        ok := PurgeSpan(s, decommits, granted);
        if ok {
          PurgedOnce(g, was, h, b1, nextFree, s, backed);
        }
      }
    }

    /** The purge a free makes at once under a zero delay. */
    method PurgeNow(idx: nat, opt: Purging)
      requires Valid() && IsFree(pages[..], nextFree, idx)
      modifies pages, this`backed, this`bytes, this`purgedAny
      ensures Valid() && OnlyPurged(old(pages[..]), old(backed), pages[..], backed, nextFree)
      ensures pages[..] == if opt.grants(idx) then old(pages[..])[idx := old(pages[idx]).(purged := true)] else old(pages[..])
      ensures Unused() == old(Unused()) && OnlyIn(old(bytes), bytes, Unused())
    {
      ghost var h, b1 := pages[..], backed;
      var ok := PurgeSpan(idx, opt.decommits, opt.grants(idx));
      if ok {
        PurgedOnce(h, b1, h, b1, nextFree, idx, backed);
      }
    }

    /** `purge_free_spans`: every free span that is not flagged is offered to the OS, whatever its length. */
    method PurgeFreeSpans(opt: Purging)
      requires Valid()
      modifies pages, this`backed, this`bytes, this`purgedAny
      ensures Valid() && OnlyPurged(old(pages[..]), old(backed), pages[..], backed, nextFree)
      ensures Offered(old(pages[..]), pages[..], list, |list|, opt.grants)
      ensures Unused() == old(Unused()) && OnlyIn(old(bytes), bytes, Unused())
    {
      ghost var g, was, b0, u0 := pages[..], backed, bytes, Unused();
      var s := freeSpans;
      ghost var k := 0;
      while s != 0
        invariant Valid() && OnlyPurged(g, was, pages[..], backed, nextFree) && 0 <= k <= |list| && s == Link(list, k)
        invariant Unused() == u0 && OnlyIn(b0, bytes, u0)
        invariant Offered(g, pages[..], list, k, opt.grants)
        decreases |list| - k
      {
        assert LinkAt(pages[..], list, k);
        ghost var h := pages[..];
        var ok := Offer(s, true, opt.decommits, opt.grants(s), g, was);
        OfferedOne(g, freeSpans, h, pages[..], list, k, opt.grants);
        s, k := pages[s].next, k + 1;
      }
    }

    /** One candidate of a pass: offer it, or note when it falls due. */
    method Consider(s: nat, now: Option<nat>, opt: Purging, due: Option<nat>, ghost g: Slots, ghost was: set<int>)
      returns (next: Option<nat>)
      requires Valid() && IsFree(pages[..], nextFree, s) && OnlyPurged(g, was, pages[..], backed, nextFree)
      modifies pages, this`backed, this`bytes, this`purgedAny
      ensures Valid() && OnlyPurged(g, was, pages[..], backed, nextFree)
      ensures pages[..] == if !old(pages[s]).purged && Wanted(old(pages[..]), now, opt)(s)
                           then old(pages[..])[s := old(pages[s]).(purged := true)] else old(pages[..])
      ensures next == if Waiting(old(pages[s]), now, DelayMs(opt.delay))
                      then Some(Sooner(due, DueAt(old(pages[s]), now, DelayMs(opt.delay)))) else due
      ensures Unused() == old(Unused()) && OnlyIn(old(bytes), bytes, Unused())
    {
      next := due;
      var wait := Wait(now, DelayMs(opt.delay), pages[s].capacity);
      var big := pages[s].sliceCount >= MEDIUM_PAGE_SLICES;
      if now.Some? && wait > 0 && big && !pages[s].purged {
        next := Some(Sooner(next, now.value + wait * NS_PER_MS));
      }
      var ok := Offer(s, big && wait == 0, opt.decommits, opt.grants(s), g, was);
    }

    method PassStep(s: nat, now: Option<nat>, opt: Purging, due: Option<nat>, ghost g: Slots, ghost was: set<int>, ghost k: nat)
      returns (after: nat, next: Option<nat>)
      requires Valid() && OnlyPurged(g, was, pages[..], backed, nextFree)
      requires k < |list| && s == list[k] && PassSoFar(g, pages[..], list, k, now, opt, due)
      modifies pages, this`backed, this`bytes, this`purgedAny
      ensures Valid() && OnlyPurged(g, was, pages[..], backed, nextFree)
      ensures PassSoFar(g, pages[..], list, k + 1, now, opt, next) && after == Link(list, k + 1)
      ensures Unused() == old(Unused()) && OnlyIn(old(bytes), bytes, Unused())
    {
      ghost var h := pages[..];
      next := Consider(s, now, opt, due, g, was);
      PassOne(g, freeSpans, h, pages[..], list, k, now, opt, due, next);
      assert LinkAt(pages[..], list, k);
      after := pages[s].next;
    }

    method Pass(now: Option<nat>, opt: Purging) returns (next: Option<nat>)
      requires Valid()
      modifies pages, this`backed, this`bytes, this`purgedAny
      ensures Valid() && OnlyPurged(old(pages[..]), old(backed), pages[..], backed, nextFree)
      ensures PassSoFar(old(pages[..]), pages[..], list, |list|, now, opt, next)
      ensures Unused() == old(Unused()) && OnlyIn(old(bytes), bytes, Unused())
    {
      hide BackOk, Clean, BytesOk, Coalesced, Tiled, OffsAgree, ListsFree, LiveSet, FreeSlices;
      ghost var g, was, b0, u0 := pages[..], backed, bytes, Unused();
      next := None;
      var s := freeSpans;
      ghost var k := 0;
      while s != 0
        invariant Valid() && OnlyPurged(g, was, pages[..], backed, nextFree)
        invariant PassSoFar(g, pages[..], list, k, now, opt, next) && s == Link(list, k)
        invariant Unused() == u0 && OnlyIn(b0, bytes, u0)
        decreases |list| - k
      {
        s, next := PassStep(s, now, opt, next, g, was, k);
        k := k + 1;
      }
    }

    /** `purge_candidates`: the spans worth a call that have been free for the whole delay are offered;
        the deadline becomes the time the first of those still waiting falls due, or none. */
    method PurgeCandidates(now: Option<nat>, opt: Purging)
      requires Valid()
      modifies pages, this`backed, this`bytes, this`purgedAny, this`purgeExpire
      ensures Valid() && OnlyPurged(old(pages[..]), old(backed), pages[..], backed, nextFree)
      ensures PassSoFar(old(pages[..]), pages[..], list, |list|, now, opt,
                        if purgeExpire == 0 then None else Some(purgeExpire))
      ensures Unused() == old(Unused()) && OnlyIn(old(bytes), bytes, Unused())
    {
      var next := Pass(now, opt);
      purgeExpire := match next case None => 0 case Some(t) => t;
    }

    /** `purge_scheduled`: nothing before the deadline, unless forced. */
    method PurgeScheduled(now: Option<nat>, opt: Purging)
      requires Valid()
      modifies pages, this`backed, this`bytes, this`purgedAny, this`purgeExpire
      ensures Valid() && OnlyPurged(old(pages[..]), old(backed), pages[..], backed, nextFree)
      ensures old(purgeExpire) == 0 || (now.Some? && now.value < old(purgeExpire)) ==>
                pages[..] == old(pages[..]) && backed == old(backed) && purgeExpire == old(purgeExpire)
      ensures old(purgeExpire) != 0 && (now.None? || now.value >= old(purgeExpire)) ==>
                PassSoFar(old(pages[..]), pages[..], list, |list|, now, opt,
                          if purgeExpire == 0 then None else Some(purgeExpire))
      ensures Unused() == old(Unused()) && OnlyIn(old(bytes), bytes, Unused())
    {
      if purgeExpire != 0 && (now.None? || now.value >= purgeExpire) {
        PurgeCandidates(now, opt);
      }
    }

    /** Stamp the span with the time it became free. */
    method Stamp(idx: nat, now: nat)
      requires Valid() && IsFree(pages[..], nextFree, idx)
      modifies pages
      ensures Valid() && pages[..] == old(pages[..])[idx := old(pages[idx]).(capacity := NowMs(now))]
      ensures Unused() == old(Unused())
    {
      ghost var g := pages[..];
      ghost var h := g[idx := g[idx].(capacity := NowMs(now))];
      FlagsOk(Table(), h, list);
      RaiseBack(g, h, nextFree, commitEnd, purgedAny, backed);
      CleanAbove(memIsZero, Table(), Table().(g := h));
      pages[idx] := pages[idx].(capacity := NowMs(now));
      assert pages[..] == h;
    }

    /** `schedule_purge`: stamp the span just freed, then start the deadline or run the due pass. */
    method SchedulePurge(idx: nat, opt: Purging)
      requires Valid() && IsFree(pages[..], nextFree, idx) && opt.delay > 0
      modifies pages, this`backed, this`bytes, this`purgedAny, this`purgeExpire
      ensures Valid() && OnlyPurged(old(pages[..]), old(backed), pages[..], backed, nextFree)
      ensures !old(pages[idx].purged) ==> !pages[idx].purged
      ensures Scheduled(old(pages[..]), pages[..], list, idx, old(purgeExpire), purgeExpire, opt)
      ensures old(purgeExpire) == 0 || opt.now < old(purgeExpire) ==> backed == old(backed)
      ensures Unused() == old(Unused()) && OnlyIn(old(bytes), bytes, Unused())
    {
      ghost var g, was := pages[..], backed;
      Stamp(idx, opt.now);
      ghost var h := pages[..];
      if purgeExpire == 0 {
        purgeExpire := opt.now + opt.delay * NS_PER_MS;
      } else if opt.now >= purgeExpire {
        PurgeCandidates(Some(opt.now), opt);
        JustFreedStays(h, pages[..], freeSpans, list, nextFree, idx, opt);
      }
      OnlyPurgedStamped(g, h, was, pages[..], backed, nextFree);
    }

    /** A zero delay purges at once, a positive one schedules. */
    method PurgeFreed(idx: nat, opt: Purging)
      requires Valid() && IsFree(pages[..], nextFree, idx) && opt.delay >= 0
      modifies pages, this`backed, this`bytes, this`purgedAny, this`purgeExpire
      ensures Valid() && OnlyPurged(old(pages[..]), old(backed), pages[..], backed, nextFree)
      ensures opt.delay == 0 ==> purgeExpire == old(purgeExpire)
      ensures opt.delay == 0 ==>
                pages[..] == if opt.grants(idx) then old(pages[..])[idx := old(pages[idx]).(purged := true)] else old(pages[..])
      ensures opt.delay > 0 ==> Scheduled(old(pages[..]), pages[..], list, idx, old(purgeExpire), purgeExpire, opt)
      ensures opt.delay > 0 && !old(pages[idx].purged) ==> !pages[idx].purged
      ensures Unused() == old(Unused()) && OnlyIn(old(bytes), bytes, Unused())
    {
      if opt.delay == 0 {
        PurgeNow(idx, opt);
      } else {
        SchedulePurge(idx, opt);
      }
    }

    /** `span_free`: the span joins its free neighbours, `mid` is the table then and `idx` where the
        free span starts; memory leaves only under a purge, and only from free spans. */
    method SpanFree(page: nat, opt: Purging) returns (ghost idx: nat, ghost mid: Slots)
      requires Valid() && page in Live()
      modifies this, pages, pageOff
      ensures Valid() && nextFree == old(nextFree) && commitEnd == old(commitEnd) && handed == old(handed)
      ensures Freed(old(Table()), Table(), page)
      ensures SameSpans(mid, pages[..]) && IsFree(mid, nextFree, idx) && idx <= page < End(mid, idx)
      ensures Reflagged(old(Table()), mid, page, idx)
      ensures Considered(mid, pages[..], list, idx, old(purgeExpire), purgeExpire, opt)
      ensures backed <= old(backed) && (opt.delay < 0 || mid[idx].sliceCount < MEDIUM_PAGE_SLICES ==> backed == old(backed))
      ensures forall i | i in old(backed) && i !in backed ::
                HEADER <= i < nextFree && Excused(pages[..], nextFree, i)
      ensures OnlyIn(old(bytes), bytes, Unused())
    {
      hide TableOk, Kept, Clean, SpanSlices, Scheduled;
      ghost var l := Table();
      var start, len := Release(page);
      ghost var r, was := Table(), backed;
      idx, mid := start, pages[..];
      if len >= MEDIUM_PAGE_SLICES && opt.delay >= 0 {
        PurgeFreed(start, opt);
      }
      FreedPurged(l, r, Table(), page, was, backed);
    }

    /** `page_of`: one table load takes any address of a carved slice to the span that holds it. */
    method PageOf(addr: nat) returns (start: nat)
      requires Valid() && HEADER * SLICE_SIZE <= addr < nextFree * SLICE_SIZE
      ensures IsLive(pages[..], nextFree, start) || IsFree(pages[..], nextFree, start)
      ensures start * SLICE_SIZE <= addr < End(pages[..], start) * SLICE_SIZE
      ensures forall o | o in Live() && o * SLICE_SIZE <= addr < End(pages[..], o) * SLICE_SIZE :: o == start
      ensures pages[start].area == start * SLICE_SIZE
    {
      var i := addr / SLICE_SIZE;
      RecordsAgree(Table(), list, i);
      start := (pageOff[i] - PAGES_OFFSET) / SLOT_BYTES;
      forall o | o in Live() && o * SLICE_SIZE <= addr < End(pages[..], o) * SLICE_SIZE ensures o == start {
        NextStarts(pages[..], nextFree, o);
        assert Owner(pages[..], i) == o;
      }
    }

    /** Every live span is backed in full, and a segment reported full is backed in full. */
    lemma LiveBacked(o: nat)
      requires Valid()
      ensures o in Live() ==> SpanSlices(pages[..], o) <= backed
      ensures commitEnd == SLICES && !purgedAny ==> Range(0, SLICES) <= backed
    {
      if o in Live() {
        LiveIsBacked(pages[..], nextFree, commitEnd, purgedAny, backed, o);
      }
    }

    /** A live span's slices are carved, and none of them is in a free span. */
    lemma LiveAlone(o: nat)
      requires Valid() && o in Live()
      ensures HEADER <= o && 1 <= pages[o].sliceCount && End(pages[..], o) == o + pages[o].sliceCount <= nextFree <= SLICES
      ensures SpanSlices(pages[..], o) !! Unused() && SpanSlices(pages[..], o) <= handed
    {
      NextStarts(pages[..], nextFree, o);
      forall j | j in SpanSlices(pages[..], o) ensures j !in Unused() {
        assert Owner(pages[..], j) == o;
      }
    }

    /** No live page left: the whole carved region is one free span. */
    lemma EmptySegment()
      requires Valid() && usedPages == 0 && nextFree > HEADER
      ensures list == [HEADER] && End(pages[..], HEADER) == nextFree
    {
      EmptyIsOneSpan(Table(), list);
    }
  }

  lemma FrontierStep(have: nat, need: nat, want: nat)
    requires have < need <= SLICES && want == Min(Max(need, have + Min(have, COMMIT_STEP_MAX_SLICES)), SLICES)
    ensures need <= want <= need + have && want - need <= COMMIT_STEP_MAX_SLICES && want <= SLICES
    ensures want >= SLICES || want >= have + Min(have, COMMIT_STEP_MAX_SLICES)
    ensures want > need <==> need < Min(have + Min(have, COMMIT_STEP_MAX_SLICES), SLICES)
  {
  }

  /** In a valid table a span's interior points to its start, so its front need not be rewritten. */
  lemma InteriorPoints(l: Layout, fl: seq<nat>, s: nat, n: nat)
    requires LayoutOk(l, fl) && HEADER <= s < l.next && l.g[s].sliceOffset == 0 && n <= l.g[s].sliceCount
    ensures End(l.g, s) <= SLICES && Points(l.g, l.off, s, n)
  {
    NextStarts(l.g, l.next, s);
    forall i | s < i < s + n ensures l.g[i].sliceOffset == i - s && l.off[i] == PageOffFor(s) {
      assert Owner(l.g, i) == s;
    }
  }

  /** The only spans that start inside the extent are the freed one and its two free neighbours. */
  lemma ExtentStarts(l: Layout, fl: seq<nat>, idx: nat)
    requires LayoutOk(l, fl) && IsLive(l.g, l.next, idx)
    requires End(l.g, idx) <= l.next && HEADER <= LeftEdge(l, idx) && MergeOf(l.g, l.next, LeftEdge(l, idx), RightEdge(l, idx), idx)
    requires LeftEdge(l, idx) != idx ==> LeftEdge(l, idx) in fl && End(l.g, LeftEdge(l, idx)) == idx
    ensures idx > HEADER ==> 0 <= Owner(l.g, idx - 1) < idx
    ensures forall i | LeftEdge(l, idx) <= i < RightEdge(l, idx) && l.g[i].sliceOffset == 0 ::
              i == LeftEdge(l, idx) || i == idx || i == End(l.g, idx)
  {
    var g, next := l.g, l.next;
    NextStarts(g, next, idx);
    var a := LeftEdge(l, idx);
    NextStarts(g, next, a);
    if End(g, idx) < next {
      NextStarts(g, next, End(g, idx));
    }
    assert idx > HEADER ==> HEADER <= Owner(g, idx - 1);
  }

  /** The table between unlinking a freed span's neighbours and marking the union `a..b`. */
  ghost predicate Absorbed(l: Layout, fl: seq<nat>, k: Layout, fl2: seq<nat>, idx: nat, a: nat, b: nat) {
    && CanMerge(l, fl, idx, a, b)
    && Sized(k) && k.next == l.next && k.off == l.off && k.head < SLICES && Scrubbed(l.g, k.g, idx)
    && Linked(k.g, k.head, fl2) && (forall x: nat :: x in fl2 <==> x in fl && !(a <= x < b))
  }

  /** The right neighbour is free. */
  predicate RightIn(l: Layout, idx: nat)
    requires Sized(l) && HEADER <= idx < l.next
  {
    End(l.g, idx) < l.next && l.g[End(l.g, idx)].blockSize == 0
  }

  /** A free neighbour is flagged purged. */
  predicate NeighbourFlag(l: Layout, idx: nat)
    requires Sized(l) && HEADER <= idx < l.next
  {
    || (RightIn(l, idx) && l.g[End(l.g, idx)].purged)
    || (0 <= LeftEdge(l, idx) != idx && l.g[LeftEdge(l, idx)].purged)
  }

  /** Only the flag of the merged span's start can change: a flagged neighbour raises it. */
  ghost predicate Reflagged(l: Layout, h: Slots, page: nat, idx: nat)
    requires Sized(l) && HEADER <= page < l.next
  {
    |h| == SLICES && forall i | 0 <= i < SLICES :: h[i].purged == (l.g[i].purged || (i == idx && NeighbourFlag(l, page)))
  }

  /** With the start's own flag, that covers every purged part of the union. */
  lemma FlagCovers(l: Layout, fl: seq<nat>, idx: nat, i: nat)
    requires LayoutOk(l, fl) && IsLive(l.g, l.next, idx) && End(l.g, idx) <= l.next
    requires LeftEdge(l, idx) <= i < RightEdge(l, idx) && IsFree(l.g, l.next, i) && l.g[i].purged
    ensures NeighbourFlag(l, idx)
  {
    EdgesMerge(l, fl, idx);
    ExtentStarts(l, fl, idx);
  }

  lemma AbsorbedFrom(l: Layout, fl: seq<nat>, k: Layout, fl1: seq<nat>, fl2: seq<nat>, idx: nat)
    requires LayoutOk(l, fl) && IsLive(l.g, l.next, idx) && End(l.g, idx) <= l.next
    requires Sized(k) && k.next == l.next && k.off == l.off && Scrubbed(l.g, k.g, idx) && Linked(k.g, k.head, fl2)
    requires if RightIn(l, idx) then forall y: nat :: y in fl1 <==> y in fl && y != End(l.g, idx) else fl1 == fl
    requires var e := LeftEdge(l, idx);
             if e != idx then forall y: nat :: y in fl2 <==> y in fl1 && y != e else fl2 == fl1
    ensures LeftEdge(l, idx) >= HEADER && Absorbed(l, fl, k, fl2, idx, LeftEdge(l, idx), RightEdge(l, idx))
  {
    EdgesMerge(l, fl, idx);
    ExtentStarts(l, fl, idx);
    var a, b := LeftEdge(l, idx), RightEdge(l, idx);
    forall x: nat ensures x in fl2 <==> x in fl && !(a <= x < b) {
      assert x in fl ==> IsFree(l.g, l.next, x);
    }
    assert k.head < SLICES;
  }

  /** The slots a release does not rewrite already point to the start of the union. */
  lemma SkippedPoints(l: Layout, fl: seq<nat>, k: Layout, idx: nat, a: nat, b: nat)
    requires LayoutOk(l, fl) && IsLive(l.g, l.next, idx) && Sized(k) && Scrubbed(l.g, k.g, idx) && k.off == l.off
    requires a == LeftEdge(l, idx) && End(l.g, idx) <= l.next && b == RightEdge(l, idx)
    ensures var from := if a == idx then l.g[idx].sliceCount else idx - a;
            1 <= from && a + from <= b && b <= SLICES && Points(k.g, k.off, a, from)
  {
    EdgesMerge(l, fl, idx);
    InteriorPoints(l, fl, a, if a == idx then l.g[idx].sliceCount else idx - a);
    NextStarts(l.g, l.next, idx);
  }

  lemma MergedIs(l: Layout, fl: seq<nat>, k: Layout, fl2: seq<nat>, idx: nat, a: nat, b: nat, r: Layout)
    requires Absorbed(l, fl, k, fl2, idx, a, b) && r == MarkFree(k, a, b - a)
    ensures LayoutOk(r, [a] + fl2) && Merged(l, r, idx, a, b)
  {
    MergedOk(l, fl, k, fl2, idx, a, b);
  }

  /** `r` is `l` with the live span `page` given up. */
  ghost predicate Freed(l: Layout, r: Layout, page: nat)
    requires Sized(l) && Sized(r) && page < SLICES
  {
    && LiveSet(r.g, r.next) == LiveSet(l.g, l.next) - {page}
    && FreeSlices(r.g, r.next) == FreeSlices(l.g, l.next) + SpanSlices(l.g, page)
    && Kept(l, r, page) && r.next == l.next
  }

  lemma ReleaseBack(l: Layout, fl: seq<nat>, r: Layout, page: nat, idx: nat, end: nat, flag: bool,
                    commitEnd: nat, purgedAny: bool, backed: set<int>)
    requires TableOk(l, fl, commitEnd, purgedAny, backed) && IsLive(l.g, l.next, page) && End(l.g, page) <= l.next
    requires Sized(r) && HEADER <= idx < SLICES && Merged(l, r, page, idx, end) && MergeOf(l.g, l.next, idx, end, page)
    requires idx == LeftEdge(l, page) && end == RightEdge(l, page) && (NeighbourFlag(l, page) ==> flag)
    ensures BackOk(r.g[idx := r.g[idx].(purged := flag)], r.next, commitEnd, purgedAny, backed)
  {
    forall i | idx <= i < end && IsFree(l.g, l.next, i) && l.g[i].purged ensures flag {
      FlagCovers(l, fl, page, i);
    }
    MergeBack(l, r, page, idx, end, flag, commitEnd, purgedAny, backed);
  }

  lemma ReleaseFreed(l: Layout, r: Layout, fl2: seq<nat>, page: nat, idx: nat, end: nat, flag: bool)
    requires Sized(l) && Tiled(l.g, HEADER, l.next) && page < SLICES
    requires LayoutOk(r, fl2) && HEADER <= idx < SLICES && Merged(l, r, page, idx, end) && MergeOf(l.g, l.next, idx, end, page)
    requires flag || !r.g[idx].purged
    ensures var h := r.(g := r.g[idx := r.g[idx].(purged := flag)]); LayoutOk(h, fl2) && Freed(l, h, page) && SameAbove(l, h)
  {
    FlagsOk(r, r.g[idx := r.g[idx].(purged := flag)], fl2);
    MergedKept(l, r, page, idx, end);
  }

  function Flagged(r: Layout, idx: nat, merged: bool): Layout
    requires idx < |r.g|
  {
    r.(g := r.g[idx := r.g[idx].(purged := r.g[idx].purged || merged)])
  }

  lemma ReleaseOk(l: Layout, fl: seq<nat>, r: Layout, fl2: seq<nat>, page: nat, idx: nat, len: nat, merged: bool,
                  commitEnd: nat, purgedAny: bool, backed: set<int>, h: Layout)
    requires TableOk(l, fl, commitEnd, purgedAny, backed) && IsLive(l.g, l.next, page) && End(l.g, page) <= l.next
    requires LayoutOk(r, fl2) && HEADER <= idx < SLICES && Merged(l, r, page, idx, idx + len)
    requires MergeOf(l.g, l.next, idx, idx + len, page) && merged == NeighbourFlag(l, page)
    requires idx == LeftEdge(l, page) && idx + len == RightEdge(l, page)
    requires h == Flagged(r, idx, merged)
    ensures && TableOk(h, fl2, commitEnd, purgedAny, backed) && Freed(l, h, page) && SameAbove(l, h)
            && IsFree(h.g, h.next, idx) && len == h.g[idx].sliceCount && idx <= page < idx + len
  {
    hide Tiled, OffsAgree, Linked, ListsFree, Coalesced, Recut, Kept, SameAbove, BackOk;
    var flag := r.g[idx].purged || merged;
    assert BackOk(h.g, r.next, commitEnd, purgedAny, backed) by {
      ReleaseBack(l, fl, r, page, idx, idx + len, flag, commitEnd, purgedAny, backed);
    }
    ReleaseFreed(l, r, fl2, page, idx, idx + len, flag);
  }

  /** A span freed at this instant has waited for none of a positive delay: the pass leaves it. */
  lemma JustFreedStays(h: Slots, r: Slots, head: nat, fl: seq<nat>, next: nat, idx: nat, opt: Purging)
    requires next <= |h| && |r| == |h| && opt.delay > 0 && ListsFree(h, next, fl) && IsFree(h, next, idx)
    requires h[idx].capacity == NowMs(opt.now)
    requires (forall j | 0 <= j < |fl| :: fl[j] < |h|) && Offered(h, r, fl, |fl|, Wanted(h, Some(opt.now), opt))
    ensures r[idx].purged == h[idx].purged
  {
    var j :| 0 <= j < |fl| && fl[j] == idx;
    assert Wait(Some(opt.now), DelayMs(opt.delay), h[idx].capacity) > 0;
  }

  lemma OnlyPurgedStamped(g: Slots, h: Slots, was: set<int>, r: Slots, backed: set<int>, next: nat)
    requires OnlyPurged(h, was, r, backed, next) && SameSpans(g, h)
    requires forall i | 0 <= i < |g| :: h[i].purged == g[i].purged
    ensures OnlyPurged(g, was, r, backed, next)
  {
  }

  /** A purge after the release changes nothing the release promised. */
  lemma FreedPurged(l: Layout, r: Layout, k: Layout, page: nat, was: set<int>, backed: set<int>)
    requires Sized(l) && Sized(r) && page < SLICES && Freed(l, r, page)
    requires k == r.(g := k.g) && OnlyPurged(r.g, was, k.g, backed, r.next)
    ensures Sized(k) && Freed(l, k, page)
  {
    forall i: int ensures IsFree(k.g, k.next, i) == IsFree(r.g, r.next, i) && IsLive(k.g, k.next, i) == IsLive(r.g, r.next, i) {
    }
    forall j ensures j in FreeSlices(k.g, k.next) <==> j in FreeSlices(r.g, r.next) {
      if HEADER <= j < r.next {
        assert Owner(k.g, j) == Owner(r.g, j);
      }
    }
    assert FreeSlices(k.g, k.next) == FreeSlices(r.g, r.next) && LiveSet(k.g, k.next) == LiveSet(r.g, r.next);
  }

  /** So does unlinking it. */
  lemma UnlinkPoints(l: Layout, s: nat, n: nat)
    requires Sized(l) && s + n <= SLICES && s < SLICES && l.g[s].prev < SLICES && l.g[s].next < SLICES && l.head < SLICES
    requires Points(l.g, l.off, s, n)
    ensures var r := Unlink(l, s); Sized(r) && r.head < SLICES && r.next == l.next && Points(r.g, r.off, s, n)
  {
    UnlinkShape(l, s);
  }

  /** Marking the tail of a span leaves its front pointing home. */
  lemma RemainderPoints(l: Layout, s: nat, n: nat, m: nat, len: nat, stamp: nat)
    requires Sized(l) && 1 <= len && s + n <= m && m + len <= SLICES && l.head < SLICES && Points(l.g, l.off, s, n)
    ensures var r := Remainder(l, m, len, stamp); Sized(r) && Points(r.g, r.off, s, n)
  {
    RemainderSlot(l, m, len, stamp, 0);
    forall i | s < i < s + n
      ensures var r := Remainder(l, m, len, stamp); r.g[i].sliceOffset == i - s && r.off[i] == PageOffFor(s)
    {
      RemainderSlot(l, m, len, stamp, i);
    }
  }

  /** A listed span is a free one, and its area leads back to its slot. */
  lemma FreeSpanSlices(g: Slots, next: nat, idx: nat)
    requires |g| == SLICES && next <= SLICES && Tiled(g, HEADER, next) && IsFree(g, next, idx)
    ensures Range(idx, End(g, idx)) <= FreeSlices(g, next) <= Range(HEADER, next)
  {
    NextStarts(g, next, idx);
    forall j | idx <= j < End(g, idx) ensures j in FreeSlices(g, next) {
      assert Owner(g, j) == idx;
    }
  }

  lemma ListedSpan(l: Layout, fl: seq<nat>, s: nat)
    requires LayoutOk(l, fl) && s in fl
    ensures IsFree(l.g, l.next, s) && l.g[s].area / SLICE_SIZE == s && 0 < s < SLICES
  {
    NextStarts(l.g, l.next, s);
  }

  function PurgeFlag(l: Layout, o: nat): Layout
    requires o < |l.g|
  {
    l.(g := l.g[o := l.g[o].(purged := true)])
  }

  lemma PurgedTable(l: Layout, fl: seq<nat>, o: nat, commitEnd: nat, purgedAny: bool, backed: set<int>, less: set<int>)
    requires TableOk(l, fl, commitEnd, purgedAny, backed) && IsFree(l.g, l.next, o)
    requires backed - SpanSlices(l.g, o) <= less
    ensures TableOk(PurgeFlag(l, o), fl, commitEnd, true, less) && SameAbove(l, PurgeFlag(l, o))
    ensures LiveSet(PurgeFlag(l, o).g, l.next) == LiveSet(l.g, l.next)
    ensures FreeSlices(PurgeFlag(l, o).g, l.next) == FreeSlices(l.g, l.next)
  {
    PurgeBack(l.g, l.next, commitEnd, purgedAny, backed, less, o);
    FlagsOk(l, PurgeFlag(l, o).g, fl);
  }
}
