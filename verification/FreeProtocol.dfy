/** The cross-thread free protocol: remote freers, owners, dying threads and adopters,
    interleaved one shared-memory access at a time under sequential consistency.

    A step contains at most one load, compare-and-swap or swap of a shared word, together
    with the private accesses around it. A compare-and-swap loop whose new value depends
    only on the word itself (the owner's flag writes and collects) is the one step of its
    successful exchange; the remote's loops, which branch on what they loaded, keep the
    loaded word in their program counter. A spin is a step that is not enabled. */
module FreeProtocol {
  import opened BlockStore

  datatype Flag = NORMAL | DELAYED | FREEING | NEVER

  /** Program counter of a thread inside `remote_free`. `b` is the block it still carries. */
  datatype Remote =
    | Quiet
    | Start(b: Block, p: Page)
    | Loaded(b: Block, p: Page, xh: Block, xf: Flag)
    | Claimed(b: Block, p: Page)
    | HasBox(b: Block, p: Page, h: int)
    | SawHead(b: Block, p: Page, h: int, d: Block)
    | Pushed(p: Page)
    | Restoring(p: Page, r: Flag)
    | RestoreLoaded(p: Page, r: Flag, yh: Block, yf: Flag)

  /** What the thread that owns a heap box is in the middle of. */
  datatype Owner =
    | NoBox
    | Idle
    | ParkSet(p: Page)
    | FreshSet(p: Page)
    | Unpark(p: Page, drain: bool)
    | Draining
    | AdoptWalk(g: int, todo: set<Page>)
    | AdoptSet(g: int, todo: set<Page>, p: Page)
    | TdWalk
    | TdSeg(g: int, todo: set<Page>)
    | TdClear(g: int, todo: set<Page>, p: Page)
    | TdDrain
    | TdWait(t: int)
    | Dead

  datatype SegState = Absent | Owned(h: int) | Orphan | Releasing(passed: set<Page>) | Released

  datatype State = State(
    m: Store,
    flag: Page -> Flag,       // the two low bits of `xthread_free`; its chain is `m.head(Chain(p))`
    xheap: Page -> int,       // the box a page names, 0 for none
    used: Page -> int,
    live: set<Page>,          // slots whose `block_size` is not 0
    single: set<Page>,        // SINGLE_BLOCK
    inFull: set<Page>,        // IN_FULL
    slots: set<Page>,         // slots carved at some time
    seg: int -> SegState,
    opc: int -> Owner,        // per heap box
    rem: int -> Remote,       // per thread
    aborted: bool)            // some double-free abort was reached

  predicate Carries(r: Remote) {
    r.Start? || r.Loaded? || r.Claimed? || r.HasBox? || r.SawHead?
  }

  /** Between the FREEING claim and its release. */
  predicate Holds(r: Remote) {
    r.Claimed? || r.HasBox? || r.SawHead? || r.Pushed? || r.Restoring? || r.RestoreLoaded?
  }

  predicate HasPushed(r: Remote) {
    r.Pushed? || r.Restoring? || r.RestoreLoaded?
  }

  predicate Mine(s: State, h: int, p: Page) {
    p in s.live && s.seg(p.seg) == Owned(h)
  }

  /** `page_collect_impl`: swap `local_free` in when `free` is dry, then splice the stolen chain. */
  function Collected(m: Store, p: Page, used: int): Store {
    var w := ChainWalk(m, p, used);
    if w == [] then Refilled(m, p) else Splice(Refilled(m, p), p, w)
  }

  /** `free` takes over `local_free` when it is dry. */
  function Refilled(m: Store, p: Page): Store {
    if m.head(Free(p)) == 0 then Steal(m, Local(p), Free(p)) else m
  }

  function ChainWalk(m: Store, p: Page, used: int): seq<Block> {
    Walk(m.next, m.head(Chain(p)), if used < 0 then 0 else used + 1)
  }

  /** The walk found more links than the page has live blocks. */
  predicate Overrun(m: Store, p: Page, used: int) {
    |ChainWalk(m, p, used)| > used
  }

  /** The body of a local free of `b`, already off every list: link, count down, un-park. */
  function LocalFreed(s: State, h: int, b: Block, m: Store, drain: bool): State {
    var p := m.home(b);
    if s.used(p) <= 0 then s.(aborted := true) else
    s.(m := Push(m, Local(p), b),
       used := Put(s.used, p, s.used(p) - 1),
       inFull := s.inFull - {p},
       opc := if p in s.inFull then Put(s.opc, h, Unpark(p, drain)) else s.opc)
  }

  /** A large span's one block dies: keep the span cached, or retire it. */
  function LargeFreed(s: State, b: Block, m: Store, keep: bool): State {
    var p := m.home(b);
    if s.used(p) <= 0 then s.(aborted := true) else
    var s1 := s.(m := Keep(m, p, b), used := Put(s.used, p, 0));
    if keep then s1 else Retired(s1, p)
  }

  function Retired(s: State, p: Page): State {
    s.(m := Drop(s.m, p), live := s.live - {p}, single := s.single - {p})
  }

  function CollectedState(s: State, p: Page): State {
    if Overrun(s.m, p, s.used(p)) then s.(aborted := true) else
    s.(m := Collected(s.m, p, s.used(p)),
       used := Put(s.used, p, s.used(p) - |ChainWalk(s.m, p, s.used(p))|))
  }

  // ------------------------------------------------------------ remote_free

  ghost predicate Scribbles(s: State, s': State, b: Block, v: Block) {
    b in s.m.carved && !s.m.place(b).On? && s' == s.(m := Scribble(s.m, b, v))
  }

  /** A client's thread enters `remote_free` with a block it holds: each block is freed once. */
  ghost predicate RFree(s: State, s': State, t: int, b: Block) {
    && s.rem(t) == Quiet && b in s.m.carved && s.m.place(b) == Client
    && s' == s.(m := Move(s.m, b, Flight(t)), rem := Put(s.rem, t, Start(b, s.m.home(b))))
  }

  ghost predicate RLoad(s: State, s': State, t: int) {
    var r := s.rem(t);
    r.Start? && s' == s.(rem := Put(s.rem, t, Loaded(r.b, r.p, s.m.head(Chain(r.p)), s.flag(r.p))))
  }

  /** The exchange lost, failed spuriously, or the word said FREEING: load again. */
  ghost predicate RRetry(s: State, s': State, t: int) {
    var r := s.rem(t);
    r.Loaded? && s' == s.(rem := Put(s.rem, t, Start(r.b, r.p)))
  }

  ghost predicate RClaim(s: State, s': State, t: int) {
    var r := s.rem(t);
    && r.Loaded? && r.xf == DELAYED && s.m.head(Chain(r.p)) == r.xh && s.flag(r.p) == r.xf
    && s' == s.(flag := Put(s.flag, r.p, FREEING), rem := Put(s.rem, t, Claimed(r.b, r.p)))
  }

  /** NORMAL or NEVER: write the link, then exchange the page's chain head. */
  ghost predicate RPush(s: State, s': State, t: int) {
    var r := s.rem(t);
    && r.Loaded? && (r.xf == NORMAL || r.xf == NEVER) && r.xh != r.b
    && s.m.head(Chain(r.p)) == r.xh && s.flag(r.p) == r.xf
    && s' == s.(m := PushOnto(s.m, Chain(r.p), r.b, r.xh), rem := Put(s.rem, t, Quiet))
  }

  /** The double-free compare on the page's own chain. */
  ghost predicate RAbort(s: State, s': State, t: int) {
    var r := s.rem(t);
    r.Loaded? && (r.xf == NORMAL || r.xf == NEVER) && r.xh == r.b && s' == s.(aborted := true)
  }

  ghost predicate RXheap(s: State, s': State, t: int) {
    var r := s.rem(t);
    r.Claimed? && s' == s.(rem := Put(s.rem, t, HasBox(r.b, r.p, s.xheap(r.p))))
  }

  /** First access to the box: load its delayed list's head. */
  ghost predicate RHead(s: State, s': State, t: int) {
    var r := s.rem(t);
    r.HasBox? && s' == s.(rem := Put(s.rem, t, SawHead(r.b, r.p, r.h, s.m.head(Delayed(r.h)))))
  }

  ghost predicate RHeadRetry(s: State, s': State, t: int) {
    var r := s.rem(t);
    r.SawHead? && s' == s.(rem := Put(s.rem, t, HasBox(r.b, r.p, r.h)))
  }

  /** The double-free compare on the delayed list. */
  ghost predicate RHeadAbort(s: State, s': State, t: int) {
    var r := s.rem(t);
    r.SawHead? && r.d == r.b && s' == s.(aborted := true)
  }

  /** Last access to the box: link the block and exchange the delayed list's head. */
  ghost predicate RDelay(s: State, s': State, t: int) {
    var r := s.rem(t);
    && r.SawHead? && r.d != r.b && s.m.head(Delayed(r.h)) == r.d
    && s' == s.(m := PushOnto(s.m, Delayed(r.h), r.b, r.d), rem := Put(s.rem, t, Pushed(r.p)))
  }

  ghost predicate RFlags(s: State, s': State, t: int) {
    var r := s.rem(t);
    && r.Pushed?
    && s' == s.(rem := Put(s.rem, t, Restoring(r.p, if r.p in s.single then DELAYED else NORMAL)))
  }

  ghost predicate RWord(s: State, s': State, t: int) {
    var r := s.rem(t);
    && r.Restoring?
    && s' == s.(rem := Put(s.rem, t, RestoreLoaded(r.p, r.r, s.m.head(Chain(r.p)), s.flag(r.p))))
  }

  ghost predicate RWordRetry(s: State, s': State, t: int) {
    var r := s.rem(t);
    r.RestoreLoaded? && s' == s.(rem := Put(s.rem, t, Restoring(r.p, r.r)))
  }

  ghost predicate RRestore(s: State, s': State, t: int) {
    var r := s.rem(t);
    && r.RestoreLoaded? && s.m.head(Chain(r.p)) == r.yh && s.flag(r.p) == r.yf
    && s' == s.(flag := Put(s.flag, r.p, r.r), rem := Put(s.rem, t, Quiet))
  }

  // -------------------------------------------------------------- the owner

  ghost predicate NewBox(s: State, s': State, h: int) {
    h != 0 && s.opc(h) == NoBox && s' == s.(opc := Put(s.opc, h, Idle))
  }

  ghost predicate NewSeg(s: State, s': State, h: int, g: int) {
    s.opc(h) == Idle && s.seg(g) == Absent && s' == s.(seg := Put(s.seg, g, Owned(h)))
  }

  /** `fresh_page` and `large_alloc` up to their flag write: the slot's word may still say
      FREEING, held by a remote that has already pushed its block. */
  ghost predicate Fresh(s: State, s': State, h: int, p: Page, single: bool) {
    && s.opc(h) == Idle && s.seg(p.seg) == Owned(h) && p !in s.live
    && s' == s.(live := s.live + {p}, slots := s.slots + {p},
                single := if single then s.single + {p} else s.single,
                used := Put(s.used, p, 0),
                xheap := Put(s.xheap, p, h),
                opc := Put(s.opc, h, FreshSet(p)))
  }

  ghost predicate FreshBinned(s: State, s': State, h: int) {
    var o := s.opc(h);
    && o.FreshSet? && o.p !in s.single && s.flag(o.p) != FREEING
    && s' == s.(flag := Put(s.flag, o.p, NORMAL), opc := Put(s.opc, h, Idle))
  }

  /** The large span's one block goes to the caller. */
  ghost predicate FreshLarge(s: State, s': State, h: int, b: Block) {
    var o := s.opc(h);
    && o.FreshSet? && o.p in s.single && s.flag(o.p) != FREEING && b !in s.m.carved && b != 0
    && s' == s.(m := Carve(s.m, o.p, b), used := Put(s.used, o.p, 1),
                flag := Put(s.flag, o.p, DELAYED), opc := Put(s.opc, h, Idle))
  }

  /** `page_extend`, one block at a time. */
  ghost predicate Extend(s: State, s': State, h: int, p: Page, b: Block) {
    && s.opc(h) == Idle && Mine(s, h, p) && p !in s.single && b !in s.m.carved && b != 0
    && s' == s.(m := Push(Carve(s.m, p, b), Free(p), b))
  }

  ghost predicate Malloc(s: State, s': State, h: int, p: Page) {
    && s.opc(h) == Idle && Mine(s, h, p) && p !in s.single && p !in s.inFull
    && s.m.head(Free(p)) != 0
    && s' == s.(m := Pop(s.m, Free(p), Client), used := Put(s.used, p, s.used(p) + 1))
  }

  ghost predicate Collect(s: State, s': State, h: int, p: Page) {
    s.opc(h) == Idle && Mine(s, h, p) && s' == CollectedState(s, p)
  }

  ghost predicate FreeLocal(s: State, s': State, h: int, b: Block) {
    && s.opc(h) == Idle && b in s.m.carved && s.m.place(b) == Client
    && Mine(s, h, s.m.home(b)) && s.m.home(b) !in s.single
    && s' == LocalFreed(s, h, b, s.m, false)
  }

  ghost predicate FreeLarge(s: State, s': State, h: int, b: Block, keep: bool) {
    && s.opc(h) == Idle && b in s.m.carved && s.m.place(b) == Client
    && Mine(s, h, s.m.home(b)) && s.m.home(b) in s.single
    && s' == LargeFreed(s, b, s.m, keep)
  }

  /** `large_alloc` serving the cached span: no flag is written, FREEING may still be held. */
  ghost predicate ReuseLarge(s: State, s': State, h: int, p: Page) {
    && s.opc(h) == Idle && Mine(s, h, p) && p in s.single && s.m.head(Cache(p)) != 0
    && s' == s.(m := Unkeep(s.m, p), used := Put(s.used, p, 1))
  }

  ghost predicate Retire(s: State, s': State, h: int, p: Page) {
    && (s.opc(h) == Idle || s.opc(h) == Draining) && Mine(s, h, p)
    && s.used(p) == 0 && p !in s.inFull
    && s' == Retired(s, p)
  }

  /** Parking sets IN_FULL first and the flag second; nothing is collected in between. */
  ghost predicate Park(s: State, s': State, h: int, p: Page) {
    && s.opc(h) == Idle && Mine(s, h, p) && p !in s.single && p !in s.inFull
    && s.m.head(Free(p)) == 0
    && s' == s.(inFull := s.inFull + {p}, opc := Put(s.opc, h, ParkSet(p)))
  }

  ghost predicate ParkDone(s: State, s': State, h: int) {
    var o := s.opc(h);
    && o.ParkSet? && s.flag(o.p) != FREEING
    && s' == s.(flag := Put(s.flag, o.p, DELAYED), opc := Put(s.opc, h, Idle))
  }

  ghost predicate UnparkDone(s: State, s': State, h: int) {
    var o := s.opc(h);
    && o.Unpark? && s.flag(o.p) != FREEING
    && s' == s.(flag := Put(s.flag, o.p, NORMAL),
                opc := Put(s.opc, h, if o.drain then Draining else Idle))
  }

  ghost predicate DrainSwap(s: State, s': State, h: int) {
    && s.opc(h) == Idle && s.m.head(Delayed(h)) != 0
    && s' == s.(m := Steal(s.m, Delayed(h), Batch(h)), opc := Put(s.opc, h, Draining))
  }

  ghost predicate DrainOne(s: State, s': State, h: int) {
    var b := s.m.head(Batch(h));
    && s.opc(h) == Draining && b != 0 && s.m.home(b) !in s.single
    && s' == LocalFreed(s, h, b, Pop(s.m, Batch(h), Client), true)
  }

  ghost predicate DrainLarge(s: State, s': State, h: int, keep: bool) {
    var b := s.m.head(Batch(h));
    && s.opc(h) == Draining && b != 0 && s.m.home(b) in s.single
    && s' == LargeFreed(s, b, Pop(s.m, Batch(h), Client), keep)
  }

  ghost predicate DrainEnd(s: State, s': State, h: int) {
    s.opc(h) == Draining && s.m.head(Batch(h)) == 0 && s' == s.(opc := Put(s.opc, h, Idle))
  }

  // --------------------------------------------------- releasing a segment

  /** The segment is empty and unlinked; its release starts waiting out remotes. */
  ghost predicate RelBegin(s: State, s': State, h: int, g: int) {
    && (s.opc(h) == Idle || s.opc(h) == Draining)
    && s.seg(g) == Owned(h) && (forall p | p in s.live :: p.seg != g)
    && s' == s.(seg := Put(s.seg, g, Releasing({})))
  }

  /** The scan passes one slot whose word does not say FREEING. */
  ghost predicate RelPass(s: State, s': State, g: int, p: Page) {
    && s.seg(g).Releasing? && p.seg == g && s.flag(p) != FREEING
    && s' == s.(seg := Put(s.seg, g, Releasing(s.seg(g).passed + {p})))
  }

  ghost predicate RelDone(s: State, s': State, g: int) {
    && s.seg(g).Releasing? && (forall p | p in s.slots && p.seg == g :: p in s.seg(g).passed)
    && s' == s.(seg := Put(s.seg, g, Released))
  }

  // --------------------------------------------------------------- adoption

  ghost function LiveIn(s: State, g: int): set<Page> {
    set p | p in s.live && p.seg == g
  }

  ghost predicate AdoptPop(s: State, s': State, h: int, g: int) {
    && s.opc(h) == Idle && s.seg(g) == Orphan
    && s' == s.(seg := Put(s.seg, g, Owned(h)), opc := Put(s.opc, h, AdoptWalk(g, LiveIn(s, g))))
  }

  ghost predicate AdoptHeap(s: State, s': State, h: int, p: Page) {
    var o := s.opc(h);
    && o.AdoptWalk? && p in o.todo
    && s' == s.(xheap := Put(s.xheap, p, h), inFull := s.inFull - {p},
                opc := Put(s.opc, h, AdoptSet(o.g, o.todo, p)))
  }

  ghost predicate AdoptFlag(s: State, s': State, h: int) {
    var o := s.opc(h);
    && o.AdoptSet? && s.flag(o.p) != FREEING
    && s' == CollectedState(s, o.p).(
         flag := Put(s.flag, o.p, if o.p in s.single then DELAYED else NORMAL),
         opc := Put(s.opc, h, AdoptWalk(o.g, o.todo - {o.p})))
  }

  ghost predicate AdoptEnd(s: State, s': State, h: int) {
    var o := s.opc(h);
    o.AdoptWalk? && o.todo == {} && s' == s.(opc := Put(s.opc, h, Idle))
  }

  // --------------------------------------------------------------- teardown

  ghost predicate TdBegin(s: State, s': State, h: int) {
    s.opc(h) == Idle && s' == s.(opc := Put(s.opc, h, TdWalk))
  }

  ghost predicate TdPick(s: State, s': State, h: int, g: int) {
    && s.opc(h) == TdWalk && s.seg(g) == Owned(h)
    && s' == s.(opc := Put(s.opc, h, TdSeg(g, LiveIn(s, g))))
  }

  /** One exchange takes the chain and writes NEVER; a huge page only writes NEVER. */
  ghost predicate TdNever(s: State, s': State, h: int, p: Page, collect: bool) {
    var o := s.opc(h);
    && o.TdSeg? && p in o.todo && s.flag(p) != FREEING
    && s' == (if collect then CollectedState(s, p) else s).(
         flag := Put(s.flag, p, NEVER),
         opc := Put(s.opc, h, TdClear(o.g, o.todo - {p}, p)))
  }

  ghost predicate TdClearHeap(s: State, s': State, h: int) {
    var o := s.opc(h);
    && o.TdClear?
    && s' == s.(xheap := Put(s.xheap, o.p, 0), opc := Put(s.opc, h, TdSeg(o.g, o.todo)))
  }

  /** A dead huge block found by the teardown: its page goes, its segment is released next. */
  ghost predicate TdDropHuge(s: State, s': State, h: int, p: Page) {
    var o := s.opc(h);
    && o.TdSeg? && p in o.todo && p in s.single && s.used(p) == 0
    && s' == Retired(s, p).(opc := Put(s.opc, h, TdSeg(o.g, o.todo - {p})))
  }

  ghost predicate TdAbandon(s: State, s': State, h: int) {
    var o := s.opc(h);
    && o.TdSeg? && o.todo == {} && LiveIn(s, o.g) != {}
    && s' == s.(seg := Put(s.seg, o.g, Orphan), opc := Put(s.opc, h, TdWalk))
  }

  ghost predicate TdRelease(s: State, s': State, h: int) {
    var o := s.opc(h);
    && o.TdSeg? && o.todo == {} && LiveIn(s, o.g) == {}
    && s' == s.(seg := Put(s.seg, o.g, Releasing({})), opc := Put(s.opc, h, TdWalk))
  }

  /** All segments are gone from the heap: take whatever was delayed, once more. */
  ghost predicate TdSwap(s: State, s': State, h: int) {
    && s.opc(h) == TdWalk && (forall g :: s.seg(g) != Owned(h))
    && s' == s.(m := Steal(s.m, Delayed(h), Batch(h)), opc := Put(s.opc, h, TdDrain))
  }

  /** The dying thread frees the next block of that batch through `remote_free` itself. */
  ghost predicate TdRepush(s: State, s': State, h: int, t: int) {
    var b := s.m.head(Batch(h));
    && s.opc(h) == TdDrain && b != 0 && s.rem(t) == Quiet
    && s' == s.(m := Pop(s.m, Batch(h), Flight(t)),
                rem := Put(s.rem, t, Start(b, s.m.home(b))),
                opc := Put(s.opc, h, TdWait(t)))
  }

  ghost predicate TdRepushed(s: State, s': State, h: int) {
    var o := s.opc(h);
    o.TdWait? && s.rem(o.t) == Quiet && s' == s.(opc := Put(s.opc, h, TdDrain))
  }

  ghost predicate TdFreeBox(s: State, s': State, h: int) {
    s.opc(h) == TdDrain && s.m.head(Batch(h)) == 0 && s' == s.(opc := Put(s.opc, h, Dead))
  }

  // ------------------------------------------------------------------- runs

  ghost predicate Init(s: State) {
    && s.m.carved == {}
    && (forall l :: s.m.lists(l) == [] && s.m.head(l) == 0)
    && s.live == {} && s.single == {} && s.inFull == {} && s.slots == {}
    && (forall g :: s.seg(g) == Absent)
    && (forall h :: s.opc(h) == NoBox)
    && (forall t :: s.rem(t) == Quiet)
    && (forall p :: s.flag(p) == NORMAL && s.xheap(p) == 0 && s.used(p) == 0)
    && !s.aborted
  }

  /** Thread `t` takes a step of `remote_free`. */
  ghost predicate RemoteStep(s: State, s': State, t: int) {
    || (exists b: Block :: RFree(s, s', t, b))
    || RLoad(s, s', t)
    || RRetry(s, s', t)
    || RClaim(s, s', t)
    || RPush(s, s', t)
    || RAbort(s, s', t)
    || RXheap(s, s', t)
    || RHead(s, s', t)
    || RHeadRetry(s, s', t)
    || RHeadAbort(s, s', t)
    || RDelay(s, s', t)
    || RFlags(s, s', t)
    || RWord(s, s', t)
    || RWordRetry(s, s', t)
    || RRestore(s, s', t)
  }

  /** The owner of box `h` takes a step. */
  ghost predicate OwnerStep(s: State, s': State, h: int) {
    || NewBox(s, s', h)
    || (exists g: int :: NewSeg(s, s', h, g))
    || (exists p: Page, single: bool :: Fresh(s, s', h, p, single))
    || FreshBinned(s, s', h)
    || (exists b: Block :: FreshLarge(s, s', h, b))
    || (exists p: Page, b: Block :: Extend(s, s', h, p, b))
    || (exists p: Page :: Malloc(s, s', h, p))
    || (exists p: Page :: Collect(s, s', h, p))
    || (exists b: Block :: FreeLocal(s, s', h, b))
    || (exists b: Block, keep: bool :: FreeLarge(s, s', h, b, keep))
    || (exists p: Page :: ReuseLarge(s, s', h, p))
    || (exists p: Page :: Retire(s, s', h, p))
    || (exists p: Page :: Park(s, s', h, p))
    || ParkDone(s, s', h)
    || UnparkDone(s, s', h)
    || DrainSwap(s, s', h)
    || DrainOne(s, s', h)
    || (exists keep: bool :: DrainLarge(s, s', h, keep))
    || DrainEnd(s, s', h)
  }

  /** The owner of box `h` takes a step of a release, an adoption or its teardown. */
  ghost predicate SegmentStep(s: State, s': State, h: int) {
    || (exists g: int :: RelBegin(s, s', h, g))
    || (exists g: int :: AdoptPop(s, s', h, g))
    || (exists p: Page :: AdoptHeap(s, s', h, p))
    || AdoptFlag(s, s', h)
    || AdoptEnd(s, s', h)
    || TdBegin(s, s', h)
    || (exists g: int :: TdPick(s, s', h, g))
    || (exists p: Page, collect: bool :: TdNever(s, s', h, p, collect))
    || TdClearHeap(s, s', h)
    || (exists p: Page :: TdDropHuge(s, s', h, p))
    || TdAbandon(s, s', h)
    || TdRelease(s, s', h)
    || TdSwap(s, s', h)
    || (exists t: int :: TdRepush(s, s', h, t))
    || TdRepushed(s, s', h)
    || TdFreeBox(s, s', h)
  }

  /** The release of segment `g` takes a step. */
  ghost predicate ReleaseStep(s: State, s': State, g: int) {
    || (exists p: Page :: RelPass(s, s', g, p))
    || RelDone(s, s', g)
  }

  ghost predicate Next(s: State, s': State) {
    || (exists b: Block, v: Block :: Scribbles(s, s', b, v))
    || (exists t :: RemoteStep(s, s', t))
    || (exists h :: OwnerStep(s, s', h))
    || (exists h :: SegmentStep(s, s', h))
    || (exists g :: ReleaseStep(s, s', g))
  }

  ghost predicate StepAt(run: seq<State>, i: nat)
    requires i + 1 < |run|
  {
    Next(run[i], run[i + 1])
  }

  /** A finite run of the protocol from an initial state. */
  ghost predicate IsRun(run: seq<State>) {
    && run != []
    && Init(run[0])
    && forall i: nat | i + 1 < |run| :: StepAt(run, i)
  }
}
