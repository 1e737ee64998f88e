/** What the cross-thread free protocol guarantees over every run. */
module FreeTheorems {
  import opened BlockStore
  import opened FreeProtocol
  import opened FreeInvariant
  import opened FreeData
  import opened FreeRemote
  import opened FreeOwner
  import opened FreeParking
  import opened FreeTeardown

  lemma OwnerKeeps(s: State, s': State, h: int)
    requires Inv(s) && OwnerStep(s, s', h)
    ensures Inv(s')
  {
    hide Inv, NewBox, NewSeg, Fresh, FreshBinned, FreshLarge, Extend, Malloc, Collect, FreeLocal, FreeLarge,
         ReuseLarge, Retire, Park, ParkDone, UnparkDone, DrainSwap, DrainOne, DrainLarge, DrainEnd;
    if NewBox(s, s', h) { NewBoxKeeps(s, s', h); }
    else if g :| NewSeg(s, s', h, g) { NewSegKeeps(s, s', h, g); }
    else if p, single :| Fresh(s, s', h, p, single) { FreshKeeps(s, s', h, p, single); }
    else if FreshBinned(s, s', h) { FreshBinnedKeeps(s, s', h); }
    else if b :| FreshLarge(s, s', h, b) { FreshLargeKeeps(s, s', h, b); }
    else if p, b :| Extend(s, s', h, p, b) { ExtendKeeps(s, s', h, p, b); }
    else if p :| Malloc(s, s', h, p) { MallocKeeps(s, s', h, p); }
    else if p :| Collect(s, s', h, p) { CollectKeeps(s, s', h, p); }
    else if b :| FreeLocal(s, s', h, b) { FreeLocalKeeps(s, s', h, b); }
    else if b, keep :| FreeLarge(s, s', h, b, keep) { FreeLargeKeeps(s, s', h, b, keep); }
    else if p :| ReuseLarge(s, s', h, p) { ReuseLargeKeeps(s, s', h, p); }
    else if p :| Retire(s, s', h, p) { RetireKeeps(s, s', h, p); }
    else if p :| Park(s, s', h, p) { ParkKeeps(s, s', h, p); }
    else if ParkDone(s, s', h) { ParkDoneKeeps(s, s', h); }
    else if UnparkDone(s, s', h) { UnparkDoneKeeps(s, s', h); }
    else if DrainSwap(s, s', h) { DrainSwapKeeps(s, s', h); }
    else if DrainOne(s, s', h) { DrainOneKeeps(s, s', h); }
    else if keep :| DrainLarge(s, s', h, keep) { DrainLargeKeeps(s, s', h, keep); }
    else { DrainEndKeeps(s, s', h); }
  }

  lemma SegmentKeeps(s: State, s': State, h: int)
    requires Inv(s) && SegmentStep(s, s', h)
    ensures Inv(s')
  {
    hide Inv, RelBegin, AdoptPop, AdoptHeap, AdoptFlag, AdoptEnd, TdBegin, TdPick, TdNever, TdClearHeap, TdDropHuge,
         TdAbandon, TdRelease, TdSwap, TdRepush, TdRepushed, TdFreeBox;
    if g :| RelBegin(s, s', h, g) { RelBeginKeeps(s, s', h, g); }
    else if g :| AdoptPop(s, s', h, g) { AdoptPopKeeps(s, s', h, g); }
    else if p :| AdoptHeap(s, s', h, p) { AdoptHeapKeeps(s, s', h, p); }
    else if AdoptFlag(s, s', h) { AdoptFlagKeeps(s, s', h); }
    else if AdoptEnd(s, s', h) { AdoptEndKeeps(s, s', h); }
    else if TdBegin(s, s', h) { TdBeginKeeps(s, s', h); }
    else if g :| TdPick(s, s', h, g) { TdPickKeeps(s, s', h, g); }
    else if p, c :| TdNever(s, s', h, p, c) { TdNeverKeeps(s, s', h, p, c); }
    else if TdClearHeap(s, s', h) { TdClearHeapKeeps(s, s', h); }
    else if p :| TdDropHuge(s, s', h, p) { TdDropHugeKeeps(s, s', h, p); }
    else if TdAbandon(s, s', h) { TdAbandonKeeps(s, s', h); }
    else if TdRelease(s, s', h) { TdReleaseKeeps(s, s', h); }
    else if TdSwap(s, s', h) { TdSwapKeeps(s, s', h); }
    else if t :| TdRepush(s, s', h, t) { TdRepushKeeps(s, s', h, t); }
    else if TdRepushed(s, s', h) { TdRepushedKeeps(s, s', h); }
    else { TdFreeBoxKeeps(s, s', h); }
  }

  /** The invariant is inductive: no interleaving of any step leaves it. */
  lemma NextKeeps(s: State, s': State)
    requires Inv(s) && Next(s, s')
    ensures Inv(s')
  {
    hide Inv, RemoteStep, OwnerStep, SegmentStep, ReleaseStep;
    if b: Block, v: Block :| Scribbles(s, s', b, v) { ScribblesKeeps(s, s', b, v); }
    else if t :| RemoteStep(s, s', t) { RemoteKeeps(s, s', t); }
    else if h :| OwnerStep(s, s', h) { OwnerKeeps(s, s', h); }
    else if h :| SegmentStep(s, s', h) { SegmentKeeps(s, s', h); }
    else {
      var g :| ReleaseStep(s, s', g);
      ReleaseKeeps(s, s', g);
    }
  }

  lemma {:induction false} RunReaches(run: seq<State>, i: nat, s: State)
    requires IsRun(run) && i < |run| && run[i] == s
    ensures Inv(s)
  {
    hide Inv;
    if i == 0 {
      InitInv(s);
    } else {
      RunReaches(run, i - 1, run[i - 1]);
      assert StepAt(run, i - 1);
      NextKeeps(run[i - 1], s);
    }
  }

  /** So it holds at every point of every run. */
  lemma RunKeeps(run: seq<State>, i: nat)
    requires IsRun(run) && i < |run|
    ensures Inv(run[i])
  {
    RunReaches(run, i, run[i]);
  }

  // ------------------------------------------------------ heap-box safety

  /** The box thread `r` is about to read or write, if it is about to. */
  predicate Touches(s: State, r: Remote, h: int) {
    ((r.HasBox? || r.SawHead?) && r.h == h) || (r.Claimed? && s.xheap(r.p) == h)
  }

  /** From its FREEING claim to its push, the box a remote uses is one its owner has not
      released, is not yet past its last drain, and owns the page's segment. */
  lemma BoxSafety(run: seq<State>, i: nat, t: int, h: int)
    requires IsRun(run) && i < |run| && Touches(run[i], run[i].rem(t), h)
    ensures var s := run[i];
            && h != 0 && Runs(s.opc(h)) && s.seg(s.rem(t).p.seg) == Owned(h)
            && s.xheap(s.rem(t).p) == h && s.flag(s.rem(t).p) == FREEING
  {
    RunKeeps(run, i);
  }

  // ---------------------- which parts of the state each kind of step changes

  lemma RemoteFrame(s: State, s': State, t: int)
    requires RemoteStep(s, s', t)
    ensures s'.opc == s.opc && s'.seg == s.seg && s'.live == s.live && s'.single == s.single && s'.inFull == s.inFull
    ensures forall u | u != t :: s'.rem(u) == s.rem(u)
    ensures forall p | s.flag(p) == FREEING && s'.flag(p) != FREEING :: RRestore(s, s', t) && s.rem(t).p == p
  {
  }

  lemma OwnerAlone(s: State, s': State, h: int)
    requires OwnerStep(s, s', h)
    ensures s.opc(h) != Dead && (forall k | k != h :: s'.opc(k) == s.opc(k))
  {
    hide Push, Pop, Steal, Carve, Keep, Unkeep, Drop, Collected, Overrun, ChainWalk;
  }

  lemma OwnerFrame(s: State, s': State, h: int)
    requires OwnerStep(s, s', h)
    ensures s.opc(h) != Dead && (forall k | k != h :: s'.opc(k) == s.opc(k))
    ensures forall g | s.seg(g) == Released :: s'.seg(g) == Released
  {
    OwnerAlone(s, s', h);
    hide Push, Pop, Steal, Carve, Keep, Unkeep, Drop, Collected, Overrun, ChainWalk;
  }

  lemma OwnerFlags(s: State, s': State, h: int)
    requires OwnerStep(s, s', h)
    ensures forall p | s.flag(p) == FREEING :: s'.flag(p) == FREEING
  {
    hide Push, Pop, Steal, Carve, Keep, Unkeep, Drop, Collected, Overrun, ChainWalk;
  }

  lemma SegmentFrame(s: State, s': State, h: int)
    requires SegmentStep(s, s', h)
    ensures s.opc(h) != Dead && (forall k | k != h :: s'.opc(k) == s.opc(k))
    ensures forall g | s.seg(g) == Released :: s'.seg(g) == Released || (s.opc(h).TdSeg? && s.opc(h).g == g)
    ensures forall p | s.flag(p) == FREEING :: s'.flag(p) == FREEING
  {
  }

  /** Dead boxes and released segments stay so. */
  lemma EndsStay(s: State, s': State)
    requires InvWalkPc(s) && Next(s, s')
    ensures forall h | s.opc(h) == Dead :: s'.opc(h) == Dead
    ensures forall g | s.seg(g) == Released :: s'.seg(g) == Released
  {
    if b: Block, v: Block :| Scribbles(s, s', b, v) {
    } else if t :| RemoteStep(s, s', t) {
      RemoteFrame(s, s', t);
    } else if h :| OwnerStep(s, s', h) {
      OwnerFrame(s, s', h);
    } else if h :| SegmentStep(s, s', h) {
      SegmentFrame(s, s', h);
    }
  }

  /** FREEING is left only by its holder's own last step. */
  lemma FreeingStays(s: State, s': State, p: Page)
    requires Next(s, s') && s.flag(p) == FREEING && s'.flag(p) != FREEING
    ensures exists t :: RRestore(s, s', t) && s.rem(t).p == p
  {
    if b: Block, v: Block :| Scribbles(s, s', b, v) {
    } else if t :| RemoteStep(s, s', t) {
      RemoteFrame(s, s', t);
    } else if h :| OwnerStep(s, s', h) {
      OwnerFlags(s, s', h);
    } else if h :| SegmentStep(s, s', h) {
      SegmentFrame(s, s', h);
    }
  }

  lemma EndsStayAt(run: seq<State>, j: nat, h: int, g: int)
    requires IsRun(run) && 0 < j < |run|
    ensures run[j - 1].opc(h) == Dead ==> run[j].opc(h) == Dead
    ensures run[j - 1].seg(g) == Released ==> run[j].seg(g) == Released
  {
    assert InvWalkPc(run[j - 1]) by {
      RunKeeps(run, j - 1);
    }
    assert Next(run[j - 1], run[j]) by {
      assert StepAt(run, j - 1);
    }
    EndsStay(run[j - 1], run[j]);
  }

  /** A released box and a released segment stay released. */
  lemma {:induction false} EndsAreFinal(run: seq<State>, i: nat, j: nat, h: int, g: int)
    requires IsRun(run) && i <= j < |run|
    ensures run[i].opc(h) == Dead ==> run[j].opc(h) == Dead
    ensures run[i].seg(g) == Released ==> run[j].seg(g) == Released
    decreases j - i
  {
    if i < j {
      EndsAreFinal(run, i, j - 1, h, g);
      EndsStayAt(run, j, h, g);
    }
  }

  lemma DeadLists(s: State, h: int)
    requires StoreInv(s.m) && InvBatch(s) && s.opc(h) == Dead
    ensures s.m.head(Delayed(h)) == 0 && s.m.head(Batch(h)) == 0
  {
    assert ListOk(s.m, Delayed(h)) && ListOk(s.m, Batch(h));
  }

  lemma DeadUntouched(s: State, h: int)
    requires InvPages(s) && InvRemote(s) && InvHold(s) && InvRoute(s) && s.opc(h) == Dead
    ensures forall t :: !Touches(s, s.rem(t), h)
  {
  }

  lemma DeadUnnamed(s: State, h: int)
    requires InvRoute(s) && s.opc(h) == Dead
    ensures forall p | p in s.live && s.flag(p) != NEVER :: s.xheap(p) != h
    ensures forall g :: s.seg(g) != Owned(h)
  {
  }

  lemma DeadIsEmpty(s: State, h: int)
    requires Inv(s) && s.opc(h) == Dead
    ensures s.m.head(Delayed(h)) == 0 && s.m.head(Batch(h)) == 0
    ensures forall t :: !Touches(s, s.rem(t), h)
    ensures forall p | p in s.live && s.flag(p) != NEVER :: s.xheap(p) != h
    ensures forall g :: s.seg(g) != Owned(h)
  {
    hide StoreInv, InvPages, InvRemote, InvHold, InvRoute, InvBatch, Touches;
    DeadLists(s, h);
    DeadUntouched(s, h);
    DeadUnnamed(s, h);
  }

  /** `thread_done_one` frees its box only when no segment is left to it, no remote is on its way
      to it, both its lists are empty, and all of that stays true for the rest of the run. */
  lemma BoxReleaseSafe(run: seq<State>, i: nat, j: nat, h: int)
    requires IsRun(run) && i < j < |run| && TdFreeBox(run[i], run[i + 1], h)
    ensures var s := run[j];
            && s.opc(h) == Dead && s.m.head(Delayed(h)) == 0 && s.m.head(Batch(h)) == 0
            && (forall t :: !Touches(s, s.rem(t), h))
            && (forall g :: s.seg(g) != Owned(h))
            && (forall p | p in s.live && s.flag(p) != NEVER :: s.xheap(p) != h)
  {
    hide Inv, Touches, Init, StepAt;
    EndsAreFinal(run, i + 1, j, h, 0);
    RunKeeps(run, j);
    DeadIsEmpty(run[j], h);
  }

  // ------------------------------------------------------- the release barrier

  /** Once a segment's release has passed its scan, no thread is inside `remote_free` on any of
      its slots, at any later point of the run. */
  lemma ReleaseBarrier(run: seq<State>, i: nat, j: nat, g: int, t: int)
    requires IsRun(run) && i <= j < |run| && run[i].seg(g) == Released
    ensures run[j].rem(t) == Quiet || run[j].rem(t).p.seg != g
  {
    EndsAreFinal(run, i, j, 0, g);
    RunKeeps(run, j);
  }

  /** While the scan runs, every slot it has passed stays quiet: one pass is enough. */
  lemma ScanIsStable(run: seq<State>, i: nat, g: int, p: Page, t: int)
    requires IsRun(run) && i < |run| && run[i].seg(g).Releasing? && p in run[i].seg(g).passed
    ensures run[i].rem(t) != Quiet ==> run[i].rem(t).p != p
    ensures p !in run[i].live && run[i].flag(p) != FREEING
  {
    RunKeeps(run, i);
  }

  /** FREEING has exactly one holder, and only that holder's last step ends it. */
  lemma FreeingExclusive(run: seq<State>, i: nat, p: Page)
    requires IsRun(run) && i + 1 < |run| && run[i].flag(p) == FREEING
    ensures exists t :: HoldsPage(run[i].rem(t), p) && (forall u | u != t :: !HoldsPage(run[i].rem(u), p))
                        && (run[i + 1].flag(p) == FREEING || RRestore(run[i], run[i + 1], t))
  {
    var s, s' := run[i], run[i + 1];
    RunKeeps(run, i);
    var t :| HoldsPage(s.rem(t), p);
    if s'.flag(p) != FREEING {
      assert StepAt(run, i);
      FreeingStays(s, s', p);
      var u :| RRestore(s, s', u) && s.rem(u).p == p;
      assert u == t;
    }
  }

  // ------------------------------------------------------------ conservation

  /** The list memory spells from a head word: follow the links from it. */
  ghost function Spelled(m: Store, l: ListId): seq<Block> {
    Walk(m.next, m.head(l), |m.carved| + 1)
  }

  lemma ListFits(m: Store, l: ListId)
    requires StoreInv(m)
    ensures |m.lists(l)| <= |m.carved|
  {
    var s := m.lists(l);
    assert ListOk(m, l);
    DistinctSize(s);
    var inList := set b | b in s;
    assert inList <= m.carved;
    assert m.carved == inList + (m.carved - inList);
  }

  lemma SpelledIsList(m: Store, l: ListId)
    requires StoreInv(m) && !l.Cache?
    ensures Spelled(m, l) == m.lists(l)
  {
    ListFits(m, l);
    WalkIsList(m, l, |m.carved| + 1);
  }

  /** The block a thread carries into `remote_free`, before it has linked it anywhere. */
  predicate CarriedBy(s: State, t: int, b: Block) {
    Carries(s.rem(t)) && s.rem(t).b == b
  }

  /** Some list in memory holds the block. */
  ghost predicate Listed(s: State, b: Block) {
    exists l: ListId :: !l.Cache? && b in Spelled(s.m, l)
  }

  ghost predicate Carried(s: State, b: Block) {
    exists t :: CarriedBy(s, t, b)
  }

  /** Its heap keeps the block for the next large request. */
  predicate Cached(s: State, b: Block) {
    b in s.m.carved && s.m.head(Cache(s.m.home(b))) == b
  }

  /** A client has the block: it is carved, and no list, thread or cache has it. */
  ghost predicate WithClient(s: State, b: Block) {
    b in s.m.carved && !Listed(s, b) && !Carried(s, b) && !Cached(s, b)
  }

  lemma ListedIs(s: State, l: ListId, b: Block)
    requires Inv(s) && !l.Cache? && b in Spelled(s.m, l)
    ensures b in s.m.carved && s.m.place(b) == On(l) && s.m.home(b) in s.live
    ensures OfPage(l) ==> s.m.home(b) == l.p
    ensures forall x, y | 0 <= x < y < |Spelled(s.m, l)| :: Spelled(s.m, l)[x] != Spelled(s.m, l)[y]
  {
    SpelledIsList(s.m, l);
    assert ListOk(s.m, l);
  }

  lemma CarriedIs(s: State, t: int, b: Block)
    requires Inv(s) && CarriedBy(s, t, b)
    ensures b in s.m.carved && s.m.place(b) == Flight(t)
  {
  }

  lemma CacheHead(m: Store, b: Block)
    requires StoreInv(m) && b in m.carved
    ensures m.head(Cache(m.home(b))) == b <==> m.place(b) == On(Cache(m.home(b)))
  {
    var l := Cache(m.home(b));
    assert ListOk(m, l);
    if m.head(l) == b {
      assert b == m.lists(l)[0];
    }
  }

  lemma CachedIs(s: State, b: Block)
    requires Inv(s) && b in s.m.carved
    ensures Cached(s, b) <==> s.m.place(b) == On(Cache(s.m.home(b)))
  {
    hide StoreInv, InvUsed, InvA, InvB, InvC;
    CacheHead(s.m, b);
  }

  /** What memory and program counters say of a block's whereabouts is what the record says. */
  lemma PlaceIs(s: State, b: Block)
    requires Inv(s) && b in s.m.carved
    ensures s.m.place(b) == Client <==> WithClient(s, b)
  {
    CachedIs(s, b);
    var pl := s.m.place(b);
    if pl.On? {
      assert ListOk(s.m, pl.l) && b in s.m.lists(pl.l);
      if !pl.l.Cache? {
        SpelledIsList(s.m, pl.l);
        assert Listed(s, b);
      }
    } else if pl.Flight? {
      assert CarriedBy(s, pl.t, b);
    } else {
      forall t | CarriedBy(s, t, b) ensures pl == Flight(t) {
        CarriedIs(s, t, b);
      }
      forall l: ListId | !l.Cache? && b in Spelled(s.m, l) ensures pl == On(l) {
        ListedIs(s, l, b);
      }
    }
  }

  /** A block on a list is on no other list, there once, carried by nobody, not cached, with no client. */
  ghost predicate ListedOnce(s: State, l: ListId) {
    && (forall x, y | 0 <= x < y < |Spelled(s.m, l)| :: Spelled(s.m, l)[x] != Spelled(s.m, l)[y])
    && (forall b | b in Spelled(s.m, l) ::
          && b in s.m.carved && s.m.home(b) in s.live && (OfPage(l) ==> s.m.home(b) == l.p)
          && !Carried(s, b) && !Cached(s, b) && !WithClient(s, b)
          && (forall k: ListId | !k.Cache? && k != l :: b !in Spelled(s.m, k)))
  }

  lemma ListOnce(s: State, l: ListId)
    requires Inv(s) && !l.Cache?
    ensures ListedOnce(s, l)
  {
    forall b | b in Spelled(s.m, l)
      ensures !Carried(s, b) && !Cached(s, b) && b in s.m.carved && s.m.home(b) in s.live
      ensures OfPage(l) ==> s.m.home(b) == l.p
      ensures forall k: ListId | !k.Cache? && k != l :: b !in Spelled(s.m, k)
    {
      ListedIs(s, l, b);
      CachedIs(s, b);
      forall t | CarriedBy(s, t, b) ensures s.m.place(b) == Flight(t) {
        CarriedIs(s, t, b);
      }
      forall k: ListId | !k.Cache? && b in Spelled(s.m, k) ensures k == l {
        ListedIs(s, k, b);
      }
    }
    SpelledIsList(s.m, l);
    assert ListOk(s.m, l);
  }

  /** In every reachable state, reading only links, head words and program counters: a carved block
      is on exactly one list and there once, or carried by exactly one thread, or cached, or else with
      a client, and never two of these; and nothing that is not carved is anywhere. */
  lemma Conservation(run: seq<State>, i: nat)
    requires IsRun(run) && i < |run|
    ensures var s := run[i];
            && (forall l: ListId | !l.Cache? :: ListedOnce(s, l))
            && (forall t, b | CarriedBy(s, t, b) ::
                  && b in s.m.carved && !Listed(s, b) && !Cached(s, b) && !WithClient(s, b)
                  && (forall u | CarriedBy(s, u, b) :: u == t))
            && (forall b | Cached(s, b) :: !Listed(s, b) && !Carried(s, b) && !WithClient(s, b))
            && (forall b | b in s.m.carved ::
                  && (Listed(s, b) || Carried(s, b) || Cached(s, b) || WithClient(s, b))
                  && (s.m.place(b) == Client <==> WithClient(s, b)))
  {
    var s := run[i];
    RunKeeps(run, i);
    hide Inv, Spelled;
    forall l: ListId | !l.Cache? ensures ListedOnce(s, l) {
      ListOnce(s, l);
    }
    forall t, b | CarriedBy(s, t, b) ensures b in s.m.carved && s.m.place(b) == Flight(t) {
      CarriedIs(s, t, b);
    }
    forall b | b in s.m.carved ensures s.m.place(b) == Client <==> WithClient(s, b) {
      PlaceIs(s, b);
    }
    forall b | Cached(s, b) ensures s.m.place(b) == On(Cache(s.m.home(b))) {
      CachedIs(s, b);
    }
  }

  /** The blocks of `p` that none of its own two lists spells and that it does not cache. */
  ghost function OutOfPage(m: Store, p: Page): set<Block> {
    set b | b in m.carved && m.home(b) == p
            && b !in Spelled(m, Free(p)) && b !in Spelled(m, Local(p)) && b !in m.lists(Cache(p))
  }

  lemma RestsOn(m: Store, b: Block)
    requires StoreInv(m) && b in m.carved
    ensures var p := m.home(b);
            Resting(m.place(b)) <==> b in m.lists(Free(p)) || b in m.lists(Local(p)) || b in m.lists(Cache(p))
  {
    var p := m.home(b);
    assert ListOk(m, Free(p)) && ListOk(m, Local(p)) && ListOk(m, Cache(p));
    if m.place(b).On? {
      assert ListOk(m, m.place(b).l);
    }
  }

  lemma OutIsUsed(m: Store, p: Page)
    requires StoreInv(m)
    ensures OutOfPage(m, p) == UsedSet(m, p)
  {
    SpelledIsList(m, Free(p));
    SpelledIsList(m, Local(p));
    forall b | b in m.carved && m.home(b) == p
      ensures Resting(m.place(b)) <==> b in m.lists(Free(p)) || b in m.lists(Local(p)) || b in m.lists(Cache(p))
    {
      RestsOn(m, b);
    }
    hide StoreInv, Spelled;
    assert OutOfPage(m, p) == UsedSet(m, p);
  }

  /** `used` counts exactly the blocks of a page that are not on its `free` or `local_free` list
      and not cached: whatever thread, list or client has them. */
  lemma UsedCounts(run: seq<State>, i: nat, p: Page)
    requires IsRun(run) && i < |run| && p in run[i].live
    ensures run[i].used(p) == |OutOfPage(run[i].m, p)|
  {
    var s := run[i];
    RunKeeps(run, i);
    OutIsUsed(s.m, p);
  }

  // ---------------------------------------------------------- no false abort

  /** If clients free each block at most once, no double-free test ever fires: not the local
      wrap, not either remote compare, not the bound on the collect walk. */
  lemma NoFalseAbort(run: seq<State>, i: nat, t: int, b: Block, p: Page)
    requires IsRun(run) && i < |run|
    ensures var s := run[i];
            && !s.aborted
            && (s.rem(t).Loaded? ==> s.rem(t).xh != s.rem(t).b)
            && (s.rem(t).SawHead? ==> s.rem(t).d != s.rem(t).b)
            && (b in s.m.carved && !Resting(s.m.place(b)) ==> s.used(s.m.home(b)) >= 1)
            && (p in s.live ==> |Spelled(s.m, Chain(p))| <= s.used(p))
  {
    var s := run[i];
    RunKeeps(run, i);
    if b in s.m.carved && !Resting(s.m.place(b)) {
      UsedHas(s, b);
    }
    if p in s.live {
      ChainFits(s, p);
      SpelledIsList(s.m, Chain(p));
    }
  }

  // --------------------------------------------------------------- un-parking

  /** A page in the full queue whose flag no longer sends frees to its owner has a block there
      already: on the owner's delayed list, or in the batch being drained. */
  lemma ParkedIsAwaited(run: seq<State>, i: nat, p: Page, h: int)
    requires IsRun(run) && i < |run|
    requires p in run[i].inFull && run[i].seg(p.seg) == Owned(h) && run[i].flag(p) == NORMAL
    requires run[i].opc(h) != ParkSet(p)
    ensures exists b :: b in run[i].m.carved && run[i].m.home(b) == p
                        && (b in Spelled(run[i].m, Delayed(h)) || b in Spelled(run[i].m, Batch(h)))
  {
    var s := run[i];
    RunKeeps(run, i);
    var b :| b in s.m.carved && s.m.home(b) == p && (s.m.place(b) == On(Delayed(h)) || s.m.place(b) == On(Batch(h)));
    assert b in s.m.lists(s.m.place(b).l);
    SpelledIsList(s.m, Delayed(h));
    SpelledIsList(s.m, Batch(h));
  }

  /** Where a remote free of a settled page goes: single-block and parked pages, which the owner
      never scans, are never NORMAL without a block already on its way; scanned pages are NORMAL. */
  lemma FlagMatchesQueue(run: seq<State>, i: nat, p: Page, h: int)
    requires IsRun(run) && i < |run| && run[i].opc(h) == Idle && Mine(run[i], h, p)
    ensures run[i].flag(p) != NEVER && run[i].xheap(p) == h
    ensures p in run[i].single ==> run[i].flag(p) == DELAYED || run[i].flag(p) == FREEING
    ensures p !in run[i].single && p !in run[i].inFull ==> run[i].flag(p) == NORMAL
  {
    RunKeeps(run, i);
  }

  /** An abandoned segment's pages are all NEVER and name no box. */
  lemma OrphansNameNoBox(run: seq<State>, i: nat, p: Page)
    requires IsRun(run) && i < |run| && p in run[i].live && run[i].seg(p.seg) == Orphan
    ensures run[i].flag(p) == NEVER && run[i].xheap(p) == 0
  {
    RunKeeps(run, i);
  }
}
