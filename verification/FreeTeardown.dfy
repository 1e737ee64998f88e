/** Releases, adoptions and teardowns keep the invariant. */
module FreeTeardown {
  import opened BlockStore
  import opened FreeProtocol
  import opened FreeInvariant
  import opened FreeData
  import opened FreeRemote
  import opened FreeOwner
  import opened FreeParking

  lemma NewSegA(s: State, s': State, h: int, g: int)
    requires InvA(s) && NewSeg(s, s', h, g)
    ensures InvA(s')
  {
  }

  lemma NewSegRoute(s: State, s': State, h: int, g: int)
    requires InvPages(s) && InvB(s) && NewSeg(s, s', h, g)
    ensures InvRoute(s')
  {
    hide InvWalkPc;
  }

  lemma NewSegPc(s: State, s': State, h: int, g: int)
    requires InvPages(s) && InvPc(s) && NewSeg(s, s', h, g)
    ensures InvPc(s')
  {
  }

  lemma NewSegB(s: State, s': State, h: int, g: int)
    requires InvPages(s) && InvB(s) && NewSeg(s, s', h, g)
    ensures InvB(s')
  {
    hide InvPages, InvRoute, InvPc;
    NewSegRoute(s, s', h, g);
    NewSegPc(s, s', h, g);
  }

  lemma NewSegC(s: State, s': State, h: int, g: int)
    requires InvPages(s) && InvHold(s) && InvRelease(s) && InvC(s) && NewSeg(s, s', h, g)
    ensures InvC(s')
  {
  }

  lemma NewSegKeeps(s: State, s': State, h: int, g: int)
    requires Inv(s) && NewSeg(s, s', h, g)
    ensures Inv(s')
  {
    assert Counted(s');
    NewSegA(s, s', h, g);
    NewSegB(s, s', h, g);
    NewSegC(s, s', h, g);
  }

  // ---------------------------------------------------------------- release

  /** An empty segment leaves its owner for the release scan. */
  ghost predicate Emptied(s: State, s': State, h: int, g: int) {
    && s.seg(g) == Owned(h) && (forall p | p in s.live :: p.seg != g)
    && s'.seg(g) == Releasing({}) && (forall k | k != g :: s'.seg(k) == s.seg(k))
    && s' == s.(seg := s'.seg, opc := s'.opc) && h != 0
    && (forall k | k != h :: s'.opc(k) == s.opc(k))
    && (Between(s.opc(h)) || s.opc(h).TdSeg?)
    && s'.opc(h) == if s.opc(h).TdSeg? then TdWalk else s.opc(h)
  }

  lemma EmptiedA(s: State, s': State, h: int, g: int)
    requires InvA(s) && Emptied(s, s', h, g)
    ensures InvA(s')
  {
  }

  lemma EmptiedRoute(s: State, s': State, h: int, g: int)
    requires InvB(s) && Emptied(s, s', h, g) && (s.opc(h).TdSeg? ==> s.opc(h).g == g)
    ensures InvRoute(s')
  {
  }

  lemma EmptiedPc(s: State, s': State, h: int, g: int)
    requires InvPc(s) && Emptied(s, s', h, g)
    ensures InvPc(s')
  {
  }

  lemma EmptiedC(s: State, s': State, h: int, g: int)
    requires InvPages(s) && InvC(s) && Emptied(s, s', h, g)
    ensures InvC(s')
  {
  }

  lemma EmptiedKeeps(s: State, s': State, h: int, g: int)
    requires Inv(s) && Emptied(s, s', h, g) && (s.opc(h).TdSeg? ==> s.opc(h).g == g)
    ensures Inv(s')
  {
    assert Counted(s');
    EmptiedA(s, s', h, g);
    EmptiedRoute(s, s', h, g);
    EmptiedPc(s, s', h, g);
    EmptiedC(s, s', h, g);
  }

  lemma RelBeginKeeps(s: State, s': State, h: int, g: int)
    requires Inv(s) && RelBegin(s, s', h, g)
    ensures Inv(s')
  {
    EmptiedKeeps(s, s', h, g);
  }

  lemma TdReleaseKeeps(s: State, s': State, h: int)
    requires Inv(s) && TdRelease(s, s', h)
    ensures Inv(s')
  {
    forall p | p in s.live ensures p.seg != s.opc(h).g {
      assert p !in LiveIn(s, s.opc(h).g);
    }
    EmptiedKeeps(s, s', h, s.opc(h).g);
  }

  /** The scan only reads words, and moves a segment nobody owns towards Released. */
  ghost predicate Scanned(s: State, s': State, g: int) {
    && s' == s.(seg := Put(s.seg, g, s'.seg(g))) && s.seg(g).Releasing?
    && (s'.seg(g).Releasing? ==> forall p | p in s'.seg(g).passed :: p.seg == g && s.flag(p) != FREEING)
    && (s'.seg(g).Releasing? || s'.seg(g).Released?)
    && (s'.seg(g).Released? ==> forall p | s.flag(p) == FREEING :: p.seg != g)
  }

  lemma ScannedA(s: State, s': State, g: int)
    requires InvA(s) && Scanned(s, s', g)
    ensures InvA(s')
  {
  }

  lemma ScannedB(s: State, s': State, g: int)
    requires InvPages(s) && InvB(s) && Scanned(s, s', g)
    ensures InvB(s')
  {
  }

  lemma ScannedC(s: State, s': State, g: int)
    requires InvC(s) && Scanned(s, s', g)
    ensures InvC(s')
  {
  }

  lemma ReleaseKeeps(s: State, s': State, g: int)
    requires Inv(s) && ReleaseStep(s, s', g)
    ensures Inv(s')
  {
    assert Counted(s');
    assert Scanned(s, s', g);
    ScannedA(s, s', g);
    ScannedB(s, s', g);
    ScannedC(s, s', g);
  }

  // --------------------------------------------------------------- adoption

  lemma AdoptPopA(s: State, s': State, h: int, g: int)
    requires InvA(s) && AdoptPop(s, s', h, g)
    ensures InvA(s')
  {
  }

  lemma AdoptPopRoute(s: State, s': State, h: int, g: int)
    requires InvPages(s) && InvB(s) && AdoptPop(s, s', h, g)
    ensures InvRoute(s')
  {
  }

  lemma AdoptPopPc(s: State, s': State, h: int, g: int)
    requires InvB(s) && AdoptPop(s, s', h, g)
    ensures InvPc(s')
  {
  }

  lemma AdoptPopBatch(s: State, s': State, h: int, g: int)
    requires InvBatch(s) && AdoptPop(s, s', h, g)
    ensures InvBatch(s')
  {
  }

  lemma AdoptPopPark(s: State, s': State, h: int, g: int)
    requires InvPages(s) && InvHold(s) && InvRoute(s) && InvPark(s) && InvLone(s) && AdoptPop(s, s', h, g)
    ensures InvPark(s') && InvLone(s')
  {
  }

  lemma AdoptPopKinds(s: State, s': State, h: int, g: int)
    requires InvHold(s) && InvRoute(s) && InvKinds(s) && AdoptPop(s, s', h, g)
    ensures InvKinds(s')
  {
  }

  lemma AdoptPopKeeps(s: State, s': State, h: int, g: int)
    requires Inv(s) && AdoptPop(s, s', h, g)
    ensures Inv(s')
  {
    assert Counted(s');
    AdoptPopA(s, s', h, g);
    AdoptPopRoute(s, s', h, g);
    AdoptPopPc(s, s', h, g);
    AdoptPopBatch(s, s', h, g);
    AdoptPopPark(s, s', h, g);
    AdoptPopKinds(s, s', h, g);
  }

  lemma AdoptHeapA(s: State, s': State, h: int, p: Page)
    requires InvA(s) && InvPc(s) && AdoptHeap(s, s', h, p)
    ensures InvA(s')
  {
  }

  lemma AdoptHeapRoute(s: State, s': State, h: int, p: Page)
    requires InvB(s) && AdoptHeap(s, s', h, p)
    ensures InvRoute(s')
  {
  }

  lemma AdoptHeapPc(s: State, s': State, h: int, p: Page)
    requires InvPages(s) && InvPc(s) && AdoptHeap(s, s', h, p)
    ensures InvPc(s')
  {
  }

  lemma AdoptHeapPark(s: State, s': State, h: int, p: Page)
    requires InvPc(s) && InvC(s) && AdoptHeap(s, s', h, p)
    ensures InvPark(s')
  {
  }

  lemma AdoptHeapKinds(s: State, s': State, h: int, p: Page)
    requires InvKinds(s) && AdoptHeap(s, s', h, p) && InvPc(s) && InvPages(s)
    ensures InvKinds(s')
  {
  }

  lemma AdoptHeapBatch(s: State, s': State, h: int, p: Page)
    requires InvBatch(s) && InvLone(s) && AdoptHeap(s, s', h, p)
    ensures InvBatch(s') && InvLone(s')
  {
  }

  lemma AdoptHeapKeeps(s: State, s': State, h: int, p: Page)
    requires Inv(s) && AdoptHeap(s, s', h, p)
    ensures Inv(s')
  {
    assert Counted(s');
    AdoptHeapA(s, s', h, p);
    AdoptHeapRoute(s, s', h, p);
    AdoptHeapPc(s, s', h, p);
    AdoptHeapPark(s, s', h, p);
    AdoptHeapKinds(s, s', h, p);
    AdoptHeapBatch(s, s', h, p);
  }

  /** The flag half of `AdoptFlag`, after its collect. */
  ghost predicate AdoptFlagged(s: State, s': State, h: int) {
    var o := s.opc(h);
    && o.AdoptSet? && s.flag(o.p) != FREEING
    && s' == s.(flag := Put(s.flag, o.p, if o.p in s.single then DELAYED else NORMAL),
                opc := Put(s.opc, h, AdoptWalk(o.g, o.todo - {o.p})))
  }

  lemma AdoptFlaggedA(s: State, s': State, h: int)
    requires InvA(s) && InvPc(s) && AdoptFlagged(s, s', h)
    ensures InvA(s')
  {
    FlagHold(s, s', s.opc(h).p);
  }

  lemma AdoptFlaggedRoute(s: State, s': State, h: int)
    requires InvB(s) && AdoptFlagged(s, s', h)
    ensures InvRoute(s')
  {
  }

  lemma AdoptFlaggedPc(s: State, s': State, h: int)
    requires InvPc(s) && AdoptFlagged(s, s', h)
    ensures InvPc(s')
  {
  }

  lemma AdoptFlaggedKinds(s: State, s': State, h: int)
    requires InvPc(s) && InvC(s) && AdoptFlagged(s, s', h)
    ensures InvKinds(s')
  {
  }

  lemma AdoptFlaggedBatch(s: State, s': State, h: int)
    requires InvBatch(s) && AdoptFlagged(s, s', h)
    ensures InvBatch(s')
  {
  }

  lemma AdoptFlaggedPark(s: State, s': State, h: int)
    requires InvWalkPc(s) && InvPark(s) && AdoptFlagged(s, s', h)
    ensures InvPark(s')
  {
    hide Awaited;
  }

  lemma AdoptFlagKeeps(s: State, s': State, h: int)
    requires Inv(s) && AdoptFlag(s, s', h)
    ensures Inv(s')
  {
    var s1 := CollectedState(s, s.opc(h).p);
    CollectData(s, s1, s.opc(h).p);
    PrivateKeeps(s, s1);
    assert Counted(s');
    AdoptFlaggedA(s1, s', h);
    AdoptFlaggedRoute(s1, s', h);
    AdoptFlaggedPc(s1, s', h);
    AdoptFlaggedKinds(s1, s', h);
    AdoptFlaggedBatch(s1, s', h);
    AdoptFlaggedPark(s1, s', h);
  }

  lemma AdoptEndB(s: State, s': State, h: int)
    requires InvB(s) && AdoptEnd(s, s', h)
    ensures InvB(s')
  {
  }

  lemma AdoptEndC(s: State, s': State, h: int)
    requires InvC(s) && AdoptEnd(s, s', h)
    ensures InvC(s')
  {
  }

  lemma AdoptEndKeeps(s: State, s': State, h: int)
    requires Inv(s) && AdoptEnd(s, s', h)
    ensures Inv(s')
  {
    assert Counted(s') && InvA(s');
    AdoptEndB(s, s', h);
    AdoptEndC(s, s', h);
  }

  // --------------------------------------------------------------- teardown

  lemma TdBeginOnward(s: State, s': State, h: int)
    requires InvBatch(s) && InvOwnPc(s) && TdBegin(s, s', h)
    ensures Onward(s, s', h)
  {
  }

  lemma TdBeginKeeps(s: State, s': State, h: int)
    requires Inv(s) && TdBegin(s, s', h)
    ensures Inv(s')
  {
    hide Counted, InvOwnPc, Onward, InvA, InvBatch, InvPark, InvKinds, InvLone, InvRoute, InvWalkPc;
    TdBeginOnward(s, s', h);
    OnwardKeeps(s, s', h);
  }

  lemma TdPickRoute(s: State, s': State, h: int, g: int)
    requires InvPages(s) && InvB(s) && TdPick(s, s', h, g)
    ensures InvRoute(s')
  {
    hide InvOwnPc;
  }

  lemma TdPickPc(s: State, s': State, h: int, g: int)
    requires InvPages(s) && InvB(s) && TdPick(s, s', h, g)
    ensures InvPc(s')
  {
  }

  lemma TdPickB(s: State, s': State, h: int, g: int)
    requires InvPages(s) && InvB(s) && TdPick(s, s', h, g)
    ensures InvB(s')
  {
    hide InvPages, InvRoute, InvPc;
    TdPickRoute(s, s', h, g);
    TdPickPc(s, s', h, g);
  }

  lemma TdPickC(s: State, s': State, h: int, g: int)
    requires InvC(s) && TdPick(s, s', h, g)
    ensures InvC(s')
  {
  }

  lemma TdPickKeeps(s: State, s': State, h: int, g: int)
    requires Inv(s) && TdPick(s, s', h, g)
    ensures Inv(s')
  {
    assert Counted(s') && InvA(s');
    TdPickB(s, s', h, g);
    TdPickC(s, s', h, g);
  }

  /** The flag half of `TdNever`, after its collect. */
  ghost predicate NeverFlagged(s: State, s': State, h: int, p: Page) {
    var o := s.opc(h);
    && o.TdSeg? && p in o.todo && s.flag(p) != FREEING
    && s' == s.(flag := Put(s.flag, p, NEVER), opc := Put(s.opc, h, TdClear(o.g, o.todo - {p}, p)))
  }

  lemma NeverFlaggedA(s: State, s': State, h: int, p: Page)
    requires InvA(s) && InvPc(s) && NeverFlagged(s, s', h, p)
    ensures InvA(s')
  {
    FlagHold(s, s', p);
  }

  lemma NeverFlaggedRoute(s: State, s': State, h: int, p: Page)
    requires InvB(s) && NeverFlagged(s, s', h, p)
    ensures InvRoute(s')
  {
  }

  lemma NeverFlaggedPc(s: State, s': State, h: int, p: Page)
    requires InvPc(s) && NeverFlagged(s, s', h, p)
    ensures InvPc(s')
  {
  }

  lemma NeverFlaggedKinds(s: State, s': State, h: int, p: Page)
    requires InvPc(s) && InvC(s) && NeverFlagged(s, s', h, p)
    ensures InvKinds(s')
  {
  }

  lemma NeverFlaggedBatch(s: State, s': State, h: int, p: Page)
    requires InvBatch(s) && NeverFlagged(s, s', h, p)
    ensures InvBatch(s')
  {
  }

  lemma NeverFlaggedPark(s: State, s': State, h: int, p: Page)
    requires InvWalkPc(s) && InvPark(s) && NeverFlagged(s, s', h, p)
    ensures InvPark(s')
  {
    hide Awaited;
  }

  lemma NeverFlaggedKeeps(s: State, s': State, h: int, p: Page)
    requires Inv(s) && NeverFlagged(s, s', h, p)
    ensures Inv(s')
  {
    assert Counted(s');
    NeverFlaggedA(s, s', h, p);
    NeverFlaggedRoute(s, s', h, p);
    NeverFlaggedPc(s, s', h, p);
    NeverFlaggedKinds(s, s', h, p);
    NeverFlaggedBatch(s, s', h, p);
    NeverFlaggedPark(s, s', h, p);
  }

  lemma TdNeverKeeps(s: State, s': State, h: int, p: Page, collect: bool)
    requires Inv(s) && TdNever(s, s', h, p, collect)
    ensures Inv(s')
  {
    if collect {
      var s1 := CollectedState(s, p);
      CollectData(s, s1, p);
      PrivateKeeps(s, s1);
      NeverFlaggedKeeps(s1, s', h, p);
    } else {
      NeverFlaggedKeeps(s, s', h, p);
    }
  }

  lemma TdClearHeapA(s: State, s': State, h: int)
    requires InvA(s) && InvPc(s) && TdClearHeap(s, s', h)
    ensures InvA(s')
  {
  }

  lemma TdClearHeapB(s: State, s': State, h: int)
    requires InvB(s) && TdClearHeap(s, s', h)
    ensures InvB(s')
  {
  }

  lemma TdClearHeapC(s: State, s': State, h: int)
    requires InvC(s) && TdClearHeap(s, s', h)
    ensures InvC(s')
  {
  }

  lemma TdClearHeapKeeps(s: State, s': State, h: int)
    requires Inv(s) && TdClearHeap(s, s', h)
    ensures Inv(s')
  {
    assert Counted(s');
    TdClearHeapA(s, s', h);
    TdClearHeapB(s, s', h);
    TdClearHeapC(s, s', h);
  }

  lemma TdAbandonA(s: State, s': State, h: int)
    requires InvA(s) && TdAbandon(s, s', h)
    ensures InvA(s')
  {
  }

  lemma TdAbandonRoute(s: State, s': State, h: int)
    requires InvPages(s) && InvB(s) && TdAbandon(s, s', h)
    ensures InvRoute(s')
  {
  }

  lemma TdAbandonPc(s: State, s': State, h: int)
    requires InvPages(s) && InvB(s) && TdAbandon(s, s', h)
    ensures InvPc(s')
  {
  }

  lemma TdAbandonPark(s: State, s': State, h: int)
    requires InvPc(s) && InvPark(s) && TdAbandon(s, s', h)
    ensures InvPark(s')
  {
  }

  lemma TdAbandonKinds(s: State, s': State, h: int)
    requires InvPc(s) && InvKinds(s) && TdAbandon(s, s', h)
    ensures InvKinds(s')
  {
  }

  lemma TdAbandonBatch(s: State, s': State, h: int)
    requires s.opc(h).TdSeg? && s.seg(s.opc(h).g) == Owned(h) && InvBatch(s) && TdAbandon(s, s', h)
    ensures InvBatch(s')
  {
  }

  lemma TdAbandonKeeps(s: State, s': State, h: int)
    requires Inv(s) && TdAbandon(s, s', h)
    ensures Inv(s')
  {
    assert Counted(s');
    TdAbandonA(s, s', h);
    TdAbandonRoute(s, s', h);
    TdAbandonPc(s, s', h);
    TdAbandonPark(s, s', h);
    TdAbandonKinds(s, s', h);
    TdAbandonBatch(s, s', h);
  }

  /** A dead huge page leaves during the walk. */
  lemma TdDropHugeA(s: State, s': State, h: int, p: Page)
    requires InvA(s) && InvRoute(s) && InvPc(s) && TdDropHuge(s, s', h, p) && UsedSet(s.m, p) == {}
    ensures InvA(s')
  {
    forall t | Carries(s.rem(t)) ensures s.rem(t).p != p {
      assert s.rem(t).b in UsedSet(s.m, s.rem(t).p);
    }
  }

  lemma TdDropHugeRoute(s: State, s': State, h: int, p: Page)
    requires InvB(s) && TdDropHuge(s, s', h, p)
    ensures InvRoute(s')
  {
  }

  lemma TdDropHugeOwnPc(s: State, s': State, h: int, p: Page)
    requires InvOwnPc(s) && TdDropHuge(s, s', h, p)
    requires InvWalkPc(s)
    ensures InvOwnPc(s')
  {
  }

  lemma TdDropHugeWalkPc(s: State, s': State, h: int, p: Page)
    requires InvWalkPc(s) && TdDropHuge(s, s', h, p)
    ensures InvWalkPc(s')
  {
  }

  lemma TdDropHugePc(s: State, s': State, h: int, p: Page)
    requires InvPc(s) && TdDropHuge(s, s', h, p)
    ensures InvPc(s')
  {
    TdDropHugeOwnPc(s, s', h, p);
    TdDropHugeWalkPc(s, s', h, p);
  }

  lemma TdDropHugeBatch(s: State, s': State, h: int, p: Page)
    requires InvBatch(s) && InvLone(s) && TdDropHuge(s, s', h, p)
    ensures InvBatch(s') && InvLone(s')
  {
  }

  lemma TdDropHugePark(s: State, s': State, h: int, p: Page)
    requires InvPages(s) && InvPark(s) && TdDropHuge(s, s', h, p) && UsedSet(s.m, p) == {}
    ensures InvPark(s')
  {
    forall q, k | Awaited(s.m, q, k) ensures Awaited(s'.m, q, k) {
      var c :| c in s.m.carved && s.m.home(c) == q && (s.m.place(c) == On(Delayed(k)) || s.m.place(c) == On(Batch(k)));
      assert c in UsedSet(s.m, q);
      assert s'.m.home(c) == q && c in s'.m.carved;
    }
  }

  lemma TdDropHugeKinds(s: State, s': State, h: int, p: Page)
    requires InvPages(s) && InvPc(s) && InvKinds(s) && TdDropHuge(s, s', h, p)
    ensures InvKinds(s')
  {
  }

  lemma TdDropHugeKeeps(s: State, s': State, h: int, p: Page)
    requires Inv(s) && TdDropHuge(s, s', h, p)
    ensures Inv(s')
  {
    assert UsedSet(s.m, p) == {};
    RetiredData(s, p);
    TdDropHugeA(s, s', h, p);
    TdDropHugeRoute(s, s', h, p);
    TdDropHugePc(s, s', h, p);
    TdDropHugeBatch(s, s', h, p);
    TdDropHugePark(s, s', h, p);
    TdDropHugeKinds(s, s', h, p);
  }

  // ---------------------------------------------- the drain after the walk

  lemma TdSwapA(s: State, s': State, h: int)
    requires InvA(s) && TdSwap(s, s', h)
    ensures InvA(s')
  {
  }

  lemma TdSwapB(s: State, s': State, h: int)
    requires InvB(s) && TdSwap(s, s', h)
    ensures InvB(s')
  {
  }

  lemma TdSwapBatch(s: State, s': State, h: int)
    requires InvBatch(s) && InvLone(s) && TdSwap(s, s', h)
    ensures InvBatch(s') && InvLone(s')
  {
  }

  lemma TdSwapPark(s: State, s': State, h: int)
    requires InvPark(s) && TdSwap(s, s', h)
    ensures InvPark(s')
  {
    forall q, k | Awaited(s.m, q, k) ensures Awaited(s'.m, q, k) {
      var c :| c in s.m.carved && s.m.home(c) == q && (s.m.place(c) == On(Delayed(k)) || s.m.place(c) == On(Batch(k)));
      assert s'.m.home(c) == q;
    }
  }

  lemma TdSwapKinds(s: State, s': State, h: int)
    requires InvKinds(s) && TdSwap(s, s', h)
    ensures InvKinds(s')
  {
  }

  lemma TdSwapKeeps(s: State, s': State, h: int)
    requires Inv(s) && TdSwap(s, s', h)
    ensures Inv(s')
  {
    assert s.m.head(Batch(h)) == 0 by {
      assert ListOk(s.m, Batch(h));
    }
    SwapData(s, h);
    TdSwapA(s, s', h);
    TdSwapB(s, s', h);
    TdSwapBatch(s, s', h);
    TdSwapPark(s, s', h);
    TdSwapKinds(s, s', h);
  }

  lemma TdRepushA(s: State, s': State, h: int, t: int)
    requires StoreInv(s.m) && InvA(s) && TdRepush(s, s', h, t)
    ensures InvA(s')
  {
    assert ListOk(s.m, Batch(h));
    HoldKept(s, s', t);
  }

  lemma TdRepushB(s: State, s': State, h: int, t: int)
    requires InvB(s) && TdRepush(s, s', h, t)
    ensures InvB(s')
  {
  }

  lemma TdRepushBatch(s: State, s': State, h: int, t: int)
    requires StoreInv(s.m) && InvBatch(s) && InvLone(s) && TdRepush(s, s', h, t)
    ensures InvBatch(s') && InvLone(s')
  {
    assert ListOk(s.m, Batch(h));
  }

  lemma TdRepushPark(s: State, s': State, h: int, t: int)
    requires StoreInv(s.m) && InvRoute(s) && InvPark(s) && TdRepush(s, s', h, t)
    ensures InvPark(s')
  {
    assert ListOk(s.m, Batch(h));
    forall q, k | Awaited(s.m, q, k) && k != h ensures Awaited(s'.m, q, k) {
      var c :| c in s.m.carved && s.m.home(c) == q && (s.m.place(c) == On(Delayed(k)) || s.m.place(c) == On(Batch(k)));
      assert s'.m.home(c) == q;
    }
  }

  lemma TdRepushKinds(s: State, s': State, h: int, t: int)
    requires InvKinds(s) && TdRepush(s, s', h, t)
    ensures InvKinds(s')
  {
  }

  lemma TdRepushKeeps(s: State, s': State, h: int, t: int)
    requires Inv(s) && TdRepush(s, s', h, t)
    ensures Inv(s')
  {
    PopBatchData(s, h, Flight(t));
    TdRepushA(s, s', h, t);
    TdRepushB(s, s', h, t);
    TdRepushBatch(s, s', h, t);
    TdRepushPark(s, s', h, t);
    TdRepushKinds(s, s', h, t);
  }

  lemma TdRepushedKeeps(s: State, s': State, h: int)
    requires Inv(s) && TdRepushed(s, s', h)
    ensures Inv(s')
  {
    OnwardKeeps(s, s', h);
  }

  lemma TdFreeBoxKeeps(s: State, s': State, h: int)
    requires Inv(s) && TdFreeBox(s, s', h)
    ensures Inv(s')
  {
    assert ListOk(s.m, Batch(h));
    OnwardKeeps(s, s', h);
  }

  lemma RetireKeeps(s: State, s': State, h: int, p: Page)
    requires Inv(s) && Retire(s, s', h, p)
    ensures Inv(s')
  {
    RetiredKeeps(s, s', h, p);
  }
}
