/** The steps of an owner keep the invariant. */
module FreeOwner {
  import opened BlockStore
  import opened FreeProtocol
  import opened FreeInvariant
  import opened FreeData
  import opened FreeRemote

  // --------------------------------------- steps that only move blocks about

  /** Blocks move between lists nobody else looks at; counts change on no page being set up. */
  ghost predicate Private(s: State, s': State) {
    && s' == s.(m := s'.m, used := s'.used) && SameRoutes(s.m, s'.m)
    && (forall h | s.opc(h).FreshSet? :: s'.used(s.opc(h).p) == s.used(s.opc(h).p))
  }

  lemma PrivateA(s: State, s': State)
    requires InvA(s) && Private(s, s')
    ensures InvA(s')
  {
  }

  lemma PrivateB(s: State, s': State)
    requires InvB(s) && Private(s, s')
    ensures InvB(s')
  {
  }

  lemma PrivateC(s: State, s': State)
    requires InvC(s) && Private(s, s')
    ensures InvC(s')
  {
    AwaitedKept(s.m, s'.m);
  }

  lemma PrivateKeeps(s: State, s': State)
    requires Inv(s) && Private(s, s') && Counted(s')
    ensures Inv(s')
  {
    PrivateA(s, s');
    PrivateB(s, s');
    PrivateC(s, s');
  }

  lemma ScribblesKeeps(s: State, s': State, b: Block, v: Block)
    requires Inv(s) && Scribbles(s, s', b, v)
    ensures Inv(s')
  {
    ScribbleData(s, s', b, v);
    PrivateKeeps(s, s');
  }

  lemma MallocKeeps(s: State, s': State, h: int, p: Page)
    requires Inv(s) && Malloc(s, s', h, p)
    ensures Inv(s')
  {
    assert Private(s, s') by {
      MallocRoutes(s, s', h, p);
    }
    assert Counted(s') by {
      MallocData(s, s', h, p);
    }
    PrivateKeeps(s, s');
  }

  lemma CollectKeeps(s: State, s': State, h: int, p: Page)
    requires Inv(s) && Collect(s, s', h, p)
    ensures Inv(s')
  {
    CollectData(s, s', p);
    PrivateKeeps(s, s');
  }

  lemma ReuseLargeKeeps(s: State, s': State, h: int, p: Page)
    requires Inv(s) && ReuseLarge(s, s', h, p)
    ensures Inv(s')
  {
    assert Counted(s') && Private(s, s') by {
      ReuseLargeData(s, s', h, p);
    }
    PrivateKeeps(s, s');
  }

  // ---------------------------------------------------------- new blocks

  lemma ExtendA(s: State, s': State, h: int, p: Page, b: Block)
    requires InvA(s) && Extend(s, s', h, p, b)
    ensures InvA(s')
  {
  }

  lemma ExtendB(s: State, s': State, h: int, p: Page, b: Block)
    requires InvB(s) && Extend(s, s', h, p, b)
    ensures InvB(s')
  {
  }

  lemma ExtendC(s: State, s': State, h: int, p: Page, b: Block)
    requires InvC(s) && Extend(s, s', h, p, b)
    ensures InvC(s')
  {
    AwaitedKept(s.m, s'.m);
  }

  lemma ExtendKeeps(s: State, s': State, h: int, p: Page, b: Block)
    requires Inv(s) && Extend(s, s', h, p, b)
    ensures Inv(s')
  {
    ExtendData(s, s', h, p, b);
    ExtendA(s, s', h, p, b);
    ExtendB(s, s', h, p, b);
    ExtendC(s, s', h, p, b);
  }

  // ---------------------------------------------------------- fresh pages

  lemma FreshPages(s: State, s': State, h: int, p: Page, single: bool)
    requires InvPages(s) && Fresh(s, s', h, p, single)
    ensures InvPages(s')
  {
  }

  lemma FreshRemote(s: State, s': State, h: int, p: Page, single: bool)
    requires InvPages(s) && InvRemote(s) && InvHold(s) && InvRoute(s) && Fresh(s, s', h, p, single)
    ensures InvRemote(s') && InvHold(s')
  {
  }

  lemma FreshA(s: State, s': State, h: int, p: Page, single: bool)
    requires InvA(s) && InvRoute(s) && Fresh(s, s', h, p, single)
    ensures InvA(s')
  {
    FreshPages(s, s', h, p, single);
    FreshRemote(s, s', h, p, single);
  }

  lemma FreshRoute(s: State, s': State, h: int, p: Page, single: bool)
    requires InvPages(s) && InvB(s) && Fresh(s, s', h, p, single)
    ensures InvRoute(s')
  {
  }

  lemma FreshPc(s: State, s': State, h: int, p: Page, single: bool)
    requires InvPages(s) && InvB(s) && Fresh(s, s', h, p, single)
    ensures InvPc(s')
  {
  }

  lemma FreshBatch(s: State, s': State, h: int, p: Page, single: bool)
    requires InvPages(s) && InvC(s) && Fresh(s, s', h, p, single)
    ensures InvBatch(s')
  {
  }

  lemma FreshPark(s: State, s': State, h: int, p: Page, single: bool)
    requires InvPages(s) && InvC(s) && Fresh(s, s', h, p, single)
    ensures InvPark(s')
  {
    AwaitedKept(s.m, s'.m);
  }

  lemma FreshKinds(s: State, s': State, h: int, p: Page, single: bool)
    requires InvPages(s) && InvC(s) && Fresh(s, s', h, p, single)
    ensures InvKinds(s')
  {
  }

  lemma FreshLone(s: State, s': State, h: int, p: Page, single: bool)
    requires InvPages(s) && InvC(s) && Fresh(s, s', h, p, single)
    ensures InvLone(s')
  {
  }

  lemma FreshKeeps(s: State, s': State, h: int, p: Page, single: bool)
    requires Inv(s) && Fresh(s, s', h, p, single)
    ensures Inv(s')
  {
    FreshData(s, s', h, p, single);
    FreshA(s, s', h, p, single);
    FreshRoute(s, s', h, p, single);
    FreshPc(s, s', h, p, single);
    FreshBatch(s, s', h, p, single);
    FreshPark(s, s', h, p, single);
    FreshKinds(s, s', h, p, single);
    FreshLone(s, s', h, p, single);
  }

  /** An owner's flag write, which waited FREEING out, leaves every holder alone. */
  lemma FlagHold(s: State, s': State, p: Page)
    requires InvHold(s) && s'.rem == s.rem && s.flag(p) != FREEING
    requires s'.flag == Put(s.flag, p, s'.flag(p)) && s'.flag(p) != FREEING
    ensures InvHold(s')
  {
    forall q | s'.flag(q) == FREEING ensures exists u :: HoldsPage(s'.rem(u), q) {
      var u :| HoldsPage(s.rem(u), q);
      assert HoldsPage(s'.rem(u), q);
    }
  }

  lemma FreshBinnedA(s: State, s': State, h: int)
    requires InvA(s) && InvPc(s) && FreshBinned(s, s', h)
    ensures InvA(s')
  {
    FlagHold(s, s', s.opc(h).p);
  }

  lemma FreshBinnedRoute(s: State, s': State, h: int)
    requires InvB(s) && InvPages(s) && FreshBinned(s, s', h)
    ensures InvRoute(s')
  {
  }

  lemma FreshBinnedPc(s: State, s': State, h: int)
    requires InvPc(s) && InvPages(s) && FreshBinned(s, s', h)
    ensures InvPc(s')
  {
  }

  lemma FreshBinnedB(s: State, s': State, h: int)
    requires InvB(s) && InvPages(s) && FreshBinned(s, s', h)
    ensures InvB(s')
  {
    hide InvPages, InvRoute, InvPc;
    FreshBinnedRoute(s, s', h);
    FreshBinnedPc(s, s', h);
  }

  lemma FreshBinnedBatch(s: State, s': State, h: int)
    requires InvBatch(s) && FreshBinned(s, s', h)
    ensures InvBatch(s')
  {
  }

  lemma FreshBinnedPark(s: State, s': State, h: int)
    requires InvA(s) && InvB(s) && InvC(s) && FreshBinned(s, s', h)
    ensures InvPark(s')
  {
  }

  lemma FreshBinnedKinds(s: State, s': State, h: int)
    requires InvA(s) && InvKinds(s) && FreshBinned(s, s', h)
    ensures InvKinds(s')
  {
  }

  lemma FreshBinnedLone(s: State, s': State, h: int)
    requires InvLone(s) && FreshBinned(s, s', h)
    ensures InvLone(s')
  {
  }

  lemma FreshBinnedKeeps(s: State, s': State, h: int)
    requires Inv(s) && FreshBinned(s, s', h)
    ensures Inv(s')
  {
    assert Counted(s');
    FreshBinnedA(s, s', h);
    FreshBinnedB(s, s', h);
    FreshBinnedBatch(s, s', h);
    FreshBinnedPark(s, s', h);
    FreshBinnedKinds(s, s', h);
    FreshBinnedLone(s, s', h);
  }

  lemma FreshLargeA(s: State, s': State, h: int, b: Block)
    requires InvA(s) && InvPc(s) && FreshLarge(s, s', h, b)
    ensures InvA(s')
  {
    FlagHold(s, s', s.opc(h).p);
  }

  lemma FreshLargeRoute(s: State, s': State, h: int, b: Block)
    requires InvB(s) && InvPages(s) && FreshLarge(s, s', h, b)
    ensures InvRoute(s')
  {
  }

  lemma FreshLargePc(s: State, s': State, h: int, b: Block)
    requires InvPc(s) && InvPages(s) && FreshLarge(s, s', h, b)
    ensures InvPc(s')
  {
  }

  lemma FreshLargeB(s: State, s': State, h: int, b: Block)
    requires InvB(s) && InvPages(s) && FreshLarge(s, s', h, b)
    ensures InvB(s')
  {
    hide InvPages, InvRoute, InvPc;
    FreshLargeRoute(s, s', h, b);
    FreshLargePc(s, s', h, b);
  }

  lemma FreshLargeBatch(s: State, s': State, h: int, b: Block)
    requires InvBatch(s) && FreshLarge(s, s', h, b)
    ensures InvBatch(s')
  {
  }

  lemma FreshLargePark(s: State, s': State, h: int, b: Block)
    requires InvA(s) && InvB(s) && InvC(s) && FreshLarge(s, s', h, b)
    ensures InvPark(s')
  {
    AwaitedKept(s.m, s'.m);
  }

  lemma FreshLargeKinds(s: State, s': State, h: int, b: Block)
    requires InvA(s) && InvKinds(s) && FreshLarge(s, s', h, b)
    ensures InvKinds(s')
  {
  }

  lemma FreshLargeLone(s: State, s': State, h: int, b: Block)
    requires InvPages(s) && InvPc(s) && InvLone(s) && FreshLarge(s, s', h, b)
    ensures InvLone(s')
  {
  }

  lemma FreshLargeKeeps(s: State, s': State, h: int, b: Block)
    requires Inv(s) && FreshLarge(s, s', h, b)
    ensures Inv(s')
  {
    FreshLargeData(s, s', h, b);
    FreshLargeA(s, s', h, b);
    FreshLargeB(s, s', h, b);
    FreshLargeBatch(s, s', h, b);
    FreshLargePark(s, s', h, b);
    FreshLargeKinds(s, s', h, b);
    FreshLargeLone(s, s', h, b);
  }
}
