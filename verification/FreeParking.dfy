/** Local frees, parking, un-parking, draining and retiring keep the invariant. */
module FreeParking {
  import opened BlockStore
  import opened FreeProtocol
  import opened FreeInvariant
  import opened FreeData
  import opened FreeRemote
  import opened FreeOwner

  // ---------------------------------------------------------------- un-park

  /** A local free found IN_FULL: the page leaves the full queue, its flag is written next. */
  ghost predicate UnparkBegin(s: State, s': State, h: int, p: Page, drain: bool) {
    && Mine(s, h, p) && p in s.inFull && s.opc(h) == (if drain then Draining else Idle)
    && s' == s.(inFull := s.inFull - {p}, opc := Put(s.opc, h, Unpark(p, drain)))
  }

  lemma UnparkBeginRoute(s: State, s': State, h: int, p: Page, drain: bool)
    requires InvRoute(s) && UnparkBegin(s, s', h, p, drain)
    ensures InvRoute(s')
  {
  }

  lemma UnparkBeginPc(s: State, s': State, h: int, p: Page, drain: bool)
    requires InvPages(s) && InvPc(s) && UnparkBegin(s, s', h, p, drain)
    ensures InvPc(s')
  {
  }

  lemma UnparkBeginC(s: State, s': State, h: int, p: Page, drain: bool)
    requires InvC(s) && UnparkBegin(s, s', h, p, drain)
    ensures InvC(s')
  {
    AwaitedKept(s.m, s'.m);
  }

  lemma UnparkBeginKeeps(s: State, s': State, h: int, p: Page, drain: bool)
    requires Inv(s) && UnparkBegin(s, s', h, p, drain)
    ensures Inv(s')
  {
    assert Counted(s') && InvA(s');
    UnparkBeginRoute(s, s', h, p, drain);
    UnparkBeginPc(s, s', h, p, drain);
    UnparkBeginC(s, s', h, p, drain);
  }

  lemma UnparkDoneA(s: State, s': State, h: int)
    requires InvA(s) && InvPc(s) && UnparkDone(s, s', h)
    ensures InvA(s')
  {
    FlagHold(s, s', s.opc(h).p);
  }

  lemma UnparkDoneRoute(s: State, s': State, h: int)
    requires InvPages(s) && InvB(s) && UnparkDone(s, s', h)
    ensures InvRoute(s')
  {
  }

  lemma UnparkDonePc(s: State, s': State, h: int)
    requires InvPages(s) && InvB(s) && UnparkDone(s, s', h)
    ensures InvPc(s')
  {
  }

  lemma UnparkDoneKinds(s: State, s': State, h: int)
    requires InvB(s) && InvKinds(s) && UnparkDone(s, s', h)
    ensures InvKinds(s')
  {
  }

  lemma UnparkDonePark(s: State, s': State, h: int)
    requires InvPc(s) && InvPark(s) && UnparkDone(s, s', h)
    ensures InvPark(s')
  {
  }

  lemma UnparkDoneBatch(s: State, s': State, h: int)
    requires InvBatch(s) && InvLone(s) && UnparkDone(s, s', h)
    ensures InvBatch(s') && InvLone(s')
  {
  }

  lemma UnparkDoneKeeps(s: State, s': State, h: int)
    requires Inv(s) && UnparkDone(s, s', h)
    ensures Inv(s')
  {
    assert Counted(s');
    UnparkDoneA(s, s', h);
    UnparkDoneRoute(s, s', h);
    UnparkDonePc(s, s', h);
    UnparkDoneKinds(s, s', h);
    UnparkDonePark(s, s', h);
    UnparkDoneBatch(s, s', h);
  }

  // ------------------------------------------------------------------- park

  lemma ParkA(s: State, s': State, h: int, p: Page)
    requires InvA(s) && Park(s, s', h, p)
    ensures InvA(s')
  {
  }

  lemma ParkRoute(s: State, s': State, h: int, p: Page)
    requires InvRoute(s) && Park(s, s', h, p)
    ensures InvRoute(s')
  {
  }

  lemma ParkPc(s: State, s': State, h: int, p: Page)
    requires InvPages(s) && InvPc(s) && InvKinds(s) && Park(s, s', h, p)
    ensures InvPc(s')
  {
    ParkWalkPc(s, s', h, p);
    hide InvWalkPc;
  }

  lemma ParkWalkPc(s: State, s': State, h: int, p: Page)
    requires InvWalkPc(s) && Park(s, s', h, p)
    ensures InvWalkPc(s')
  {
  }

  lemma ParkPark(s: State, s': State, h: int, p: Page)
    requires InvKinds(s) && InvRoute(s) && InvHold(s) && InvPark(s) && Park(s, s', h, p)
    ensures InvPark(s')
  {
  }

  lemma ParkKinds(s: State, s': State, h: int, p: Page)
    requires InvPages(s) && InvRoute(s) && InvKinds(s) && Park(s, s', h, p)
    ensures InvKinds(s')
  {
  }

  lemma ParkBatch(s: State, s': State, h: int, p: Page)
    requires InvBatch(s) && InvLone(s) && Park(s, s', h, p)
    ensures InvBatch(s') && InvLone(s')
  {
  }

  lemma ParkKeeps(s: State, s': State, h: int, p: Page)
    requires Inv(s) && Park(s, s', h, p)
    ensures Inv(s')
  {
    assert Counted(s');
    ParkA(s, s', h, p);
    ParkRoute(s, s', h, p);
    ParkPc(s, s', h, p);
    ParkPark(s, s', h, p);
    ParkKinds(s, s', h, p);
    ParkBatch(s, s', h, p);
  }

  lemma ParkDoneA(s: State, s': State, h: int)
    requires InvA(s) && InvPc(s) && ParkDone(s, s', h)
    ensures InvA(s')
  {
    FlagHold(s, s', s.opc(h).p);
  }

  lemma ParkDoneRoute(s: State, s': State, h: int)
    requires InvPages(s) && InvB(s) && InvKinds(s) && ParkDone(s, s', h)
    ensures InvRoute(s')
  {
  }

  lemma ParkDonePc(s: State, s': State, h: int)
    requires InvPages(s) && InvB(s) && InvKinds(s) && ParkDone(s, s', h)
    ensures InvPc(s')
  {
  }

  lemma ParkDoneKinds(s: State, s': State, h: int)
    requires InvPages(s) && InvHold(s) && InvB(s) && InvC(s) && ParkDone(s, s', h)
    ensures InvKinds(s')
  {
  }

  lemma ParkDonePark(s: State, s': State, h: int)
    requires InvPc(s) && InvPark(s) && ParkDone(s, s', h)
    ensures InvPark(s')
  {
  }

  lemma ParkDoneBatch(s: State, s': State, h: int)
    requires InvBatch(s) && InvLone(s) && ParkDone(s, s', h)
    ensures InvBatch(s') && InvLone(s')
  {
  }

  lemma ParkDoneKeeps(s: State, s': State, h: int)
    requires Inv(s) && ParkDone(s, s', h)
    ensures Inv(s')
  {
    assert Counted(s');
    ParkDoneA(s, s', h);
    ParkDoneRoute(s, s', h);
    ParkDonePc(s, s', h);
    ParkDoneKinds(s, s', h);
    ParkDonePark(s, s', h);
    ParkDoneBatch(s, s', h);
  }

  // ---------------------------------------------------------------- drains

  lemma DrainSwapBatch(s: State, s': State, h: int)
    requires StoreInv(s.m) && InvBatch(s) && DrainSwap(s, s', h)
    ensures InvBatch(s')
  {
  }

  lemma DrainSwapPark(s: State, s': State, h: int)
    requires InvPark(s) && DrainSwap(s, s', h)
    ensures InvPark(s')
  {
    forall p, k | Awaited(s.m, p, k) ensures Awaited(s'.m, p, k) {
      var b :| b in s.m.carved && s.m.home(b) == p && (s.m.place(b) == On(Delayed(k)) || s.m.place(b) == On(Batch(k)));
      assert s'.m.home(b) == p;
    }
  }

  lemma DrainSwapA(s: State, s': State, h: int)
    requires InvA(s) && DrainSwap(s, s', h)
    ensures InvA(s')
  {
  }

  lemma DrainSwapRoute(s: State, s': State, h: int)
    requires InvRoute(s) && DrainSwap(s, s', h)
    ensures InvRoute(s')
  {
  }

  lemma DrainSwapPc(s: State, s': State, h: int)
    requires InvPc(s) && DrainSwap(s, s', h)
    ensures InvPc(s')
  {
  }

  lemma DrainSwapKinds(s: State, s': State, h: int)
    requires InvKinds(s) && InvLone(s) && DrainSwap(s, s', h)
    ensures InvKinds(s') && InvLone(s')
  {
  }

  lemma DrainSwapKeeps(s: State, s': State, h: int)
    requires Inv(s) && DrainSwap(s, s', h)
    ensures Inv(s')
  {
    assert s.m.head(Batch(h)) == 0 by {
      assert ListOk(s.m, Batch(h));
    }
    SwapData(s, h);
    DrainSwapA(s, s', h);
    DrainSwapRoute(s, s', h);
    DrainSwapPc(s, s', h);
    DrainSwapKinds(s, s', h);
    DrainSwapBatch(s, s', h);
    DrainSwapPark(s, s', h);
  }

  /** Program counters at which a box owner is inside none of its pages. */
  predicate Between(o: Owner) {
    o.Idle? || o.Draining? || o.TdWalk? || o.TdDrain? || o.TdWait? || o.NoBox? || o.Dead?
  }

  /** A step that only moves an owner from one such point to another. */
  ghost predicate Onward(s: State, s': State, h: int) {
    && s' == s.(opc := Put(s.opc, h, s'.opc(h))) && h != 0
    && Between(s.opc(h)) && Between(s'.opc(h))
    && (Teardown(s.opc(h)) ==> Teardown(s'.opc(h)))
    && (Runs(s'.opc(h)) || forall g :: s.seg(g) != Owned(h))
    && (Runs(s'.opc(h)) || s.m.lists(Delayed(h)) == [])
    && (s.m.lists(Batch(h)) == [] || s'.opc(h).TdDrain? || s'.opc(h).TdWait?)
    && (s.m.lists(Delayed(h)) == [] || s.opc(h) != NoBox)
  }

  lemma OnwardA(s: State, s': State, h: int)
    requires Counted(s) && InvA(s) && Onward(s, s', h)
    ensures Counted(s') && InvA(s')
  {
  }

  lemma OnwardB(s: State, s': State, h: int)
    requires InvB(s) && Onward(s, s', h)
    ensures InvB(s')
  {
  }

  lemma OnwardBatch(s: State, s': State, h: int)
    requires InvBatch(s) && Onward(s, s', h)
    ensures InvBatch(s')
  {
  }

  lemma OnwardPark(s: State, s': State, h: int)
    requires InvPark(s) && InvKinds(s) && InvLone(s) && Onward(s, s', h)
    ensures InvPark(s') && InvKinds(s') && InvLone(s')
  {
  }

  lemma OnwardKeeps(s: State, s': State, h: int)
    requires Inv(s) && Onward(s, s', h)
    ensures Inv(s')
  {
    hide Counted, InvA, InvB, InvBatch, InvPark, InvKinds, InvLone;
    OnwardA(s, s', h);
    OnwardB(s, s', h);
    OnwardBatch(s, s', h);
    OnwardPark(s, s', h);
  }

  lemma DrainEndOnward(s: State, s': State, h: int)
    requires StoreInv(s.m) && InvOwnPc(s) && DrainEnd(s, s', h)
    ensures Onward(s, s', h)
  {
    assert ListOk(s.m, Batch(h));
  }

  lemma DrainEndKeeps(s: State, s': State, h: int)
    requires Inv(s) && DrainEnd(s, s', h)
    ensures Inv(s')
  {
    hide StoreInv, InvOwnPc, Onward, InvA, InvC, InvRoute, InvWalkPc;
    DrainEndOnward(s, s', h);
    OnwardKeeps(s, s', h);
  }

  lemma NewBoxKeeps(s: State, s': State, h: int)
    requires Inv(s) && NewBox(s, s', h)
    ensures Inv(s')
  {
    OnwardKeeps(s, s', h);
  }

  /** One block leaves box `h`'s batch for a place only the owner looks at. */
  ghost predicate BatchOut(s: State, s': State, h: int, b: Block) {
    var m, n := s.m, s'.m;
    && s' == s.(m := n, used := s'.used)
    && n.carved == m.carved && (forall c :: n.home(c) == m.home(c))
    && b in m.carved && m.place(b) == On(Batch(h)) && !Routed(n.place(b))
    && (forall c | c != b :: Routed(m.place(c)) || Routed(n.place(c)) ==> n.place(c) == m.place(c))
    && (forall k :: n.lists(Delayed(k)) == m.lists(Delayed(k)))
    && (forall k | k != h :: n.lists(Batch(k)) == m.lists(Batch(k)))
    && m.lists(Batch(h)) != []
    && (forall k | s.opc(k).FreshSet? :: s'.used(s.opc(k).p) == s.used(s.opc(k).p))
  }

  lemma BatchOutA(s: State, s': State, h: int, b: Block)
    requires InvA(s) && BatchOut(s, s', h, b)
    ensures InvA(s')
  {
  }

  lemma BatchOutB(s: State, s': State, h: int, b: Block)
    requires InvB(s) && BatchOut(s, s', h, b)
    ensures InvB(s')
  {
  }

  lemma BatchOutC(s: State, s': State, h: int, b: Block)
    requires InvC(s) && s.m.home(b) !in s.inFull && BatchOut(s, s', h, b)
    ensures InvC(s')
  {
    forall p, k | Awaited(s.m, p, k) && p != s.m.home(b) ensures Awaited(s'.m, p, k) {
      var c :| c in s.m.carved && s.m.home(c) == p && (s.m.place(c) == On(Delayed(k)) || s.m.place(c) == On(Batch(k)));
      assert s'.m.home(c) == p;
    }
  }

  lemma BatchOutKeeps(s: State, s': State, h: int, b: Block)
    requires Inv(s) && s.m.home(b) !in s.inFull && BatchOut(s, s', h, b) && Counted(s')
    ensures Inv(s')
  {
    BatchOutA(s, s', h, b);
    BatchOutB(s, s', h, b);
    BatchOutC(s, s', h, b);
  }

  // ------------------------------------------------------------ local frees

  /** A local free as two steps: a private move of the block, then the start of an un-park. */
  lemma FreeLocalSplit(s: State, s': State, h: int, b: Block)
    requires Data(s) && InvPc(s) && FreeLocal(s, s', h, b)
    ensures var s1 := s.(m := s'.m, used := s'.used);
            && Counted(s1) && Private(s, s1)
            && (if s.m.home(b) in s.inFull then UnparkBegin(s1, s', h, s.m.home(b), false) else s' == s1)
  {
    var p := s.m.home(b);
    LocalFreedData(s, s.m, s', h, b, false);
    if p !in s.inFull {
      assert s.inFull - {p} == s.inFull;
    }
  }

  lemma FreeLocalKeeps(s: State, s': State, h: int, b: Block)
    requires Inv(s) && FreeLocal(s, s', h, b)
    ensures Inv(s')
  {
    FreeLocalSplit(s, s', h, b);
    var s1 := s.(m := s'.m, used := s'.used);
    PrivateKeeps(s, s1);
    if s.m.home(b) in s.inFull {
      UnparkBeginKeeps(s1, s', h, s.m.home(b), false);
    }
  }

  /** A drained block as two steps: the un-park begins, then the block leaves the batch. */
  lemma DrainOneSplit(s: State, s': State, h: int)
    requires Data(s) && InvPc(s) && DrainOne(s, s', h)
    requires Mine(s, h, s.m.home(s.m.head(Batch(h)))) && s.m.place(s.m.head(Batch(h))) == On(Batch(h))
    requires s.m.head(Batch(h)) in s.m.carved && s.m.lists(Batch(h)) != []
    ensures var b, p := s.m.head(Batch(h)), s.m.home(s.m.head(Batch(h)));
            var s1 := s.(inFull := s'.inFull, opc := s'.opc);
            && Counted(s') && BatchOut(s1, s', h, b) && p !in s1.inFull
            && (if p in s.inFull then UnparkBegin(s, s1, h, p, true) else s1 == s)
  {
    var b, p := s.m.head(Batch(h)), s.m.home(s.m.head(Batch(h)));
    PopBatchData(s, h, Client);
    LocalFreedData(s, Pop(s.m, Batch(h), Client), s', h, b, true);
    if p !in s.inFull {
      assert s.inFull - {p} == s.inFull;
    }
  }

  /** Draining a block of a parked page un-parks the page: this is what brings it back. */
  lemma DrainOneKeeps(s: State, s': State, h: int)
    requires Inv(s) && DrainOne(s, s', h)
    ensures Inv(s')
  {
    DrainedMine(s, h);
    DrainOneSplit(s, s', h);
    var b := s.m.head(Batch(h));
    var s1 := s.(inFull := s'.inFull, opc := s'.opc);
    if s.m.home(b) in s.inFull {
      UnparkBeginKeeps(s, s1, h, s.m.home(b), true);
    }
    BatchOutKeeps(s1, s', h, b);
  }

  /** A block taken from the batch lies in a live page this box owns. */
  lemma DrainedMine(s: State, h: int)
    requires Counted(s) && InvA(s) && InvBatch(s) && s.opc(h) == Draining && s.m.head(Batch(h)) != 0
    ensures var b := s.m.head(Batch(h));
            && b in s.m.carved && s.m.place(b) == On(Batch(h)) && Mine(s, h, s.m.home(b))
            && s.m.lists(Batch(h)) != [] && s.used(s.m.home(b)) > 0
  {
    assert ListOk(s.m, Batch(h));
    assert s.m.lists(Batch(h))[0] == s.m.head(Batch(h));
    UsedHas(s, s.m.head(Batch(h)));
  }

  // ------------------------------------------------------------ retired spans

  lemma RetiredA(s: State, s': State, p: Page)
    requires InvA(s) && InvRoute(s) && p in s.live && p !in s.inFull && s.flag(p) != NEVER
    requires UsedSet(s.m, p) == {} && s' == Retired(s, p)
    ensures InvA(s')
  {
    forall t | Carries(s.rem(t)) ensures s.rem(t).p != p {
      assert s.rem(t).b in UsedSet(s.m, s.rem(t).p);
    }
  }

  lemma RetiredB(s: State, s': State, h: int, p: Page)
    requires InvB(s) && Mine(s, h, p) && (s.opc(h) == Idle || s.opc(h) == Draining)
    requires s' == Retired(s, p)
    ensures InvB(s')
  {
  }

  lemma RetiredC(s: State, s': State, h: int, p: Page)
    requires InvPages(s) && InvC(s) && Mine(s, h, p) && p !in s.inFull
    requires UsedSet(s.m, p) == {} && s' == Retired(s, p)
    ensures InvC(s')
  {
    forall q, k | Awaited(s.m, q, k) ensures Awaited(s'.m, q, k) {
      var c :| c in s.m.carved && s.m.home(c) == q && (s.m.place(c) == On(Delayed(k)) || s.m.place(c) == On(Batch(k)));
      assert c in UsedSet(s.m, q);
      assert s'.m.home(c) == q && c in s'.m.carved;
    }
  }

  lemma RetiredKeeps(s: State, s': State, h: int, p: Page)
    requires Inv(s) && Mine(s, h, p) && (s.opc(h) == Idle || s.opc(h) == Draining)
    requires s.used(p) == 0 && p !in s.inFull && s' == Retired(s, p)
    ensures Inv(s')
  {
    RetiredData(s, p);
    RetiredA(s, s', p);
    RetiredB(s, s', h, p);
    RetiredC(s, s', h, p);
  }

  /** The state once a large span's block is at rest in its heap's cache. */
  function KeptState(s: State, m: Store, b: Block): State {
    s.(m := Keep(m, m.home(b), b), used := Put(s.used, m.home(b), 0))
  }

  lemma FreeLargeSplit(s: State, s': State, h: int, b: Block, keep: bool)
    requires Data(s) && InvLone(s) && InvPc(s) && FreeLarge(s, s', h, b, keep)
    ensures var s1 := KeptState(s, s.m, b);
            && Counted(s1) && Private(s, s1)
            && s' == if keep then s1 else Retired(s1, s.m.home(b))
  {
    UsedHas(s, b);
    LargeOne(s, b);
    LargeKeptData(s, s.m, b);
  }

  lemma FreeLargeKeeps(s: State, s': State, h: int, b: Block, keep: bool)
    requires Inv(s) && FreeLarge(s, s', h, b, keep)
    ensures Inv(s')
  {
    FreeLargeSplit(s, s', h, b, keep);
    var s1 := KeptState(s, s.m, b);
    PrivateKeeps(s, s1);
    if !keep {
      RetiredKeeps(s1, s', h, s.m.home(b));
    }
  }

  lemma DrainLargeSplit(s: State, s': State, h: int, keep: bool)
    requires Data(s) && InvLone(s) && InvPc(s) && DrainLarge(s, s', h, keep)
    requires Mine(s, h, s.m.home(s.m.head(Batch(h)))) && s.m.place(s.m.head(Batch(h))) == On(Batch(h))
    requires s.m.head(Batch(h)) in s.m.carved && s.m.lists(Batch(h)) != []
    ensures var b := s.m.head(Batch(h));
            var s1 := KeptState(s, Pop(s.m, Batch(h), Client), b);
            && Counted(s1) && BatchOut(s, s1, h, b)
            && s' == if keep then s1 else Retired(s1, s.m.home(b))
  {
    var b := s.m.head(Batch(h));
    UsedHas(s, b);
    LargeOne(s, b);
    PopBatchData(s, h, Client);
    LargeKeptData(s, Pop(s.m, Batch(h), Client), b);
  }

  lemma DrainLargeKeeps(s: State, s': State, h: int, keep: bool)
    requires Inv(s) && DrainLarge(s, s', h, keep)
    ensures Inv(s')
  {
    var b := s.m.head(Batch(h));
    DrainedMine(s, h);
    DrainLargeSplit(s, s', h, keep);
    var s1 := KeptState(s, Pop(s.m, Batch(h), Client), b);
    BatchOutKeeps(s, s1, h, b);
    if !keep {
      RetiredKeeps(s1, s', h, s.m.home(b));
    }
  }
}
