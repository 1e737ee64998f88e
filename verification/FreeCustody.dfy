/** Who has a block: when a client gets it, and when it gives it up. */
module FreeCustody {
  import opened BlockStore
  import opened FreeProtocol
  import opened FreeInvariant
  import opened FreeData
  import opened FreeTheorems

  /** What the record says of a block a client has; `PlaceIs` reads it off memory. */
  predicate InHand(s: State, b: Block) {
    b in s.m.carved && s.m.place(b) == Client
  }

  /** The step in which the client that has `b` frees it, remotely or as its owner. */
  ghost predicate FreesBlock(s: State, s': State, b: Block) {
    || (exists t: int :: RFree(s, s', t, b))
    || (exists h: int :: FreeLocal(s, s', h, b))
    || (exists h: int, keep: bool :: FreeLarge(s, s', h, b, keep))
  }

  /** The step in which an allocation returns `b`. */
  ghost predicate ReturnsBlock(s: State, s': State, b: Block) {
    || (exists h: int, p: Page :: Malloc(s, s', h, p) && s.m.head(Free(p)) == b)
    || (exists h: int :: FreshLarge(s, s', h, b))
    || (exists h: int, p: Page :: ReuseLarge(s, s', h, p) && s.m.head(Cache(p)) == b)
  }

  // ------------------------------------------------ the two kinds of step

  lemma LocalFreeTakes(s: State, s': State, h: int, b: Block)
    requires Data(s) && FreeLocal(s, s', h, b)
    ensures InHand(s, b) && !InHand(s', b)
    ensures forall c | c != b :: InHand(s', c) == InHand(s, c)
  {
    UsedHas(s, b);
  }

  lemma LargeFreeTakes(s: State, s': State, h: int, b: Block, keep: bool)
    requires Data(s) && InvLone(s) && FreeLarge(s, s', h, b, keep)
    ensures InHand(s, b) && !InHand(s', b)
    ensures forall c | c != b :: InHand(s', c) == InHand(s, c)
  {
    UsedHas(s, b);
  }

  lemma FreeTakes(s: State, s': State, b: Block)
    requires Data(s) && InvLone(s) && FreesBlock(s, s', b)
    ensures InHand(s, b) && !InHand(s', b)
    ensures forall c | c != b :: InHand(s', c) == InHand(s, c)
  {
    hide Data, InvLone, LocalFreed, LargeFreed;
    if t :| RFree(s, s', t, b) {
    } else if h :| FreeLocal(s, s', h, b) {
      LocalFreeTakes(s, s', h, b);
    } else {
      var h, keep :| FreeLarge(s, s', h, b, keep);
      LargeFreeTakes(s, s', h, b, keep);
    }
  }

  lemma MallocGives(s: State, s': State, h: int, p: Page)
    requires StoreInv(s.m) && Malloc(s, s', h, p)
    ensures var b := s.m.head(Free(p)); !InHand(s, b) && InHand(s', b) && forall c | c != b :: InHand(s', c) == InHand(s, c)
  {
    HeadIs(s.m, Free(p));
  }

  lemma ReuseGives(s: State, s': State, h: int, p: Page)
    requires StoreInv(s.m) && ReuseLarge(s, s', h, p)
    ensures var b := s.m.head(Cache(p)); !InHand(s, b) && InHand(s', b) && forall c | c != b :: InHand(s', c) == InHand(s, c)
  {
    HeadIs(s.m, Cache(p));
  }

  lemma AllocGives(s: State, s': State, b: Block)
    requires StoreInv(s.m) && ReturnsBlock(s, s', b)
    ensures !InHand(s, b) && InHand(s', b)
    ensures forall c | c != b :: InHand(s', c) == InHand(s, c)
  {
    hide StoreInv;
    if h, p :| Malloc(s, s', h, p) && s.m.head(Free(p)) == b {
      MallocGives(s, s', h, p);
    } else if h, p :| ReuseLarge(s, s', h, p) && s.m.head(Cache(p)) == b {
      ReuseGives(s, s', h, p);
    } else {
      var h :| FreshLarge(s, s', h, b);
    }
  }

  // ------------------------------------------------------- every other step

  /** Nobody gets a block and nobody gives one up. */
  ghost predicate Still(s: State, s': State) {
    forall b :: InHand(s', b) == InHand(s, b)
  }

  lemma CollectStill(s: State, s': State, p: Page)
    requires Data(s) && p in s.live && s' == CollectedState(s, p)
    ensures Still(s, s')
  {
    ChainFits(s, p);
    hide Data;
    assert !Overrun(s.m, p, s.used(p));
  }

  lemma DrainOneStill(s: State, s': State, h: int)
    requires Data(s) && DrainOne(s, s', h)
    ensures Still(s, s')
  {
    HeadIs(s.m, Batch(h));
    UsedHas(s, s.m.head(Batch(h)));
  }

  lemma DrainLargeStill(s: State, s': State, h: int, keep: bool)
    requires Data(s) && InvLone(s) && DrainLarge(s, s', h, keep)
    ensures Still(s, s')
  {
    var b := s.m.head(Batch(h));
    HeadIs(s.m, Batch(h));
    UsedHas(s, b);
  }

  /** A page is dropped only when no client has a block of it. */
  lemma RetireStill(s: State, p: Page)
    requires Data(s) && p in s.live && s.used(p) == 0
    ensures Still(s, Retired(s, p))
  {
    var used := UsedSet(s.m, p);
    assert used == {};
    forall c ensures InHand(Retired(s, p), c) == InHand(s, c) {
      assert c !in used;
    }
  }

  lemma SwapStill(s: State, s': State, h: int)
    requires s'.m == Steal(s.m, Delayed(h), Batch(h))
    ensures Still(s, s')
  {
  }

  lemma ExtendStill(s: State, s': State, h: int, p: Page, b: Block)
    requires Extend(s, s', h, p, b)
    ensures Still(s, s')
  {
  }

  lemma RepushStill(s: State, s': State, h: int, t: int)
    requires StoreInv(s.m) && TdRepush(s, s', h, t)
    ensures Still(s, s')
  {
    HeadIs(s.m, Batch(h));
  }

  lemma RemoteHands(s: State, s': State, t: int)
    requires InvRemote(s) && RemoteStep(s, s', t)
    ensures Still(s, s') || exists b :: FreesBlock(s, s', b)
  {
    if b: Block :| RFree(s, s', t, b) {
      assert FreesBlock(s, s', b);
    } else {
      assert Still(s, s');
    }
  }

  lemma OwnerHands(s: State, s': State, h: int)
    requires Data(s) && InvLone(s) && OwnerStep(s, s', h)
    ensures Still(s, s') || (exists b :: FreesBlock(s, s', b)) || (exists b :: ReturnsBlock(s, s', b))
  {
    hide InvLone, StoreInv, InvPages, InvUsed, LocalFreed, LargeFreed, CollectedState, Retired;
    if p, b :| Extend(s, s', h, p, b) { ExtendStill(s, s', h, p, b); }
    else if p :| Collect(s, s', h, p) { CollectStill(s, s', p); }
    else if p :| Retire(s, s', h, p) { RetireStill(s, p); }
    else if DrainSwap(s, s', h) { SwapStill(s, s', h); }
    else if DrainOne(s, s', h) { DrainOneStill(s, s', h); }
    else if keep :| DrainLarge(s, s', h, keep) { DrainLargeStill(s, s', h, keep); }
    else if p :| Malloc(s, s', h, p) { assert ReturnsBlock(s, s', s.m.head(Free(p))); }
    else if b :| FreshLarge(s, s', h, b) { assert ReturnsBlock(s, s', b); }
    else if p :| ReuseLarge(s, s', h, p) { assert ReturnsBlock(s, s', s.m.head(Cache(p))); }
    else if b :| FreeLocal(s, s', h, b) { assert FreesBlock(s, s', b); }
    else if b, keep :| FreeLarge(s, s', h, b, keep) { assert FreesBlock(s, s', b); }
    else { assert s'.m == s.m; }
  }

  lemma SegmentStill(s: State, s': State, h: int)
    requires Data(s) && InvWalkPc(s) && SegmentStep(s, s', h)
    ensures Still(s, s')
  {
    hide StoreInv, InvPages, InvUsed;
    if AdoptFlag(s, s', h) { CollectStill(s, CollectedState(s, s.opc(h).p), s.opc(h).p); }
    else if p, c :| TdNever(s, s', h, p, c) { if c { CollectStill(s, CollectedState(s, p), p); } }
    else if p :| TdDropHuge(s, s', h, p) { RetireStill(s, p); }
    else if TdSwap(s, s', h) { SwapStill(s, s', h); }
    else if t :| TdRepush(s, s', h, t) { RepushStill(s, s', h, t); }
    else { assert s'.m == s.m; }
  }

  /** A block changes hands in no step but those. */
  lemma OnlyThose(s: State, s': State)
    requires Inv(s) && Next(s, s')
    ensures Still(s, s') || (exists b :: FreesBlock(s, s', b)) || (exists b :: ReturnsBlock(s, s', b))
  {
    hide InvPages, InvRemote, InvHold, InvRelease, InvRoute, InvOwnPc, InvWalkPc, InvBatch, InvPark, InvKinds, InvLone;
    hide StoreInv, InvUsed, Still, FreesBlock, ReturnsBlock, RemoteStep, OwnerStep, SegmentStep;
    if b: Block, v: Block :| Scribbles(s, s', b, v) {
      ScribbleStill(s, s', b, v);
    } else if t :| RemoteStep(s, s', t) {
      RemoteHands(s, s', t);
    } else if h :| OwnerStep(s, s', h) {
      OwnerHands(s, s', h);
    } else if h :| SegmentStep(s, s', h) {
      SegmentStill(s, s', h);
    } else {
      var g :| ReleaseStep(s, s', g);
      SameStill(s, s');
    }
  }

  lemma ScribbleStill(s: State, s': State, b: Block, v: Block)
    requires Scribbles(s, s', b, v)
    ensures Still(s, s')
  {
  }

  lemma SameStill(s: State, s': State)
    requires s'.m == s.m
    ensures Still(s, s')
  {
  }

  // --------------------------------------------------------------- custody

  /** After any step at all the client has what it had, less what it freed in it, and what an
      allocation returned in it; only a client frees a block, and no allocation returns one a client has. */
  lemma Custody(s: State, s': State, b: Block)
    requires Inv(s) && Next(s, s')
    ensures WithClient(s', b) <==> (WithClient(s, b) && !FreesBlock(s, s', b)) || ReturnsBlock(s, s', b)
    ensures FreesBlock(s, s', b) ==> WithClient(s, b)
    ensures ReturnsBlock(s, s', b) ==> !WithClient(s, b)
  {
    NextKeeps(s, s');
    HandIs(s, b);
    HandIs(s', b);
    StepHands(s, s', b);
  }

  lemma HandIs(s: State, b: Block)
    requires Inv(s)
    ensures InHand(s, b) <==> WithClient(s, b)
  {
    hide Inv;
    if b in s.m.carved {
      PlaceIs(s, b);
    }
  }

  lemma StepHands(s: State, s': State, b: Block)
    requires Inv(s) && Next(s, s')
    ensures InHand(s', b) <==> (InHand(s, b) && !FreesBlock(s, s', b)) || ReturnsBlock(s, s', b)
    ensures FreesBlock(s, s', b) ==> InHand(s, b)
    ensures ReturnsBlock(s, s', b) ==> !InHand(s, b)
  {
    OnlyThose(s, s');
    hide InvPages, InvRemote, InvHold, InvRelease, InvRoute, InvOwnPc, InvWalkPc, InvBatch, InvPark, InvKinds, InvLone;
    hide StoreInv, InvUsed, InHand, FreesBlock, ReturnsBlock, Next;
    if FreesBlock(s, s', b) {
      FreeTakes(s, s', b);
    }
    if ReturnsBlock(s, s', b) {
      AllocGives(s, s', b);
    }
    if c :| FreesBlock(s, s', c) {
      FreeTakes(s, s', c);
    }
    if c :| ReturnsBlock(s, s', c) {
      AllocGives(s, s', c);
    }
  }

  /** The client that has `b` at `i` still has it at `j` unless it freed it in between. */
  lemma {:induction false} KeptUntilFreed(run: seq<State>, i: nat, j: nat, b: Block)
    requires IsRun(run) && i <= j < |run| && WithClient(run[i], b)
    ensures WithClient(run[j], b) || exists k: nat :: i <= k < j && FreesBlock(run[k], run[k + 1], b)
    decreases j - i
  {
    hide WithClient, FreesBlock;
    if i < j {
      KeptUntilFreed(run, i, j - 1, b);
      RunCustody(run, j - 1, b);
    }
  }

  lemma RunCustody(run: seq<State>, i: nat, b: Block)
    requires IsRun(run) && i + 1 < |run|
    ensures WithClient(run[i + 1], b) <==> (WithClient(run[i], b) && !FreesBlock(run[i], run[i + 1], b)) || ReturnsBlock(run[i], run[i + 1], b)
    ensures FreesBlock(run[i], run[i + 1], b) ==> WithClient(run[i], b)
    ensures ReturnsBlock(run[i], run[i + 1], b) ==> !WithClient(run[i], b)
  {
    hide WithClient, FreesBlock, ReturnsBlock, Inv;
    RunKeeps(run, i);
    assert Next(run[i], run[i + 1]) by {
      assert StepAt(run, i);
    }
    hide Next;
    Custody(run[i], run[i + 1], b);
  }

  /** Over every run: a block an allocation has returned is returned again only after its client
      freed it, so no two clients ever have one block. */
  lemma NotTwice(run: seq<State>, i: nat, j: nat, b: Block)
    requires IsRun(run) && i < j && j + 1 < |run|
    requires ReturnsBlock(run[i], run[i + 1], b) && ReturnsBlock(run[j], run[j + 1], b)
    ensures exists k: nat :: i < k < j && FreesBlock(run[k], run[k + 1], b)
  {
    hide WithClient, FreesBlock, ReturnsBlock;
    RunCustody(run, i, b);
    RunCustody(run, j, b);
    KeptUntilFreed(run, i + 1, j, b);
  }

  /** And it is freed a second time only after it was returned again: the premise of all of this,
      that a client frees only what it has, is the guard of the three free steps. */
  lemma {:induction false} GoneUntilReturned(run: seq<State>, i: nat, j: nat, b: Block)
    requires IsRun(run) && i <= j < |run| && !WithClient(run[i], b)
    ensures !WithClient(run[j], b) || exists k: nat :: i <= k < j && ReturnsBlock(run[k], run[k + 1], b)
    decreases j - i
  {
    hide WithClient, ReturnsBlock;
    if i < j {
      GoneUntilReturned(run, i, j - 1, b);
      RunCustody(run, j - 1, b);
    }
  }
}
