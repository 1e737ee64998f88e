/** What can be done when: which operation a state allows, that no operation gets stuck half way, and
    that a remote free needs nobody but a FREEING holder. */
module FreeMoves {
  import opened BlockStore
  import opened FreeProtocol
  import opened FreeInvariant
  import opened FreeData
  import opened FreeParking
  import opened FreeTheorems
  import opened FreeProgress

  // ---------------------------------------------------------------- what may begin

  /** A client may free its block on any thread that is not inside a free already. */
  lemma ClientMayFree(s: State, t: int, b: Block) returns (s': State)
    requires Reachable(s) && WithClient(s, b) && s.rem(t) == Quiet
    ensures RFree(s, s', t, b)
  {
    ReachableInv(s);
    PlaceIs(s, b);
    s' := s.(m := Move(s.m, b, Flight(t)), rem := Put(s.rem, t, Start(b, s.m.home(b))));
  }

  /** The owner of its page may free it at once, and it is not taken for a double free. */
  lemma OwnerMayFree(s: State, h: int, b: Block, keep: bool) returns (s': State)
    requires Reachable(s) && WithClient(s, b) && s.opc(h) == Idle && Mine(s, h, s.m.home(b))
    ensures if s.m.home(b) in s.single then FreeLarge(s, s', h, b, keep) else FreeLocal(s, s', h, b)
    ensures !s'.aborted
  {
    ReachableInv(s);
    PlaceIs(s, b);
    UsedHas(s, b);
    s' := if s.m.home(b) in s.single then LargeFreed(s, b, s.m, keep) else LocalFreed(s, h, b, s.m, false);
  }

  /** A page in use by its queue serves exactly while its free list spells a block. */
  lemma MallocWhen(s: State, h: int, p: Page)
    requires Reachable(s) && s.opc(h) == Idle && Mine(s, h, p) && p !in s.single && p !in s.inFull
    ensures (exists s' :: Malloc(s, s', h, p)) <==> Spelled(s.m, Free(p)) != []
  {
    assert StoreInv(s.m) by {
      ReachableInv(s);
    }
    SpelledIsList(s.m, Free(p));
    assert ListOk(s.m, Free(p));
    if Spelled(s.m, Free(p)) != [] {
      var s' := s.(m := Pop(s.m, Free(p), Client), used := Put(s.used, p, s.used(p) + 1));
      assert Malloc(s, s', h, p);
    }
  }

  /** A drain may begin exactly when something is delayed. */
  lemma DrainWhen(s: State, h: int)
    requires Reachable(s) && s.opc(h) == Idle
    ensures (exists s' :: DrainSwap(s, s', h)) <==> Spelled(s.m, Delayed(h)) != []
  {
    assert StoreInv(s.m) by {
      ReachableInv(s);
    }
    SpelledIsList(s.m, Delayed(h));
    assert ListOk(s.m, Delayed(h));
    if Spelled(s.m, Delayed(h)) != [] {
      var s' := s.(m := Steal(s.m, Delayed(h), Batch(h)), opc := Put(s.opc, h, Draining));
      assert DrainSwap(s, s', h);
    }
  }

  /** A page is retired exactly when no block of it is out and it is not parked. */
  lemma RetireWhen(s: State, h: int, p: Page)
    requires Reachable(s) && s.opc(h) == Idle && Mine(s, h, p)
    ensures (exists s' :: Retire(s, s', h, p)) <==> OutOfPage(s.m, p) == {} && p !in s.inFull
  {
    assert InvUsed(s) && StoreInv(s.m) by {
      ReachableInv(s);
    }
    OutIsUsed(s.m, p);
    var s' := Retired(s, p);
    if s.used(p) == 0 && p !in s.inFull {
      assert Retire(s, s', h, p);
    }
  }

  // ------------------------------------------------------ nothing gets stuck half way

  /** What an owner in the middle of something waits for: a FREEING holder, or the remote free it runs. */
  ghost predicate MustWait(s: State, h: int) {
    match s.opc(h)
    case ParkSet(p) => s.flag(p) == FREEING
    case FreshSet(p) => s.flag(p) == FREEING
    case Unpark(p, _) => s.flag(p) == FREEING
    case AdoptSet(_, _, p) => s.flag(p) == FREEING
    case TdSeg(_, todo) => todo != {} && forall p | p in todo :: s.flag(p) == FREEING
    case TdDrain => s.m.head(Batch(h)) != 0 && forall t :: s.rem(t) != Quiet
    case TdWait(t) => s.rem(t) != Quiet
    case _ => false
  }

  /** Otherwise it has a step, and one that moves it on. */
  ghost predicate MovesOn(s: State, s': State, h: int) {
    (OwnerStep(s, s', h) || SegmentStep(s, s', h)) && (s'.opc(h) != s.opc(h) || s'.m.lists(Batch(h)) != s.m.lists(Batch(h)))
  }

  lemma QueueMoves(s: State, h: int) returns (s': State)
    requires Reachable(s) && !MustWait(s, h)
    requires s.opc(h).ParkSet? || s.opc(h).FreshSet? || s.opc(h).Unpark?
    ensures MovesOn(s, s', h)
  {
    var o := s.opc(h);
    match o
    case ParkSet(p) =>
      s' := s.(flag := Put(s.flag, p, DELAYED), opc := Put(s.opc, h, Idle));
      assert ParkDone(s, s', h);
    case Unpark(p, drain) =>
      s' := s.(flag := Put(s.flag, p, NORMAL), opc := Put(s.opc, h, if drain then Draining else Idle));
      assert UnparkDone(s, s', h);
    case FreshSet(p) =>
      if p in s.single {
        var b := Unused(s.m.carved);
        s' := s.(m := Carve(s.m, p, b), used := Put(s.used, p, 1), flag := Put(s.flag, p, DELAYED), opc := Put(s.opc, h, Idle));
        assert FreshLarge(s, s', h, b);
      } else {
        s' := s.(flag := Put(s.flag, p, NORMAL), opc := Put(s.opc, h, Idle));
        assert FreshBinned(s, s', h);
      }
  }

  /** There is always another address. */
  lemma Unused(c: set<Block>) returns (b: Block)
    ensures b !in c && b != 0
  {
    b := Above(c);
  }

  lemma {:induction false} Above(c: set<Block>) returns (b: Block)
    ensures b > 0 && forall x | x in c :: x < b
    decreases |c|
  {
    if x :| x in c {
      b := Above(c - {x});
      b := if x < b then b else x + 1;
      assert forall y | y in c :: y == x || y in c - {x};
    } else {
      b := 1;
    }
  }

  lemma NoneLeft(s: State, h: int)
    requires Reachable(s) && s.m.lists(Batch(h)) == []
    ensures s.m.head(Batch(h)) == 0
  {
    ReachableInv(s);
    assert ListOk(s.m, Batch(h));
  }

  lemma DrainGoes(s: State, h: int) returns (s': State)
    requires Reachable(s) && s.opc(h) == Draining
    ensures MovesOn(s, s', h)
  {
    hide Reachable;
    if s.m.lists(Batch(h)) != [] {
      BatchHead(s, h);
      s' := DrainStep(s, h);
      assert s.m.lists(Batch(h))[1..] != s.m.lists(Batch(h));
    } else {
      NoneLeft(s, h);
      s' := s.(opc := Put(s.opc, h, Idle));
      assert DrainEnd(s, s', h);
    }
  }

  lemma AdoptionMoves(s: State, h: int) returns (s': State)
    requires !MustWait(s, h) && (s.opc(h).AdoptWalk? || s.opc(h).AdoptSet?)
    requires s.opc(h).AdoptSet? ==> !Overrun(s.m, s.opc(h).p, s.used(s.opc(h).p))
    ensures (SegmentStep(s, s', h)) && s'.opc(h) != s.opc(h)
  {
    var o := s.opc(h);
    if o.AdoptWalk? {
      if o.todo == {} {
        s' := s.(opc := Put(s.opc, h, Idle));
        assert AdoptEnd(s, s', h);
      } else {
        var p :| p in o.todo;
        s' := s.(xheap := Put(s.xheap, p, h), inFull := s.inFull - {p}, opc := Put(s.opc, h, AdoptSet(o.g, o.todo, p)));
        assert AdoptHeap(s, s', h, p);
      }
    } else {
      s' := CollectedState(s, o.p).(flag := Put(s.flag, o.p, if o.p in s.single then DELAYED else NORMAL),
                                    opc := Put(s.opc, h, AdoptWalk(o.g, o.todo - {o.p})));
      assert AdoptFlag(s, s', h);
    }
  }

  lemma TeardownMoves(s: State, h: int) returns (s': State)
    requires !MustWait(s, h) && (s.opc(h).TdWalk? || s.opc(h).TdSeg? || s.opc(h).TdClear?)
    ensures SegmentStep(s, s', h) && s'.opc(h) != s.opc(h)
  {
    var o := s.opc(h);
    match o
    case TdWalk =>
      if g :| s.seg(g) == Owned(h) {
        s' := s.(opc := Put(s.opc, h, TdSeg(g, LiveIn(s, g))));
        assert TdPick(s, s', h, g);
      } else {
        s' := s.(m := Steal(s.m, Delayed(h), Batch(h)), opc := Put(s.opc, h, TdDrain));
        assert TdSwap(s, s', h);
      }
    case TdClear(g, todo, p) =>
      s' := s.(xheap := Put(s.xheap, p, 0), opc := Put(s.opc, h, TdSeg(g, todo)));
      assert TdClearHeap(s, s', h);
    case TdSeg(g, todo) =>
      if todo != {} {
        var p :| p in todo && s.flag(p) != FREEING;
        s' := s.(flag := Put(s.flag, p, NEVER), opc := Put(s.opc, h, TdClear(g, todo - {p}, p)));
        assert TdNever(s, s', h, p, false);
      } else if LiveIn(s, g) != {} {
        s' := s.(seg := Put(s.seg, g, Orphan), opc := Put(s.opc, h, TdWalk));
        assert TdAbandon(s, s', h);
      } else {
        s' := s.(seg := Put(s.seg, g, Releasing({})), opc := Put(s.opc, h, TdWalk));
        assert TdRelease(s, s', h);
      }
  }

  lemma LastDrainMoves(s: State, h: int) returns (s': State)
    requires !MustWait(s, h) && (s.opc(h).TdDrain? || s.opc(h).TdWait?)
    ensures SegmentStep(s, s', h) && s'.opc(h) != s.opc(h)
  {
    if s.opc(h).TdWait? {
      s' := s.(opc := Put(s.opc, h, TdDrain));
      assert TdRepushed(s, s', h);
    } else if s.m.head(Batch(h)) == 0 {
      s' := s.(opc := Put(s.opc, h, Dead));
      assert TdFreeBox(s, s', h);
    } else {
      var t :| s.rem(t) == Quiet;
      var b := s.m.head(Batch(h));
      s' := s.(m := Pop(s.m, Batch(h), Flight(t)), rem := Put(s.rem, t, Start(b, s.m.home(b))), opc := Put(s.opc, h, TdWait(t)));
      assert TdRepush(s, s', h, t);
    }
  }

  /** An owner in the middle of parking, un-parking, building a page, draining, adopting or dying has a next
      step unless it must wait, and it waits only for remote frees that are under way. */
  lemma OwnerMoves(s: State, h: int) returns (s': State)
    requires Reachable(s) && !MustWait(s, h) && s.opc(h) != NoBox && s.opc(h) != Idle && s.opc(h) != Dead
    ensures MovesOn(s, s', h)
  {
    var o := s.opc(h);
    if o.ParkSet? || o.FreshSet? || o.Unpark? {
      s' := QueueMoves(s, h);
    } else if o.Draining? {
      s' := DrainGoes(s, h);
    } else if o.AdoptWalk? || o.AdoptSet? {
      if o.AdoptSet? {
        AdoptFits(s, h);
      }
      s' := AdoptionMoves(s, h);
    } else if o.TdDrain? || o.TdWait? {
      s' := LastDrainMoves(s, h);
    } else {
      s' := TeardownMoves(s, h);
    }
  }

  lemma AdoptFits(s: State, h: int)
    requires Reachable(s) && s.opc(h).AdoptSet?
    ensures !Overrun(s.m, s.opc(h).p, s.used(s.opc(h).p))
  {
    ReachableInv(s);
    ChainFits(s, s.opc(h).p);
  }

  /** A segment's release passes any slot that does not say FREEING, and ends when it has passed all. */
  lemma ReleaseMoves(s: State, g: int, p: Page) returns (s': State)
    requires s.seg(g).Releasing?
    requires (p in s.slots && p.seg == g && p !in s.seg(g).passed && s.flag(p) != FREEING)
             || forall q | q in s.slots && q.seg == g :: q in s.seg(g).passed
    ensures ReleaseStep(s, s', g)
    ensures s'.seg(g) == if p in s.slots && p.seg == g && p !in s.seg(g).passed then Releasing(s.seg(g).passed + {p}) else Released
  {
    if p in s.slots && p.seg == g && p !in s.seg(g).passed {
      s' := s.(seg := Put(s.seg, g, Releasing(s.seg(g).passed + {p})));
      assert RelPass(s, s', g, p);
    } else {
      s' := s.(seg := Put(s.seg, g, Released));
      assert RelDone(s, s', g);
    }
  }

  // ------------------------------------------------------------ orphans

  /** Every orphan has a live page: a segment with none is released, never abandoned. */
  ghost predicate OrphansLive(s: State) {
    forall g | s.seg(g) == Orphan :: exists p :: p in s.live && p.seg == g
  }

  /** What is live in an orphan stays, and only a segment with live pages becomes one. */
  ghost predicate OrphansKept(s: State, s': State) {
    && (forall p | p in s.live && s.seg(p.seg) == Orphan && s'.seg(p.seg) == Orphan :: p in s'.live)
    && (forall g | s'.seg(g) == Orphan && s.seg(g) != Orphan :: exists p :: p in s'.live && p.seg == g)
  }

  lemma DrainOrphans(s: State, s': State, h: int, keep: bool)
    requires Counted(s) && InvA(s) && InvBatch(s) && DrainLarge(s, s', h, keep)
    ensures OrphansKept(s, s')
  {
    DrainedMine(s, h);
    hide Counted, InvA, InvBatch, PushOnto, Pop, Keep, Drop;
  }

  lemma OwnerSegs(s: State, s': State, h: int)
    requires OwnerStep(s, s', h)
    ensures forall g | s'.seg(g) == Orphan :: s.seg(g) == Orphan
  {
    hide PushOnto, Pop, Steal, Carve, Keep, Unkeep, Drop, Collected, Overrun, ChainWalk;
  }

  lemma OwnerOrphans(s: State, s': State, h: int)
    requires Counted(s) && InvA(s) && InvBatch(s) && OwnerStep(s, s', h)
    ensures OrphansKept(s, s')
  {
    hide Counted, InvA, InvBatch;
    OwnerSegs(s, s', h);
    if keep :| DrainLarge(s, s', h, keep) {
      DrainOrphans(s, s', h, keep);
    } else {
      hide Counted, InvA, InvBatch, PushOnto, Pop, Steal, Carve, Keep, Unkeep, Drop, Collected, Overrun, ChainWalk;
    }
  }

  lemma SegmentOrphans(s: State, s': State, h: int)
    requires InvWalkPc(s) && SegmentStep(s, s', h)
    ensures OrphansKept(s, s')
  {
    hide PushOnto, Pop, Steal, Drop, Collected, Overrun, ChainWalk;
    if TdAbandon(s, s', h) {
      var p :| p in LiveIn(s, s.opc(h).g);
      assert p in s'.live && p.seg == s.opc(h).g;
    }
  }

  lemma NextOrphans(s: State, s': State)
    requires Inv(s) && Next(s, s')
    ensures OrphansKept(s, s')
  {
    hide StoreInv, InvBatch, InvPages, InvWalkPc, OwnerStep, SegmentStep;
    if b: Block, v: Block :| Scribbles(s, s', b, v) {
    } else if t :| RemoteStep(s, s', t) {
      RemoteFrame(s, s', t);
    } else if h :| OwnerStep(s, s', h) {
      OwnerOrphans(s, s', h);
    } else if h :| SegmentStep(s, s', h) {
      SegmentOrphans(s, s', h);
    } else {
      var g :| ReleaseStep(s, s', g);
    }
  }

  lemma {:induction false} OrphansHaveBlocks(run: seq<State>, i: nat)
    requires IsRun(run) && i < |run|
    ensures OrphansLive(run[i])
  {
    hide Inv, Next;
    if i > 0 {
      OrphansHaveBlocks(run, i - 1);
      RunKeeps(run, i - 1);
      assert StepAt(run, i - 1);
      NextOrphans(run[i - 1], run[i]);
      OrphansStep(run[i - 1], run[i]);
    }
  }

  lemma OrphansStep(s: State, s': State)
    requires OrphansLive(s) && OrphansKept(s, s')
    ensures OrphansLive(s')
  {
    forall g | s'.seg(g) == Orphan ensures exists p :: p in s'.live && p.seg == g {
      if s.seg(g) == Orphan {
        var p :| p in s.live && p.seg == g;
        assert p in s'.live;
      }
    }
  }

  // ------------------------------------------------------------ a remote free ends

  ghost predicate RemoteAt(path: seq<State>, t: int, i: nat)
    requires i + 1 < |path|
  {
    RemoteStep(path[i], path[i + 1], t)
  }

  /** A path on which only thread `t` moves. */
  ghost predicate RemotePath(path: seq<State>, t: int) {
    path != [] && forall i: nat | i + 1 < |path| :: RemoteAt(path, t, i)
  }

  lemma OneStep(s: State, s': State, t: int)
    requires RemoteStep(s, s', t)
    ensures RemotePath([s, s'], t)
  {
    assert RemoteAt([s, s'], t, 0);
  }

  lemma RemoteCons(s: State, path: seq<State>, t: int)
    requires RemotePath(path, t) && RemoteStep(s, path[0], t)
    ensures RemotePath([s] + path, t)
  {
    var w := [s] + path;
    forall i: nat | i + 1 < |w| ensures RemoteAt(w, t, i) {
      if i > 0 {
        assert RemoteAt(path, t, i - 1);
        assert w[i] == path[i - 1] && w[i + 1] == path[i];
      }
    }
  }

  lemma HolderIsRemote(path: seq<State>, t: int)
    requires HolderPath(path, t)
    ensures RemotePath(path, t)
  {
    forall i: nat | i + 1 < |path| ensures RemoteAt(path, t, i) {
      assert HolderAt(path, t, i);
    }
  }

  lemma RemoteReaches(s: State, s': State, t: int)
    requires Reachable(s) && RemoteStep(s, s', t)
    ensures Reachable(s')
  {
    var run :| EndsAt(run, s);
    assert Next(s, s');
    Extended(run, s');
    assert EndsAt(run + [s'], s');
  }

  /** A thread that has loaded a word which is still there makes its exchange. */
  lemma ExchangeMoves(s: State, t: int) returns (s': State)
    requires Reachable(s) && s.rem(t).Loaded? && s.rem(t).xf != FREEING
    requires s.m.head(Chain(s.rem(t).p)) == s.rem(t).xh && s.flag(s.rem(t).p) == s.rem(t).xf
    ensures RemoteStep(s, s', t) && Reachable(s')
    ensures if s.rem(t).xf == DELAYED then s'.rem(t) == Claimed(s.rem(t).b, s.rem(t).p)
            else s'.rem(t) == Quiet && s'.m.head(Chain(s.rem(t).p)) == s.rem(t).b
  {
    var r := s.rem(t);
    assert r.xh != r.b by {
      ReachableInv(s);
    }
    if r.xf == DELAYED {
      s' := s.(flag := Put(s.flag, r.p, FREEING), rem := Put(s.rem, t, Claimed(r.b, r.p)));
      assert RClaim(s, s', t);
    } else {
      s' := s.(m := Push(s.m, Chain(r.p), r.b), rem := Put(s.rem, t, Quiet));
      assert RPush(s, s', t);
    }
    RemoteReaches(s, s', t);
  }

  lemma FromLoaded(s: State, t: int, h: int) returns (path: seq<State>)
    requires Reachable(s) && s.rem(t).Loaded? && s.rem(t).xf != FREEING
    requires s.m.head(Chain(s.rem(t).p)) == s.rem(t).xh && s.flag(s.rem(t).p) == s.rem(t).xf
    ensures RemotePath(path, t) && path[0] == s && |path| <= 8
    ensures Reachable(path[|path| - 1]) && path[|path| - 1].rem(t) == Quiet
  {
    hide Reachable, RemotePath;
    var s' := ExchangeMoves(s, t);
    if s'.rem(t) == Quiet {
      path := [s, s'];
      OneStep(s, s', t);
    } else {
      var rest := HolderFinishes(s', t, h);
      HolderIsRemote(rest, t);
      RemoteCons(s, rest, t);
      path := [s] + rest;
    }
  }

  lemma FromStart(s: State, t: int, h: int) returns (path: seq<State>)
    requires Reachable(s) && s.rem(t).Start? && s.flag(s.rem(t).p) != FREEING
    ensures RemotePath(path, t) && path[0] == s && |path| <= 9
    ensures Reachable(path[|path| - 1]) && path[|path| - 1].rem(t) == Quiet
  {
    var r := s.rem(t);
    var s' := s.(rem := Put(s.rem, t, Loaded(r.b, r.p, s.m.head(Chain(r.p)), s.flag(r.p))));
    assert RLoad(s, s', t);
    RemoteReaches(s, s', t);
    var rest := FromLoaded(s', t, h);
    RemoteCons(s, rest, t);
    path := [s] + rest;
  }

  /** A remote free under way ends by its own thread's steps, at most nine, from every reachable state
      in which no other thread holds FREEING on its page. */
  lemma RemoteFinishes(s: State, t: int, h: int) returns (path: seq<State>)
    requires Reachable(s) && s.rem(t) != Quiet && (Holds(s.rem(t)) || s.flag(s.rem(t).p) != FREEING)
    ensures RemotePath(path, t) && path[0] == s && |path| <= 10
    ensures Reachable(path[|path| - 1]) && path[|path| - 1].rem(t) == Quiet
  {
    if Holds(s.rem(t)) {
      path := HolderFinishes(s, t, h);
      HolderIsRemote(path, t);
    } else if s.rem(t).Start? {
      path := FromStart(s, t, h);
    } else {
      var r := s.rem(t);
      var s' := s.(rem := Put(s.rem, t, Start(r.b, r.p)));
      assert RRetry(s, s', t);
      RemoteReaches(s, s', t);
      var rest := FromStart(s', t, h);
      RemoteCons(s, rest, t);
      path := [s] + rest;
    }
  }
}
