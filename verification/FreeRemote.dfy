/** The steps of `remote_free` keep the invariant. */
module FreeRemote {
  import opened BlockStore
  import opened FreeProtocol
  import opened FreeInvariant
  import opened FreeData

  /** `r` and `q` stand for the same claim on the same page. */
  predicate SameClaim(r: Remote, q: Remote) {
    && Carries(r) == Carries(q) && Holds(r) == Holds(q) && HasPushed(r) == HasPushed(q)
    && (Carries(r) ==> r.b == q.b && r.p == q.p)
    && (Holds(r) ==> r.p == q.p)
  }

  /** Only thread `t` moves, and it keeps what it held: FREEING stays where it is. */
  lemma HoldKept(s: State, s': State, t: int)
    requires InvHold(s) && s'.flag == s.flag && (forall u | u != t :: s'.rem(u) == s.rem(u))
    requires Holds(s'.rem(t)) == Holds(s.rem(t))
    requires Holds(s.rem(t)) ==> s'.rem(t).p == s.rem(t).p
    ensures InvHold(s')
  {
    forall p | s'.flag(p) == FREEING ensures exists u :: HoldsPage(s'.rem(u), p) {
      var u :| HoldsPage(s.rem(u), p);
      assert HoldsPage(s'.rem(u), p);
    }
  }

  /** Blocks waiting for an owner are still waiting. */
  lemma AwaitedKept(m: Store, n: Store)
    requires forall b | b in m.carved && m.place(b).On? && !OfPage(m.place(b).l) ::
               b in n.carved && n.home(b) == m.home(b) && n.place(b) == m.place(b)
    ensures forall p, h :: Awaited(m, p, h) ==> Awaited(n, p, h)
  {
    forall p, h | Awaited(m, p, h) ensures Awaited(n, p, h) {
      var b :| b in m.carved && m.home(b) == p && (m.place(b) == On(Delayed(h)) || m.place(b) == On(Batch(h)));
      assert n.home(b) == p;
    }
  }

  lemma AdvanceA(s: State, t: int, q: Remote)
    requires InvA(s) && SameClaim(s.rem(t), q)
    requires q.Loaded? ==> q.xh != q.b
    requires q.SawHead? ==> q.d != q.b
    requires q.HasBox? || q.SawHead? ==> q.h == s.xheap(q.p)
    ensures InvA(s.(rem := Put(s.rem, t, q)))
  {
    HoldKept(s, s.(rem := Put(s.rem, t, q)), t);
  }

  lemma AdvanceC(s: State, t: int, q: Remote)
    requires InvC(s) && SameClaim(s.rem(t), q)
    requires q.Restoring? || q.RestoreLoaded? ==>
               && (q.r == NORMAL || q.r == DELAYED)
               && (q.p in s.live && s.seg(q.p.seg).Owned? ==>
                     OwnerOf(s, q.p) == FreshSet(q.p) || (q.r == DELAYED <==> q.p in s.single))
    ensures InvC(s.(rem := Put(s.rem, t, q)))
  {
  }

  lemma AdvanceB(s: State, t: int, q: Remote)
    requires InvB(s)
    ensures InvB(s.(rem := Put(s.rem, t, q)))
  {
  }

  /** Every step that only moves a thread's program counter. */
  lemma AdvanceKeeps(s: State, t: int, q: Remote)
    requires Inv(s) && SameClaim(s.rem(t), q)
    requires q.Loaded? ==> q.xh != q.b
    requires q.SawHead? ==> q.d != q.b
    requires q.HasBox? || q.SawHead? ==> q.h == s.xheap(q.p)
    requires q.Restoring? || q.RestoreLoaded? ==>
               && (q.r == NORMAL || q.r == DELAYED)
               && (q.p in s.live && s.seg(q.p.seg).Owned? ==>
                     OwnerOf(s, q.p) == FreshSet(q.p) || (q.r == DELAYED <==> q.p in s.single))
    ensures Inv(s.(rem := Put(s.rem, t, q)))
  {
    var s' := s.(rem := Put(s.rem, t, q));
    assert Counted(s');
    AdvanceA(s, t, q);
    AdvanceB(s, t, q);
    AdvanceC(s, t, q);
  }

  lemma RRetryKeeps(s: State, s': State, t: int)
    requires Inv(s) && RRetry(s, s', t)
    ensures Inv(s')
  {
    AdvanceKeeps(s, t, s'.rem(t));
  }

  lemma HeadIsOther(s: State, t: int)
    requires StoreInv(s.m) && InvRemote(s) && s.rem(t).Start?
    ensures s.m.head(Chain(s.rem(t).p)) != s.rem(t).b
  {
    assert ListOk(s.m, Chain(s.rem(t).p));
  }

  lemma RLoadKeeps(s: State, s': State, t: int)
    requires Inv(s) && RLoad(s, s', t)
    ensures Inv(s')
  {
    HeadIsOther(s, t);
    AdvanceKeeps(s, t, s'.rem(t));
  }

  lemma RXheapKeeps(s: State, s': State, t: int)
    requires Inv(s) && RXheap(s, s', t)
    ensures Inv(s')
  {
    AdvanceKeeps(s, t, s'.rem(t));
  }

  lemma RHeadKeeps(s: State, s': State, t: int)
    requires Inv(s) && (RHead(s, s', t) || RHeadRetry(s, s', t))
    ensures Inv(s')
  {
    assert ListOk(s.m, Delayed(s.rem(t).h));
    AdvanceKeeps(s, t, s'.rem(t));
  }

  lemma RFlagsKeeps(s: State, s': State, t: int)
    requires Inv(s) && (RFlags(s, s', t) || RWord(s, s', t) || RWordRetry(s, s', t))
    ensures Inv(s')
  {
    AdvanceKeeps(s, t, s'.rem(t));
  }

  /** Neither compare of `remote_free` can find the block it is freeing. */
  lemma NoRemoteAbort(s: State, s': State, t: int)
    requires Inv(s)
    ensures !RAbort(s, s', t) && !RHeadAbort(s, s', t)
  {
  }

  // ---------------------------------------------------------- claim FREEING

  lemma ClaimHold(s: State, s': State, t: int)
    requires InvHold(s) && RClaim(s, s', t)
    ensures InvHold(s')
  {
    forall p | s'.flag(p) == FREEING ensures exists u :: HoldsPage(s'.rem(u), p) {
      if p == s.rem(t).p {
        assert HoldsPage(s'.rem(t), p);
      } else {
        var u :| HoldsPage(s.rem(u), p);
        assert HoldsPage(s'.rem(u), p);
      }
    }
  }

  lemma ClaimA(s: State, s': State, t: int)
    requires InvPages(s) && InvRemote(s) && InvRelease(s) && RClaim(s, s', t)
    ensures InvPages(s') && InvRemote(s') && InvRelease(s')
  {
  }

  lemma ClaimB(s: State, s': State, t: int)
    requires InvPages(s) && InvRemote(s) && InvB(s) && RClaim(s, s', t)
    ensures InvB(s')
  {
  }

  lemma ClaimC(s: State, s': State, t: int)
    requires InvPages(s) && InvRemote(s) && InvB(s) && InvC(s) && RClaim(s, s', t)
    ensures InvC(s')
  {
  }

  lemma RClaimKeeps(s: State, s': State, t: int)
    requires Inv(s) && RClaim(s, s', t)
    ensures Inv(s')
  {
    ClaimHold(s, s', t);
    ClaimA(s, s', t);
    ClaimB(s, s', t);
    ClaimC(s, s', t);
  }

  // --------------------------------------------------------- release FREEING

  lemma RestoreHold(s: State, s': State, t: int)
    requires InvHold(s) && InvKinds(s) && RRestore(s, s', t)
    ensures InvHold(s')
  {
    forall p | s'.flag(p) == FREEING ensures exists u :: HoldsPage(s'.rem(u), p) {
      var u :| HoldsPage(s.rem(u), p);
      assert HoldsPage(s'.rem(u), p);
    }
  }

  lemma RestoreA(s: State, s': State, t: int)
    requires InvHold(s) && InvKinds(s) && InvPages(s) && InvRemote(s) && InvRelease(s) && RRestore(s, s', t)
    ensures InvPages(s') && InvRemote(s') && InvRelease(s')
  {
  }

  lemma RestoreRoute(s: State, s': State, t: int)
    requires InvHold(s) && InvKinds(s) && InvRoute(s) && RRestore(s, s', t)
    ensures InvRoute(s')
  {
  }

  lemma RestorePc(s: State, s': State, t: int)
    requires InvHold(s) && InvPc(s) && RRestore(s, s', t)
    ensures InvPc(s')
  {
  }

  lemma RestoreC(s: State, s': State, t: int)
    requires InvHold(s) && InvPages(s) && InvRoute(s) && InvC(s) && RRestore(s, s', t)
    ensures InvC(s')
  {
  }

  lemma RRestoreKeeps(s: State, s': State, t: int)
    requires Inv(s) && RRestore(s, s', t)
    ensures Inv(s')
  {
    RestoreHold(s, s', t);
    RestoreA(s, s', t);
    RestoreRoute(s, s', t);
    RestorePc(s, s', t);
    RestoreC(s, s', t);
  }

  // ------------------------------------- a block enters, or leaves to a list

  lemma PushA(s: State, s': State, t: int)
    requires StoreInv(s.m) && InvA(s) && RPush(s, s', t)
    ensures InvA(s')
  {
    HoldKept(s, s', t);
  }

  lemma PushB(s: State, s': State, t: int)
    requires InvRemote(s) && InvB(s) && RPush(s, s', t)
    ensures InvB(s')
  {
  }

  lemma PushC(s: State, s': State, t: int)
    requires StoreInv(s.m) && InvRemote(s) && InvC(s) && RPush(s, s', t)
    ensures InvC(s')
  {
    AwaitedKept(s.m, s'.m);
  }

  lemma RPushKeeps(s: State, s': State, t: int)
    requires Inv(s) && RPush(s, s', t)
    ensures Inv(s')
  {
    RPushData(s, s', t);
    PushA(s, s', t);
    PushB(s, s', t);
    PushC(s, s', t);
  }

  lemma DelayA(s: State, s': State, t: int)
    requires StoreInv(s.m) && InvA(s) && RDelay(s, s', t)
    ensures InvA(s')
  {
    HoldKept(s, s', t);
  }

  lemma DelayB(s: State, s': State, t: int)
    requires InvRemote(s) && InvB(s) && RDelay(s, s', t)
    ensures InvB(s')
  {
  }

  /** The box written to is the owner's, and the block it now holds is what the page awaits. */
  lemma DelayC(s: State, s': State, t: int)
    requires StoreInv(s.m) && InvPages(s) && InvRemote(s) && InvHold(s) && InvRoute(s) && InvC(s)
    requires RDelay(s, s', t)
    ensures InvC(s')
  {
    var r := s.rem(t);
    AwaitedKept(s.m, s'.m);
    assert s'.m.place(r.b) == On(Delayed(r.h)) && s'.m.home(r.b) == r.p;
    assert s.seg(r.p.seg) == Owned(r.h);
  }

  lemma RDelayKeeps(s: State, s': State, t: int)
    requires Inv(s) && RDelay(s, s', t)
    ensures Inv(s')
  {
    RDelayData(s, s', t);
    DelayA(s, s', t);
    DelayB(s, s', t);
    DelayC(s, s', t);
  }

  lemma FreeA(s: State, s': State, t: int, b: Block)
    requires StoreInv(s.m) && InvA(s) && RFree(s, s', t, b)
    ensures InvA(s')
  {
    HoldKept(s, s', t);
  }

  lemma FreeB(s: State, s': State, t: int, b: Block)
    requires InvB(s) && RFree(s, s', t, b)
    ensures InvB(s')
  {
  }

  lemma FreeC(s: State, s': State, t: int, b: Block)
    requires InvC(s) && RFree(s, s', t, b)
    ensures InvC(s')
  {
    AwaitedKept(s.m, s'.m);
  }

  lemma RFreeKeeps(s: State, s': State, t: int, b: Block)
    requires Inv(s) && RFree(s, s', t, b)
    ensures Inv(s')
  {
    RFreeData(s, s', t, b);
    FreeA(s, s', t, b);
    FreeB(s, s', t, b);
    FreeC(s, s', t, b);
  }

  lemma RemoteKeeps(s: State, s': State, t: int)
    requires Inv(s) && RemoteStep(s, s', t)
    ensures Inv(s')
  {
    NoRemoteAbort(s, s', t);
    if b :| RFree(s, s', t, b) { RFreeKeeps(s, s', t, b); }
    else if RLoad(s, s', t) { RLoadKeeps(s, s', t); }
    else if RRetry(s, s', t) { RRetryKeeps(s, s', t); }
    else if RClaim(s, s', t) { RClaimKeeps(s, s', t); }
    else if RPush(s, s', t) { RPushKeeps(s, s', t); }
    else if RXheap(s, s', t) { RXheapKeeps(s, s', t); }
    else if RHead(s, s', t) || RHeadRetry(s, s', t) { RHeadKeeps(s, s', t); }
    else if RDelay(s, s', t) { RDelayKeeps(s, s', t); }
    else if RFlags(s, s', t) || RWord(s, s', t) || RWordRetry(s, s', t) { RFlagsKeeps(s, s', t); }
    else { RRestoreKeeps(s, s', t); }
  }
}
