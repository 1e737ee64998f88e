/** The inductive invariant of the cross-thread free protocol, in the groups its proof uses. */
module FreeInvariant {
  import opened BlockStore
  import opened FreeProtocol

  /** A box whose storage has not been released. */
  predicate Alive(o: Owner) {
    !o.NoBox? && !o.Dead?
  }

  /** A box that may still own segments and receive delayed frees. */
  predicate Runs(o: Owner) {
    Alive(o) && !o.TdDrain? && !o.TdWait?
  }

  predicate Teardown(o: Owner) {
    o.TdWalk? || o.TdSeg? || o.TdClear? || o.TdDrain? || o.TdWait? || o.Dead?
  }

  ghost predicate InvPages(s: State) {
    && (forall b | b in s.m.carved :: s.m.home(b) in s.live)
    && (forall p | p in s.live :: p in s.slots && (s.seg(p.seg).Owned? || s.seg(p.seg) == Orphan))
    && (forall p :: s.flag(p) == FREEING ==> p in s.slots)
    && (forall p :: s.flag(p) == NEVER ==> p in s.live)
    && (forall p | p in s.slots :: s.seg(p.seg) != Absent)
    && s.single <= s.live && s.inFull <= s.live && s.single !! s.inFull
  }

  /** A block a thread carries is in nobody else's hands, and its loads are consistent with that. */
  ghost predicate InvRemote(s: State) {
    && (forall t | Carries(s.rem(t)) ::
          var r := s.rem(t);
          r.b in s.m.carved && s.m.home(r.b) == r.p && s.m.place(r.b) == Flight(t))
    && (forall t | s.rem(t).Loaded? :: s.rem(t).xh != s.rem(t).b)
    && (forall t | s.rem(t).SawHead? :: s.rem(t).d != s.rem(t).b)
    && (forall t | s.rem(t).HasBox? || s.rem(t).SawHead? :: s.rem(t).h == s.xheap(s.rem(t).p))
    && (forall b | b in s.m.carved && s.m.place(b).Flight? ::
          Carries(s.rem(s.m.place(b).t)) && s.rem(s.m.place(b).t).b == b)
  }

  predicate HoldsPage(r: Remote, p: Page) {
    Holds(r) && r.p == p
  }

  /** FREEING on a page is held by exactly one remote. */
  ghost predicate InvHold(s: State) {
    && (forall t | Holds(s.rem(t)) :: s.flag(s.rem(t).p) == FREEING)
    && (forall t, u | Holds(s.rem(t)) && Holds(s.rem(u)) && s.rem(t).p == s.rem(u).p :: t == u)
    && (forall p | s.flag(p) == FREEING :: exists t :: HoldsPage(s.rem(t), p))
  }

  /** NEVER is written on the way out and replaced on the way back in. */
  ghost predicate NeverOk(seg: SegState, o: Owner, p: Page) {
    || seg == Orphan
    || (seg.Owned? && (o.AdoptWalk? || o.AdoptSet?) && o.g == p.seg && p in o.todo)
    || (seg.Owned? && (o.TdSeg? || o.TdClear?) && o.g == p.seg && p !in o.todo)
  }

  function OwnerOf(s: State, p: Page): Owner {
    if s.seg(p.seg).Owned? then s.opc(s.seg(p.seg).h) else NoBox
  }

  /** The pages an owner is about to write to are its own, in the state its code assumes: in its
      ordinary work, and in the walks of an adoption or a teardown. */
  ghost predicate InvOwnPc(s: State) {
    && s.opc(0) == NoBox
    && (forall h | s.opc(h).ParkSet? :: Mine(s, h, s.opc(h).p) && s.opc(h).p in s.inFull)
    && (forall h | s.opc(h).FreshSet? ::
          var p := s.opc(h).p;
          && Mine(s, h, p) && s.used(p) == 0 && p !in s.inFull
          && (forall b | b in s.m.carved :: s.m.home(b) != p))
    && (forall h | s.opc(h).Unpark? ::
          var p := s.opc(h).p;
          Mine(s, h, p) && p !in s.inFull && p !in s.single)
  }

  ghost predicate InvWalkPc(s: State) {
    && (forall h | s.opc(h).AdoptWalk? || s.opc(h).AdoptSet? ::
          var o := s.opc(h);
          && s.seg(o.g) == Owned(h)
          && (forall p | p in o.todo :: p in s.live && p.seg == o.g && s.flag(p) == NEVER))
    && (forall h | s.opc(h).AdoptSet? ::
          var o := s.opc(h);
          o.p in o.todo && s.xheap(o.p) == h && o.p !in s.inFull)
    && (forall h | s.opc(h).TdSeg? || s.opc(h).TdClear? ::
          var o := s.opc(h);
          && s.seg(o.g) == Owned(h)
          && (forall p | p in o.todo :: p in s.live && p.seg == o.g)
          && (forall p | p in s.live && p.seg == o.g && p !in o.todo ::
                s.flag(p) == NEVER && (s.xheap(p) == 0 || (o.TdClear? && o.p == p))))
    && (forall h | s.opc(h).TdClear? ::
          var o := s.opc(h);
          o.p in s.live && o.p.seg == o.g && o.p !in o.todo)
  }

  ghost predicate InvPc(s: State) {
    InvOwnPc(s) && InvWalkPc(s)
  }

  /** A live page that is not NEVER names the box of the heap that owns its segment. */
  ghost predicate InvRoute(s: State) {
    && (forall p | p in s.live && s.flag(p) != NEVER :: s.seg(p.seg) == Owned(s.xheap(p)))
    && (forall p | p in s.live && s.flag(p) == NEVER :: NeverOk(s.seg(p.seg), OwnerOf(s, p), p))
    && (forall p | p in s.live && s.seg(p.seg) == Orphan :: s.flag(p) == NEVER && s.xheap(p) == 0)
    && (forall g | s.seg(g).Owned? :: s.seg(g).h != 0 && Runs(s.opc(s.seg(g).h)))
  }

  ghost predicate InvBatch(s: State) {
    && (forall h | s.m.lists(Batch(h)) != [] ::
          var o := s.opc(h);
          o.Draining? || (o.Unpark? && o.drain) || o.TdDrain? || o.TdWait?)
    && (forall h | s.m.lists(Delayed(h)) != [] :: Runs(s.opc(h)))
    && (forall b | b in s.m.carved && s.m.place(b).On? && !OfPage(s.m.place(b).l)
                   && !Teardown(s.opc(s.m.place(b).l.h)) ::
          s.seg(s.m.home(b).seg) == Owned(s.m.place(b).l.h))
  }

  /** Some block of `p` is on its owner's delayed list or in the batch it is draining. */
  ghost predicate Awaited(m: Store, p: Page, h: int) {
    exists b :: b in m.carved && m.home(b) == p && (m.place(b) == On(Delayed(h)) || m.place(b) == On(Batch(h)))
  }

  ghost predicate InvPark(s: State) {
    && (forall p | p in s.inFull && s.seg(p.seg).Owned? && s.flag(p) == NORMAL ::
          s.opc(s.seg(p.seg).h) == ParkSet(p) || Awaited(s.m, p, s.seg(p.seg).h))
    && (forall t | HasPushed(s.rem(t)) && s.rem(t).p in s.inFull && s.seg(s.rem(t).p.seg).Owned? ::
          Awaited(s.m, s.rem(t).p, s.seg(s.rem(t).p.seg).h))
  }

  /** DELAYED is where the owner does not look: parked pages and single-block spans. */
  ghost predicate InvKinds(s: State) {
    && (forall p | p in s.live && s.seg(p.seg).Owned? ::
          var o := s.opc(s.seg(p.seg).h);
          o == FreshSet(p) ||
          (&& (p in s.single ==> s.flag(p) != NORMAL)
           && (p !in s.single && p !in s.inFull && !(o.Unpark? && o.p == p) ==>
                 s.flag(p) == NORMAL || s.flag(p) == NEVER)
           && (o == ParkSet(p) ==> s.flag(p) == NORMAL)))
    && (forall t | s.rem(t).Restoring? || s.rem(t).RestoreLoaded? ::
          var r := s.rem(t);
          && (r.r == NORMAL || r.r == DELAYED)
          && (r.p in s.live && s.seg(r.p.seg).Owned? ==>
                s.opc(s.seg(r.p.seg).h) == FreshSet(r.p) || (r.r == DELAYED <==> r.p in s.single)))
  }

  ghost predicate InvRelease(s: State) {
    && (forall p | s.flag(p) == FREEING :: s.seg(p.seg) != Absent && s.seg(p.seg) != Released)
    && (forall g, p | s.seg(g).Releasing? && p in s.seg(g).passed :: p.seg == g && s.flag(p) != FREEING)
  }

  ghost predicate InvUsed(s: State) {
    forall p | p in s.live :: s.used(p) == |UsedSet(s.m, p)|
  }

  /** A single-block page has at most one block. */
  ghost predicate InvLone(s: State) {
    forall b, c | b in s.m.carved && c in s.m.carved && s.m.home(b) == s.m.home(c) && s.m.home(b) in s.single ::
      b == c
  }

  /** Who is inside `remote_free`, and what it holds. */
  ghost predicate InvA(s: State) {
    InvPages(s) && InvRemote(s) && InvHold(s) && InvRelease(s)
  }

  /** Which box owns which page. */
  ghost predicate InvB(s: State) {
    InvRoute(s) && InvPc(s)
  }

  /** Which list brings a block back. */
  ghost predicate InvC(s: State) {
    InvBatch(s) && InvPark(s) && InvKinds(s) && InvLone(s)
  }

  /** The blocks and their counts. */
  ghost predicate Counted(s: State) {
    StoreInv(s.m) && InvUsed(s) && !s.aborted
  }

  ghost predicate Inv(s: State) {
    Counted(s) && InvA(s) && InvB(s) && InvC(s)
  }

  lemma InitInv(s: State)
    requires Init(s)
    ensures Inv(s)
  {
    forall l ensures ListOk(s.m, l) {
      assert s.m.lists(l) == [];
    }
  }
}
