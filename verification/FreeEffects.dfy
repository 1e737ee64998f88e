/** What the steps that move blocks achieve, read off memory: the lists that links spell before and
    after, and the counts. */
module FreeEffects {
  import opened BlockStore
  import opened FreeProtocol
  import opened FreeInvariant
  import opened FreeData
  import opened FreeTheorems

  /** Every list but those in `but` spells what it did. */
  ghost predicate OthersSpell(m: Store, n: Store, but: set<ListId>) {
    forall l: ListId | !l.Cache? && l !in but :: Spelled(n, l) == Spelled(m, l)
  }

  lemma SameLists(m: Store, n: Store, but: set<ListId>)
    requires StoreInv(m) && StoreInv(n) && forall l: ListId | !l.Cache? && l !in but :: n.lists(l) == m.lists(l)
    ensures OthersSpell(m, n, but)
  {
    forall l: ListId | !l.Cache? && l !in but ensures Spelled(n, l) == Spelled(m, l) {
      SpelledIsList(m, l);
      SpelledIsList(n, l);
    }
  }

  // ---------------------------------------------------------------- collects

  /** The free list takes the local list over when it is dry, and the whole chain goes in front. */
  ghost predicate Gathered(m: Store, n: Store, p: Page) {
    var dry := Spelled(m, Free(p)) == [];
    && Spelled(n, Chain(p)) == []
    && Spelled(n, Free(p)) == Spelled(m, Chain(p)) + (if dry then Spelled(m, Local(p)) else Spelled(m, Free(p)))
    && Spelled(n, Local(p)) == (if dry then [] else Spelled(m, Local(p)))
    && OthersSpell(m, n, {Chain(p), Free(p), Local(p)})
  }

  /** `used` of page `p`, and of no other, drops by `k`. */
  ghost predicate CountedDown(s: State, s': State, p: Page, k: int) {
    s'.used(p) == s.used(p) - k && forall q | q != p :: s'.used(q) == s.used(q)
  }

  lemma GathersLists(m: Store, p: Page, used: int)
    requires StoreInv(m) && |m.lists(Chain(p))| <= used
    ensures var n, dry := Collected(m, p, used), m.lists(Free(p)) == [];
            && n.lists(Chain(p)) == []
            && n.lists(Free(p)) == m.lists(Chain(p)) + (if dry then m.lists(Local(p)) else m.lists(Free(p)))
            && n.lists(Local(p)) == (if dry then [] else m.lists(Local(p)))
            && forall l: ListId | l != Chain(p) && l != Free(p) && l != Local(p) :: n.lists(l) == m.lists(l)
  {
    WalkIsList(m, Chain(p), used + 1);
    assert ListOk(m, Free(p)) && ListOk(m, Chain(p));
    assert m.head(Free(p)) == 0 <==> m.lists(Free(p)) == [];
    hide StoreInv, ListOk;
    if m.lists(Chain(p)) == [] {
      assert Refilled(m, p).lists(Free(p)) == [] + Refilled(m, p).lists(Free(p));
    }
  }

  lemma Gathers(m: Store, p: Page, used: int)
    requires StoreInv(m) && |m.lists(Chain(p))| <= used
    ensures Gathered(m, Collected(m, p, used), p)
  {
    CollectStore(m, p, used);
    GathersLists(m, p, used);
    var n := Collected(m, p, used);
    SpelledIsList(m, Free(p));
    SpelledIsList(m, Local(p));
    SpelledIsList(m, Chain(p));
    SpelledIsList(n, Free(p));
    SpelledIsList(n, Local(p));
    SpelledIsList(n, Chain(p));
    hide Collected;
    SameLists(m, n, {Chain(p), Free(p), Local(p)});
  }

  lemma CollectGathers(s: State, p: Page)
    requires Data(s) && p in s.live
    ensures var s' := CollectedState(s, p);
            Gathered(s.m, s'.m, p) && CountedDown(s, s', p, |Spelled(s.m, Chain(p))|)
  {
    ChainFits(s, p);
    Gathers(s.m, p, s.used(p));
    SpelledIsList(s.m, Chain(p));
  }

  /** In every reachable state a collect takes over the dry free list's local frees and the whole chain. */
  lemma CollectDelivers(run: seq<State>, i: nat, h: int, p: Page)
    requires IsRun(run) && i + 1 < |run| && Collect(run[i], run[i + 1], h, p)
    ensures Gathered(run[i].m, run[i + 1].m, p)
    ensures CountedDown(run[i], run[i + 1], p, |Spelled(run[i].m, Chain(p))|)
  {
    RunKeeps(run, i);
    hide Gathered, CountedDown;
    CollectGathers(run[i], p);
  }

  /** The exchange with which an adopter takes a page out of NEVER does the same. */
  lemma AdoptionDelivers(run: seq<State>, i: nat, h: int)
    requires IsRun(run) && i + 1 < |run| && AdoptFlag(run[i], run[i + 1], h)
    ensures var p := run[i].opc(h).p;
            && Gathered(run[i].m, run[i + 1].m, p)
            && CountedDown(run[i], run[i + 1], p, |Spelled(run[i].m, Chain(p))|)
  {
    RunKeeps(run, i);
    hide Gathered;
    CollectGathers(run[i], run[i].opc(h).p);
  }

  /** And that with which a dying thread puts one there; a huge page keeps its chain. */
  lemma TeardownDelivers(run: seq<State>, i: nat, h: int, p: Page, collect: bool)
    requires IsRun(run) && i + 1 < |run| && TdNever(run[i], run[i + 1], h, p, collect)
    ensures collect ==> Gathered(run[i].m, run[i + 1].m, p)
    ensures collect ==> CountedDown(run[i], run[i + 1], p, |Spelled(run[i].m, Chain(p))|)
    ensures !collect ==> run[i + 1].m == run[i].m && run[i + 1].used == run[i].used
  {
    RunKeeps(run, i);
    hide Gathered;
    CollectGathers(run[i], p);
  }

  // -------------------------------------------------- one block at a time

  lemma PushSpells(m: Store, n: Store, l: ListId, b: Block)
    requires StoreInv(m) && StoreInv(n) && !l.Cache? && n.lists(l) == [b] + m.lists(l)
    requires forall k: ListId | k != l :: n.lists(k) == m.lists(k)
    ensures Spelled(n, l) == [b] + Spelled(m, l) && OthersSpell(m, n, {l})
  {
    SpelledIsList(m, l);
    SpelledIsList(n, l);
    SameLists(m, n, {l});
  }

  lemma PopSpells(m: Store, n: Store, l: ListId)
    requires StoreInv(m) && StoreInv(n) && !l.Cache? && m.lists(l) != [] && n.lists(l) == m.lists(l)[1..]
    requires forall k: ListId | k != l :: n.lists(k) == m.lists(k)
    ensures Spelled(m, l) == [m.head(l)] + Spelled(n, l) && OthersSpell(m, n, {l})
  {
    SpelledIsList(m, l);
    SpelledIsList(n, l);
    assert ListOk(m, l);
    SameLists(m, n, {l});
  }

  lemma TwoLists(m: Store, k: Store, n: Store, a: ListId, b: ListId)
    requires OthersSpell(m, k, {a}) && OthersSpell(k, n, {b}) && a != b && !a.Cache? && !b.Cache?
    ensures OthersSpell(m, n, {a, b}) && Spelled(k, b) == Spelled(m, b) && Spelled(n, a) == Spelled(k, a)
  {
  }

  /** Both ends of a step of a run. */
  lemma Ends(run: seq<State>, i: nat)
    requires IsRun(run) && i + 1 < |run|
    ensures Data(run[i]) && StoreInv(run[i + 1].m) && InvRemote(run[i]) && InvRoute(run[i]) && InvHold(run[i])
    ensures InvBatch(run[i])
  {
    RunKeeps(run, i);
    RunKeeps(run, i + 1);
  }

  /** An allocation takes the first free block of the page. */
  lemma MallocTakes(run: seq<State>, i: nat, h: int, p: Page)
    requires IsRun(run) && i + 1 < |run| && Malloc(run[i], run[i + 1], h, p)
    ensures var m, n, b := run[i].m, run[i + 1].m, run[i].m.head(Free(p));
            && Spelled(m, Free(p)) == [b] + Spelled(n, Free(p)) && OthersSpell(m, n, {Free(p)})
            && CountedDown(run[i], run[i + 1], p, -1)
  {
    hide StoreInv, InvPages, InvUsed, InvRemote, InvRoute, InvHold, InvBatch, OthersSpell, Spelled, IsRun;
    Ends(run, i);
    HeadIs(run[i].m, Free(p));
    PopSpells(run[i].m, run[i + 1].m, Free(p));
  }

  /** A page is parked only with its free list dry, and parking moves no block. */
  lemma ParkedDry(run: seq<State>, i: nat, h: int, p: Page)
    requires IsRun(run) && i + 1 < |run| && Park(run[i], run[i + 1], h, p)
    ensures Spelled(run[i].m, Free(p)) == [] && p !in run[i].inFull && p !in run[i].single
    ensures run[i + 1].m == run[i].m && run[i + 1].used == run[i].used && run[i + 1].inFull == run[i].inFull + {p}
  {
    hide StoreInv, InvPages, InvUsed, InvRemote, InvRoute, InvHold, InvBatch, IsRun;
    Ends(run, i);
  }

  /** A newly carved block is free at once. */
  lemma ExtendCarves(run: seq<State>, i: nat, h: int, p: Page, b: Block)
    requires IsRun(run) && i + 1 < |run| && FreeProtocol.Extend(run[i], run[i + 1], h, p, b)
    ensures var m, n := run[i].m, run[i + 1].m;
            && Spelled(n, Free(p)) == [b] + Spelled(m, Free(p)) && OthersSpell(m, n, {Free(p)})
            && b !in m.carved && n.carved == m.carved + {b} && n.home(b) == p && CountedDown(run[i], run[i + 1], p, 0)
  {
    hide StoreInv, InvPages, InvUsed, InvRemote, InvRoute, InvHold, InvBatch, OthersSpell, Spelled, IsRun;
    Ends(run, i);
    PushSpells(run[i].m, run[i + 1].m, Free(p), b);
  }

  /** What a local free does to the page `p` of its block: one fewer in use; out of the full queue,
      and then on the way to NORMAL. */
  ghost predicate FreedHere(s: State, s': State, h: int, p: Page, back: Owner) {
    && CountedDown(s, s', p, 1) && s'.inFull == s.inFull - {p} && s'.live == s.live && s'.flag == s.flag
    && s'.opc(h) == if p in s.inFull then back else s.opc(h)
  }

  /** The owner's free of a block puts it on the page's local list. */
  lemma LocalFreeDelivers(run: seq<State>, i: nat, h: int, b: Block)
    requires IsRun(run) && i + 1 < |run| && FreeLocal(run[i], run[i + 1], h, b)
    ensures var m, n, p := run[i].m, run[i + 1].m, run[i].m.home(b);
            && Spelled(n, Local(p)) == [b] + Spelled(m, Local(p)) && OthersSpell(m, n, {Local(p)})
            && FreedHere(run[i], run[i + 1], h, p, Unpark(p, false)) && p !in run[i].single
  {
    hide StoreInv, InvPages, InvUsed, InvRemote, InvRoute, InvHold, InvBatch, OthersSpell, Spelled, IsRun;
    Ends(run, i);
    UsedHas(run[i], b);
    PushSpells(run[i].m, run[i + 1].m, Local(run[i].m.home(b)), b);
  }

  /** A large block's free keeps the block, or gives its span up with it. */
  lemma LargeFreeDelivers(run: seq<State>, i: nat, h: int, b: Block, keep: bool)
    requires IsRun(run) && i + 1 < |run| && FreeLarge(run[i], run[i + 1], h, b, keep)
    ensures var m, s', p := run[i].m, run[i + 1], run[i].m.home(b);
            && OthersSpell(m, s'.m, {Free(p), Local(p), Chain(p)})
            && (forall q | q != p :: s'.used(q) == run[i].used(q))
            && if keep then Cached(s', b) && s'.used(p) == 0 && s'.live == run[i].live
               else s'.live == run[i].live - {p} && forall c | c in s'.m.carved :: s'.m.home(c) != p
  {
    hide StoreInv, InvPages, InvUsed, InvRemote, InvRoute, InvHold, InvBatch, OthersSpell, Spelled, IsRun;
    Ends(run, i);
    UsedHas(run[i], b);
    var p := run[i].m.home(b);
    forall l: ListId | !l.Cache? && l !in {Free(p), Local(p), Chain(p)} ensures run[i + 1].m.lists(l) == run[i].m.lists(l) {
      assert OfPage(l) ==> l.p != p;
    }
    SameLists(run[i].m, run[i + 1].m, {Free(p), Local(p), Chain(p)});
  }

  /** Draining does the same with the first block of the batch. */
  lemma DrainDelivers(run: seq<State>, i: nat, h: int)
    requires IsRun(run) && i + 1 < |run| && DrainOne(run[i], run[i + 1], h)
    ensures var m, n, b := run[i].m, run[i + 1].m, run[i].m.head(Batch(h));
            var p := m.home(b);
            && Spelled(m, Batch(h)) == [b] + Spelled(n, Batch(h)) && Spelled(n, Local(p)) == [b] + Spelled(m, Local(p))
            && OthersSpell(m, n, {Batch(h), Local(p)})
            && FreedHere(run[i], run[i + 1], h, p, Unpark(p, true)) && p !in run[i].single
  {
    hide StoreInv, InvPages, InvUsed, InvRemote, InvRoute, InvHold, InvBatch, OthersSpell, Spelled, IsRun;
    Ends(run, i);
    var m, n := run[i].m, run[i + 1].m;
    var b := m.head(Batch(h));
    HeadIs(m, Batch(h));
    UsedHas(run[i], b);
    var k := Pop(m, Batch(h), Client);
    PopKeeps(m, Batch(h), Client);
    PopSpells(m, k, Batch(h));
    PushSpells(k, n, Local(m.home(b)), b);
    TwoLists(m, k, n, Batch(h), Local(m.home(b)));
  }

  lemma BatchEmpty(s: State, h: int)
    requires InvBatch(s) && (s.opc(h) == Idle || s.opc(h) == TdWalk)
    ensures s.m.lists(Batch(h)) == []
  {
  }

  lemma OwnBox(s: State, t: int)
    requires InvRemote(s) && InvPages(s) && InvHold(s) && InvRoute(s) && s.rem(t).SawHead?
    ensures s.seg(s.rem(t).p.seg) == Owned(s.rem(t).h)
  {
  }

  /** A large block in the batch is kept, or its span given up. */
  lemma DrainLargeDelivers(run: seq<State>, i: nat, h: int, keep: bool)
    requires IsRun(run) && i + 1 < |run| && DrainLarge(run[i], run[i + 1], h, keep)
    ensures var m, s', b, p := run[i].m, run[i + 1], run[i].m.head(Batch(h)), run[i].m.home(run[i].m.head(Batch(h)));
            && Spelled(m, Batch(h)) == [b] + Spelled(s'.m, Batch(h)) && p in run[i].single && s'.opc(h) == Draining
            && OthersSpell(m, s'.m, {Batch(h), Free(p), Local(p), Chain(p)})
            && if keep then Cached(s', b) && s'.used(p) == 0 && s'.live == run[i].live
               else s'.live == run[i].live - {p} && forall c | c in s'.m.carved :: s'.m.home(c) != p
  {
    hide StoreInv, InvPages, InvUsed, InvRemote, InvRoute, InvHold, InvBatch, OthersSpell, Spelled, IsRun;
    Ends(run, i);
    var m, n := run[i].m, run[i + 1].m;
    var b, p := m.head(Batch(h)), m.home(m.head(Batch(h)));
    HeadIs(m, Batch(h));
    UsedHas(run[i], b);
    SpelledIsList(m, Batch(h));
    SpelledIsList(n, Batch(h));
    forall l: ListId | !l.Cache? && l !in {Batch(h), Free(p), Local(p), Chain(p)} ensures n.lists(l) == m.lists(l) {
      assert OfPage(l) ==> l.p != p;
    }
    SameLists(m, n, {Batch(h), Free(p), Local(p), Chain(p)});
  }

  /** A drain starts with everything that was delayed, in order. */
  lemma SwapDelivers(run: seq<State>, i: nat, h: int)
    requires IsRun(run) && i + 1 < |run| && (DrainSwap(run[i], run[i + 1], h) || TdSwap(run[i], run[i + 1], h))
    ensures var m, n := run[i].m, run[i + 1].m;
            && Spelled(m, Batch(h)) == [] && Spelled(n, Batch(h)) == Spelled(m, Delayed(h)) && Spelled(n, Delayed(h)) == []
            && OthersSpell(m, n, {Batch(h), Delayed(h)}) && run[i + 1].used == run[i].used
  {
    hide StoreInv, InvPages, InvUsed, InvRemote, InvRoute, InvHold, InvBatch, OthersSpell, Spelled, IsRun;
    Ends(run, i);
    var m, n := run[i].m, run[i + 1].m;
    BatchEmpty(run[i], h);
    SpelledIsList(m, Batch(h));
    SpelledIsList(m, Delayed(h));
    SpelledIsList(n, Batch(h));
    SpelledIsList(n, Delayed(h));
    SameLists(m, n, {Batch(h), Delayed(h)});
  }

  /** A remote free of a NORMAL or NEVER page ends with the block first on the page's chain. */
  lemma PushDelivers(run: seq<State>, i: nat, t: int)
    requires IsRun(run) && i + 1 < |run| && RPush(run[i], run[i + 1], t)
    ensures var m, n, r := run[i].m, run[i + 1].m, run[i].rem(t);
            && Spelled(n, Chain(r.p)) == [r.b] + Spelled(m, Chain(r.p)) && OthersSpell(m, n, {Chain(r.p)})
            && run[i + 1].rem(t) == Quiet && run[i + 1].used == run[i].used
  {
    hide StoreInv, InvPages, InvUsed, InvRemote, InvRoute, InvHold, InvBatch, OthersSpell, Spelled, IsRun;
    Ends(run, i);
    PushSpells(run[i].m, run[i + 1].m, Chain(run[i].rem(t).p), run[i].rem(t).b);
  }

  /** One of a DELAYED page puts it first on the list of the heap that owns the page. */
  lemma DelayDelivers(run: seq<State>, i: nat, t: int)
    requires IsRun(run) && i + 1 < |run| && RDelay(run[i], run[i + 1], t)
    ensures var m, n, r := run[i].m, run[i + 1].m, run[i].rem(t);
            && Spelled(n, Delayed(r.h)) == [r.b] + Spelled(m, Delayed(r.h)) && OthersSpell(m, n, {Delayed(r.h)})
            && run[i].seg(r.p.seg) == Owned(r.h) && run[i + 1].used == run[i].used
  {
    hide StoreInv, InvPages, InvUsed, InvRemote, InvRoute, InvHold, InvBatch, OthersSpell, Spelled, IsRun;
    Ends(run, i);
    OwnBox(run[i], t);
    PushSpells(run[i].m, run[i + 1].m, Delayed(run[i].rem(t).h), run[i].rem(t).b);
  }

  /** Every exchange of a remote free succeeds on the very word it loaded: its link is the head it replaces,
      and FREEING is claimed of a DELAYED page and given up for what the page's kind asks. */
  lemma ExchangesExact(run: seq<State>, i: nat, t: int)
    requires IsRun(run) && i + 1 < |run|
    ensures var s, s', r := run[i], run[i + 1], run[i].rem(t);
            && (RPush(s, s', t) ==> s'.m.next(r.b) == r.xh == s.m.head(Chain(r.p)) && s'.flag == s.flag)
            && (RDelay(s, s', t) ==> s'.m.next(r.b) == r.d == s.m.head(Delayed(r.h)) && s'.flag == s.flag)
            && (RClaim(s, s', t) ==> s.flag(r.p) == DELAYED && s'.flag(r.p) == FREEING && s'.m == s.m)
            && (RRestore(s, s', t) ==>
                  && r.yh == s.m.head(Chain(r.p)) && r.yf == s.flag(r.p) == FREEING && s'.m == s.m
                  && s'.flag(r.p) == r.r && (s'.flag(r.p) == NORMAL || s'.flag(r.p) == DELAYED))
  {
    hide StoreInv, InvPages, InvUsed, InvRoute, InvBatch, IsRun;
    Ends(run, i);
    assert InvKinds(run[i]) by {
      RunKeeps(run, i);
    }
  }
}
