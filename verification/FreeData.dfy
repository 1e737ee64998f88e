/** What each step does to the blocks and their counts: the store stays consistent, `used`
    keeps counting, and no abort is reached. */
module FreeData {
  import opened BlockStore
  import opened FreeProtocol
  import opened FreeInvariant

  ghost predicate Data(s: State) {
    StoreInv(s.m) && InvPages(s) && InvUsed(s) && !s.aborted
  }

  /** A block in flight between threads, or on its way to an owner. */
  predicate Routed(pl: Place) {
    pl.Flight? || (pl.On? && !OfPage(pl.l))
  }

  /** Two stores agree on everything the protocol's routing looks at. */
  ghost predicate SameRoutes(m: Store, n: Store) {
    && n.carved == m.carved
    && (forall b :: n.home(b) == m.home(b))
    && (forall b | Routed(m.place(b)) || Routed(n.place(b)) :: n.place(b) == m.place(b))
    && (forall h :: n.lists(Delayed(h)) == m.lists(Delayed(h)) && n.lists(Batch(h)) == m.lists(Batch(h)))
  }

  lemma {:induction false} DistinctSize(s: seq<Block>)
    requires forall i, j | 0 <= i < j < |s| :: s[i] != s[j]
    ensures |set b | b in s| == |s|
  {
    if s == [] {
      assert (set b | b in s) == {};
    } else {
      var t := s[1..];
      DistinctSize(t);
      assert (set b | b in s) == (set b | b in t) + {s[0]};
    }
  }

  lemma UsedHas(s: State, b: Block)
    requires StoreInv(s.m) && InvPages(s) && InvUsed(s) && b in s.m.carved && !Resting(s.m.place(b))
    ensures s.used(s.m.home(b)) > 0
  {
    assert b in UsedSet(s.m, s.m.home(b));
  }

  ghost function ChainSet(m: Store, p: Page): set<Block> {
    set b | b in m.lists(Chain(p))
  }

  lemma ChainInUse(m: Store, p: Page)
    requires StoreInv(m)
    ensures ChainSet(m, p) <= UsedSet(m, p)
    ensures |ChainSet(m, p)| == |m.lists(Chain(p))| <= |UsedSet(m, p)|
  {
    assert ListOk(m, Chain(p));
    hide StoreInv;
    DistinctSize(m.lists(Chain(p)));
    var used := UsedSet(m, p);
    assert used == ChainSet(m, p) + (used - ChainSet(m, p));
  }

  /** A page's stolen chain is never longer than `used`: the walk cannot overrun. */
  lemma ChainFits(s: State, p: Page)
    requires StoreInv(s.m) && InvUsed(s) && p in s.live
    ensures !Overrun(s.m, p, s.used(p))
    ensures ChainWalk(s.m, p, s.used(p)) == s.m.lists(Chain(p))
    ensures ChainSet(s.m, p) <= UsedSet(s.m, p)
    ensures |ChainSet(s.m, p)| == |s.m.lists(Chain(p))|
  {
    ChainInUse(s.m, p);
    WalkIsList(s.m, Chain(p), s.used(p) + 1);
  }

  lemma StealUse(m: Store, p: Page, q: Page)
    ensures UsedSet(Steal(m, Local(p), Free(p)), q) == UsedSet(m, q)
  {
    var n := Steal(m, Local(p), Free(p));
    forall b ensures b in UsedSet(n, q) <==> b in UsedSet(m, q) {
      assert Resting(n.place(b)) == Resting(m.place(b));
    }
  }

  lemma SpliceUse(m: Store, p: Page, q: Page)
    requires StoreInv(m) && m.lists(Chain(p)) != []
    ensures UsedSet(Splice(m, p, m.lists(Chain(p))), q)
         == if q == p then UsedSet(m, p) - ChainSet(m, p) else UsedSet(m, q)
  {
    assert ListOk(m, Chain(p));
    forall b | b in m.carved && m.place(b) == On(Chain(p)) ensures b in ChainSet(m, p) && m.home(b) == p {
      assert b in m.lists(m.place(b).l);
    }
  }

  lemma SpliceRoutes(m: Store, p: Page)
    requires StoreInv(m) && m.lists(Chain(p)) != []
    ensures SameRoutes(m, Splice(m, p, m.lists(Chain(p))))
  {
  }

  lemma RefillStore(m: Store, p: Page)
    requires StoreInv(m)
    ensures StoreInv(Refilled(m, p)) && SameRoutes(m, Refilled(m, p))
    ensures Refilled(m, p).lists(Chain(p)) == m.lists(Chain(p))
    ensures forall q :: UsedSet(Refilled(m, p), q) == UsedSet(m, q)
  {
    if m.head(Free(p)) == 0 {
      StealKeeps(m, Local(p), Free(p));
      forall q ensures UsedSet(Refilled(m, p), q) == UsedSet(m, q) {
        StealUse(m, p, q);
      }
    }
  }

  /** The two halves of a collect, as one store. */
  lemma CollectStore(m: Store, p: Page, used: int)
    requires StoreInv(m) && |m.lists(Chain(p))| <= used
    ensures var n := Collected(m, p, used);
            && StoreInv(n) && SameRoutes(m, n)
            && (forall q :: UsedSet(n, q) == if q == p then UsedSet(m, p) - ChainSet(m, p) else UsedSet(m, q))
  {
    var c := m.lists(Chain(p));
    WalkIsList(m, Chain(p), used + 1);
    RefillStore(m, p);
    var m1 := Refilled(m, p);
    if c != [] {
      SpliceKeeps(m1, p);
      SpliceRoutes(m1, p);
      forall q ensures UsedSet(Splice(m1, p, c), q)
                    == if q == p then UsedSet(m, p) - ChainSet(m, p) else UsedSet(m, q) {
        SpliceUse(m1, p, q);
      }
    }
  }

  lemma CollectData(s: State, s': State, p: Page)
    requires Data(s) && p in s.live && s' == CollectedState(s, p)
    ensures Data(s') && SameRoutes(s.m, s'.m)
    ensures s' == s.(m := s'.m, used := s'.used)
    ensures forall q | q != p :: s'.used(q) == s.used(q)
  {
    ChainFits(s, p);
    CollectStore(s.m, p, s.used(p));
  }

  /** A move that changes nobody's resting leaves every page's used set alone. */
  lemma SameUse(m: Store, n: Store)
    requires n.carved == m.carved
    requires forall b :: n.home(b) == m.home(b)
    requires forall b | b in m.carved :: Resting(n.place(b)) == Resting(m.place(b))
    ensures forall q :: UsedSet(n, q) == UsedSet(m, q)
  {
    forall q ensures UsedSet(n, q) == UsedSet(m, q) {
      forall b ensures b in UsedSet(n, q) <==> b in UsedSet(m, q) {
      }
    }
  }

  lemma NoUse(m: Store, p: Page)
    requires forall b | b in m.carved && m.home(b) == p :: Resting(m.place(b))
    ensures UsedSet(m, p) == {}
  {
    forall b ensures b !in UsedSet(m, p) {
    }
  }

  /** A block comes to rest: its page's used set loses it. */
  lemma RestUse(m: Store, n: Store, b: Block)
    requires n.carved == m.carved && b in m.carved
    requires forall c :: n.home(c) == m.home(c)
    requires forall c | c != b :: n.place(c) == m.place(c)
    requires Resting(n.place(b)) && !Resting(m.place(b))
    ensures forall q :: UsedSet(n, q) == if q == m.home(b) then UsedSet(m, q) - {b} else UsedSet(m, q)
    ensures b in UsedSet(m, m.home(b))
  {
    forall q ensures UsedSet(n, q) == if q == m.home(b) then UsedSet(m, q) - {b} else UsedSet(m, q) {
      forall c ensures c in UsedSet(n, q) <==> c in UsedSet(m, q) && c != b {
        assert c != b ==> n.place(c) == m.place(c);
      }
    }
  }

  /** A resting block is taken into use. */
  lemma WakeUse(m: Store, n: Store, b: Block)
    requires n.carved == m.carved && b in m.carved
    requires forall c :: n.home(c) == m.home(c)
    requires forall c | c != b :: n.place(c) == m.place(c)
    requires !Resting(n.place(b)) && Resting(m.place(b))
    ensures forall q :: UsedSet(n, q) == if q == m.home(b) then UsedSet(m, q) + {b} else UsedSet(m, q)
    ensures b !in UsedSet(m, m.home(b))
  {
    forall q ensures UsedSet(n, q) == if q == m.home(b) then UsedSet(m, q) + {b} else UsedSet(m, q) {
      forall c ensures c in UsedSet(n, q) <==> c in UsedSet(m, q) || (c == b && q == m.home(b)) {
        assert c != b ==> n.place(c) == m.place(c);
      }
    }
  }

  lemma ScribbleData(s: State, s': State, b: Block, v: Block)
    requires Data(s) && Scribbles(s, s', b, v)
    ensures Counted(s')
  {
    ScribbleKeeps(s.m, b, v);
    SameUse(s.m, s'.m);
  }

  lemma RFreeData(s: State, s': State, t: int, b: Block)
    requires Data(s) && RFree(s, s', t, b)
    ensures Counted(s')
  {
    MoveKeeps(s.m, b, Flight(t));
    SameUse(s.m, s'.m);
  }

  lemma RPushData(s: State, s': State, t: int)
    requires Data(s) && InvRemote(s) && RPush(s, s', t)
    ensures Counted(s')
  {
    PushKeeps(s.m, Chain(s.rem(t).p), s.rem(t).b);
    SameUse(s.m, s'.m);
  }

  lemma RDelayData(s: State, s': State, t: int)
    requires Data(s) && InvRemote(s) && RDelay(s, s', t)
    ensures Counted(s')
  {
    PushKeeps(s.m, Delayed(s.rem(t).h), s.rem(t).b);
    SameUse(s.m, s'.m);
  }

  lemma FreshData(s: State, s': State, h: int, p: Page, single: bool)
    requires Data(s) && Fresh(s, s', h, p, single)
    ensures Counted(s')
  {
    NoUse(s.m, p);
  }

  lemma FreshLargeData(s: State, s': State, h: int, b: Block)
    requires Data(s) && InvPc(s) && FreshLarge(s, s', h, b)
    ensures Counted(s')
  {
    var p := s.opc(h).p;
    CarveKeeps(s.m, p, b);
    forall q ensures UsedSet(s'.m, q) == if q == p then {b} else UsedSet(s.m, q) {
      forall c ensures c in UsedSet(s'.m, q) <==> if q == p then c == b else c in UsedSet(s.m, q) {
      }
    }
  }

  lemma ExtendData(s: State, s': State, h: int, p: Page, b: Block)
    requires Data(s) && Extend(s, s', h, p, b)
    ensures Counted(s')
  {
    CarveKeeps(s.m, p, b);
    PushKeeps(Carve(s.m, p, b), Free(p), b);
    forall q ensures UsedSet(s'.m, q) == UsedSet(s.m, q) {
      forall c ensures c in UsedSet(s'.m, q) <==> c in UsedSet(s.m, q) {
      }
    }
  }

  /** The block a list's head names. */
  lemma HeadIs(m: Store, l: ListId)
    requires StoreInv(m) && m.head(l) != 0
    ensures m.lists(l) != [] && m.head(l) == m.lists(l)[0] && m.head(l) in m.carved && m.place(m.head(l)) == On(l)
    ensures OfPage(l) ==> m.home(m.head(l)) == l.p
  {
    assert ListOk(m, l);
  }

  lemma MallocData(s: State, s': State, h: int, p: Page)
    requires Data(s) && Malloc(s, s', h, p)
    ensures Counted(s')
  {
    PopKeeps(s.m, Free(p), Client);
    HeadIs(s.m, Free(p));
    hide StoreInv;
    WakeUse(s.m, s'.m, s.m.head(Free(p)));
  }

  lemma MallocRoutes(s: State, s': State, h: int, p: Page)
    requires StoreInv(s.m) && Malloc(s, s', h, p)
    ensures SameRoutes(s.m, s'.m)
  {
    assert ListOk(s.m, Free(p));
  }

  /** The common half of the two local frees: `m` is the store with `b` off every list. */
  lemma LocalFreedData(s: State, m: Store, s': State, h: int, b: Block, drain: bool)
    requires Data(s) && StoreInv(m) && s' == LocalFreed(s, h, b, m, drain)
    requires b in m.carved && m.place(b) == Client && m.home(b) in s.live
    requires forall q :: UsedSet(m, q) == UsedSet(s.m, q)
    ensures Counted(s')
    ensures s'.m == Push(m, Local(m.home(b)), b)
    ensures forall q | q != m.home(b) :: s'.used(q) == s.used(q)
  {
    var p := m.home(b);
    assert b in UsedSet(m, p);
    PushKeeps(m, Local(p), b);
    RestUse(m, Push(m, Local(p), b), b);
  }

  lemma LargeKeptData(s: State, m: Store, b: Block)
    requires Data(s) && StoreInv(m)
    requires b in m.carved && m.place(b) == Client && m.home(b) in s.live
    requires forall q :: UsedSet(m, q) == UsedSet(s.m, q)
    requires UsedSet(s.m, m.home(b)) == {b} && m.lists(Cache(m.home(b))) == []
    ensures Counted(s.(m := Keep(m, m.home(b), b), used := Put(s.used, m.home(b), 0)))
    ensures UsedSet(Keep(m, m.home(b), b), m.home(b)) == {}
  {
    KeepKeeps(m, m.home(b), b);
    RestUse(m, Keep(m, m.home(b), b), b);
    assert UsedSet(Keep(m, m.home(b), b), m.home(b)) == {b} - {b};
  }

  lemma RetiredData(s: State, p: Page)
    requires Counted(s) && p in s.live && UsedSet(s.m, p) == {}
    ensures Counted(Retired(s, p))
  {
    var n := Drop(s.m, p);
    DropKeeps(s.m, p);
    forall q | q != p ensures UsedSet(n, q) == UsedSet(s.m, q) {
      forall c ensures c in UsedSet(n, q) <==> c in UsedSet(s.m, q) {
      }
      assert UsedSet(n, q) == UsedSet(s.m, q);
    }
  }

  /** A cached page's cache list is its one block. */
  lemma CachedOne(s: State, p: Page)
    requires Data(s) && InvLone(s) && p in s.single && p in s.live && s.m.head(Cache(p)) != 0
    ensures s.m.lists(Cache(p)) == [s.m.head(Cache(p))] && s.used(p) == 0
  {
    var l := s.m.lists(Cache(p));
    assert ListOk(s.m, Cache(p));
    assert s.m.home(l[0]) == p;
    assert s.m.home(l[|l| - 1]) == p;
    assert l[|l| - 1] == l[0];
    forall b ensures b !in UsedSet(s.m, p) {
      if b in s.m.carved && s.m.home(b) == p {
        assert b == l[0];
      }
    }
  }

  /** The block of a large span in use is all its page has. */
  lemma LargeOne(s: State, b: Block)
    requires Data(s) && InvLone(s) && b in s.m.carved && !Resting(s.m.place(b)) && s.m.home(b) in s.single
    ensures UsedSet(s.m, s.m.home(b)) == {b} && s.m.lists(Cache(s.m.home(b))) == []
  {
    var p := s.m.home(b);
    assert ListOk(s.m, Cache(p));
    forall c ensures c in UsedSet(s.m, p) <==> c == b {
    }
  }

  lemma ReuseLargeData(s: State, s': State, h: int, p: Page)
    requires Data(s) && InvLone(s) && ReuseLarge(s, s', h, p)
    ensures Counted(s') && SameRoutes(s.m, s'.m)
  {
    CachedOne(s, p);
    var b := s.m.head(Cache(p));
    UnkeepKeeps(s.m, p, b);
    WakeUse(s.m, s'.m, b);
  }

  lemma SwapData(s: State, h: int)
    requires Data(s) && s.m.head(Batch(h)) == 0
    ensures Counted(s.(m := Steal(s.m, Delayed(h), Batch(h))))
  {
    StealKeeps(s.m, Delayed(h), Batch(h));
    SameUse(s.m, Steal(s.m, Delayed(h), Batch(h)));
  }

  lemma PopBatchData(s: State, h: int, pl: Place)
    requires Data(s) && s.m.head(Batch(h)) != 0 && !pl.On?
    ensures var n := Pop(s.m, Batch(h), pl);
            StoreInv(n) && (forall q :: UsedSet(n, q) == UsedSet(s.m, q))
  {
    PopKeeps(s.m, Batch(h), pl);
    assert ListOk(s.m, Batch(h));
    SameUse(s.m, Pop(s.m, Batch(h), pl));
  }
}
