/** Two runs of the protocol in full: how a parked page is called back, and the parking window. */
module FreeStories {
  import opened BlockStore
  import opened FreeProtocol
  import opened FreeInvariant
  import opened FreeTheorems
  import opened FreeProgress

  const PAGE: Page := Slot(1, 1)

  /** Box 1 owns segment 1 with the one page `PAGE`, which has carved the one block 1. */
  ghost predicate Scene(s: State, o: Owner, r: Remote, f: Flag, parked: bool) {
    && s.opc(1) == o && s.rem(1) == r && s.flag(PAGE) == f && s.seg(1) == Owned(1) && s.xheap(PAGE) == 1
    && s.live == {PAGE} && s.single == {} && s.inFull == (if parked then {PAGE} else {})
    && s.m.carved == {1} && s.m.home(1) == PAGE && s.used(PAGE) == 1
    && s.m.head(Free(PAGE)) == 0 && (forall t | t != 1 :: s.rem(t) == Quiet)
  }

  /** Where block 1 is, and what the two heads a remote free may push on say. */
  ghost predicate Block1(s: State, pl: Place, chain: Block, delayed: Block) {
    s.m.place(1) == pl && s.m.head(Chain(PAGE)) == chain && s.m.head(Delayed(1)) == delayed
  }

  lemma Do(s: State, s': State)
    requires Reachable(s) && Next(s, s')
    ensures Reachable(s')
  {
    var run :| EndsAt(run, s);
    Extended(run, s');
    assert EndsAt(run + [s'], s');
  }

  lemma Owns(s: State, s': State, h: int)
    requires Reachable(s) && OwnerStep(s, s', h)
    ensures Reachable(s')
  {
    Do(s, s');
  }

  lemma Frees(s: State, s': State, t: int)
    requires Reachable(s) && RemoteStep(s, s', t)
    ensures Reachable(s')
  {
    Do(s, s');
  }

  lemma Start() returns (s: State)
    ensures Reachable(s) && Init(s)
  {
    var m := Store(b => 0, l => 0, l => [], {}, b => PAGE, b => Client);
    s := State(m, p => NORMAL, p => 0, p => 0, {}, {}, {}, {}, g => Absent, h => NoBox, t => Quiet, false);
    assert IsRun([s]);
    assert EndsAt([s], s);
  }

  /** A box, a segment and a page. */
  lemma PageBuilt() returns (s: State)
    ensures Reachable(s)
    ensures s.opc(1) == Idle && s.seg(1) == Owned(1) && s.live == {PAGE} && s.single == {} && s.inFull == {}
    ensures s.flag(PAGE) == NORMAL && s.xheap(PAGE) == 1 && s.used(PAGE) == 0
    ensures s.m.carved == {} && (forall l :: s.m.head(l) == 0) && (forall t :: s.rem(t) == Quiet)
  {
    var s0 := Start();
    var s1 := s0.(opc := Put(s0.opc, 1, Idle));
    assert NewBox(s0, s1, 1);
    Owns(s0, s1, 1);
    var s2 := s1.(seg := Put(s1.seg, 1, Owned(1)));
    assert NewSeg(s1, s2, 1, 1);
    Owns(s1, s2, 1);
    var s3 := s2.(live := s2.live + {PAGE}, slots := s2.slots + {PAGE}, used := Put(s2.used, PAGE, 0),
                  xheap := Put(s2.xheap, PAGE, 1), opc := Put(s2.opc, 1, FreshSet(PAGE)));
    assert Fresh(s2, s3, 1, PAGE, false);
    Owns(s2, s3, 1);
    s := s3.(flag := Put(s3.flag, PAGE, NORMAL), opc := Put(s3.opc, 1, Idle));
    assert FreshBinned(s3, s, 1);
    Owns(s3, s, 1);
  }

  /** Its only block is carved and handed out. */
  lemma HandedOut() returns (s: State)
    ensures Reachable(s) && Scene(s, Idle, Quiet, NORMAL, false) && Block1(s, Client, 0, 0)
  {
    var s0 := PageBuilt();
    var s1 := s0.(m := Push(Carve(s0.m, PAGE, 1), Free(PAGE), 1));
    assert Extend(s0, s1, 1, PAGE, 1);
    Owns(s0, s1, 1);
    s := s1.(m := Pop(s1.m, Free(PAGE), Client), used := Put(s1.used, PAGE, 1));
    assert Malloc(s1, s, 1, PAGE);
    Owns(s1, s, 1);
  }

  /** The owner begins to park the page. */
  lemma Parking() returns (s: State)
    ensures Reachable(s) && Scene(s, ParkSet(PAGE), Quiet, NORMAL, true) && Block1(s, Client, 0, 0)
  {
    var s0 := HandedOut();
    s := s0.(inFull := s0.inFull + {PAGE}, opc := Put(s0.opc, 1, ParkSet(PAGE)));
    assert Park(s0, s, 1, PAGE);
    Owns(s0, s, 1);
  }

  /** The owner writes DELAYED. */
  lemma ParkEnds(s: State) returns (s': State)
    requires Reachable(s) && s.opc(1) == ParkSet(PAGE) && s.flag(PAGE) == NORMAL
    ensures Reachable(s') && s' == s.(flag := Put(s.flag, PAGE, DELAYED), opc := Put(s.opc, 1, Idle))
  {
    s' := s.(flag := Put(s.flag, PAGE, DELAYED), opc := Put(s.opc, 1, Idle));
    assert ParkDone(s, s', 1);
    Owns(s, s', 1);
  }

  /** Thread 1 enters `remote_free` with the block and loads the page's word. */
  lemma EntersFree(s: State, o: Owner, f: Flag) returns (s': State)
    requires Reachable(s) && Scene(s, o, Quiet, f, true) && Block1(s, Client, 0, 0)
    ensures Reachable(s') && Scene(s', o, Loaded(1, PAGE, 0, f), f, true) && Block1(s', Flight(1), 0, 0)
  {
    var s1 := s.(m := Move(s.m, 1, Flight(1)), rem := Put(s.rem, 1, FreeProtocol.Remote.Start(1, PAGE)));
    assert RFree(s, s1, 1, 1);
    Frees(s, s1, 1);
    s' := s1.(rem := Put(s1.rem, 1, Loaded(1, PAGE, 0, f)));
    assert RLoad(s1, s', 1);
    Frees(s1, s', 1);
  }

  /** Before that, the word still says NORMAL: the block goes on the page's own chain. */
  lemma PushedInTime() returns (s: State)
    ensures Reachable(s) && Scene(s, ParkSet(PAGE), Quiet, NORMAL, true) && Block1(s, On(Chain(PAGE)), 1, 0)
  {
    var s0 := Parking();
    var s1 := EntersFree(s0, ParkSet(PAGE), NORMAL);
    s := s1.(m := Push(s1.m, Chain(PAGE), 1), rem := Put(s1.rem, 1, Quiet));
    assert RPush(s1, s, 1);
    Frees(s1, s, 1);
  }

  /** The parking window: a free that lands between the owner's last look at the page and its DELAYED
      leaves the block on the chain of a parked page. Every block of the page is free then, nobody is
      inside `remote_free`, and nothing on its way to the owner names the page. */
  lemma ParkingWindow() returns (s: State)
    ensures Reachable(s) && s.opc(1) == Idle && Mine(s, 1, PAGE) && PAGE in s.inFull && s.flag(PAGE) == DELAYED
    ensures s.m.carved == {1} && s.m.home(1) == PAGE && s.m.place(1) == On(Chain(PAGE)) && s.m.head(Chain(PAGE)) == 1
    ensures s.m.head(Delayed(1)) == 0 && forall t :: s.rem(t) == Quiet
  {
    var s0 := PushedInTime();
    s := ParkEnds(s0);
  }

  /** The same free a little later finds DELAYED and claims FREEING. */
  lemma Claims() returns (s: State)
    ensures Reachable(s) && Scene(s, Idle, Claimed(1, PAGE), FREEING, true) && Block1(s, Flight(1), 0, 0)
  {
    var s0 := Parking();
    var s1 := ParkEnds(s0);
    assert Scene(s1, Idle, Quiet, DELAYED, true);
    var s2 := EntersFree(s1, Idle, DELAYED);
    s := s2.(flag := Put(s2.flag, PAGE, FREEING), rem := Put(s2.rem, 1, Claimed(1, PAGE)));
    assert RClaim(s2, s, 1);
    Frees(s2, s, 1);
  }

  /** It reads the box's list. */
  lemma ReadsBox() returns (s: State)
    ensures Reachable(s) && Scene(s, Idle, SawHead(1, PAGE, 1, 0), FREEING, true) && Block1(s, Flight(1), 0, 0)
  {
    var s0 := Claims();
    var s1 := s0.(rem := Put(s0.rem, 1, HasBox(1, PAGE, 1)));
    assert RXheap(s0, s1, 1);
    Frees(s0, s1, 1);
    s := s1.(rem := Put(s1.rem, 1, SawHead(1, PAGE, 1, 0)));
    assert RHead(s1, s, 1);
    Frees(s1, s, 1);
  }

  /** It links the block there. */
  lemma Delays() returns (s: State)
    ensures Reachable(s) && Scene(s, Idle, Pushed(PAGE), FREEING, true) && Block1(s, On(Delayed(1)), 0, 1)
  {
    var s0 := ReadsBox();
    s := s0.(m := Push(s0.m, Delayed(1), 1), rem := Put(s0.rem, 1, Pushed(PAGE)));
    assert RDelay(s0, s, 1);
    Frees(s0, s, 1);
  }

  /** And gives FREEING up to NORMAL: the page is parked, NORMAL, and awaited. */
  lemma CalledBack() returns (s: State)
    ensures Reachable(s) && s.opc(1) == Idle && Mine(s, 1, PAGE) && PAGE in s.inFull && s.flag(PAGE) == NORMAL
    ensures s.m.place(1) == On(Delayed(1)) && s.m.head(Delayed(1)) == 1 && forall t :: s.rem(t) == Quiet
  {
    var s0 := Delays();
    var s1 := s0.(rem := Put(s0.rem, 1, Restoring(PAGE, NORMAL)));
    assert RFlags(s0, s1, 1);
    Frees(s0, s1, 1);
    var s2 := s1.(rem := Put(s1.rem, 1, RestoreLoaded(PAGE, NORMAL, 0, FREEING)));
    assert RWord(s1, s2, 1);
    Frees(s1, s2, 1);
    s := s2.(flag := Put(s2.flag, PAGE, NORMAL), rem := Put(s2.rem, 1, Quiet));
    assert RRestore(s2, s, 1);
    Frees(s2, s, 1);
  }

  /** From there the owner's next drain un-parks it. */
  lemma ThereAndBack() returns (s: State, path: seq<State>)
    ensures Reachable(s) && PAGE in s.inFull && ForcedPath(path, 1) && path[0] == s
    ensures var e := path[|path| - 1]; Reachable(e) && Mine(e, 1, PAGE) && PAGE !in e.inFull && e.flag(PAGE) == NORMAL
  {
    s := CalledBack();
    path := ParkedComesBack(s, 1, PAGE);
  }
}
