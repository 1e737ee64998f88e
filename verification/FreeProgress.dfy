/** What can always still happen: a FREEING holder finishes alone, and a drain un-parks its pages. */
module FreeProgress {
  import opened BlockStore
  import opened FreeProtocol
  import opened FreeInvariant
  import opened FreeData
  import opened FreeTheorems

  ghost predicate EndsAt(run: seq<State>, s: State) {
    IsRun(run) && run[|run| - 1] == s
  }

  ghost predicate Reachable(s: State) {
    exists run :: EndsAt(run, s)
  }

  lemma ReachableInv(s: State)
    requires Reachable(s)
    ensures Inv(s)
  {
    var run :| EndsAt(run, s);
    RunReaches(run, |run| - 1, s);
  }

  lemma Extended(run: seq<State>, s': State)
    requires IsRun(run) && Next(run[|run| - 1], s')
    ensures EndsAt(run + [s'], s')
  {
    hide Next, Init;
    var w := run + [s'];
    forall i: nat | i + 1 < |w| ensures StepAt(w, i) {
      if i + 1 < |run| {
        assert StepAt(run, i);
      }
    }
  }

  /** A step no client has a part in: the owner's own, or one of a thread that holds FREEING. */
  ghost predicate Forced(s: State, s': State, h: int) {
    OwnerStep(s, s', h) || exists t :: Holds(s.rem(t)) && RemoteStep(s, s', t)
  }

  lemma ForcedReaches(s: State, s': State, h: int)
    requires Reachable(s) && Forced(s, s', h)
    ensures Reachable(s')
  {
    var run :| EndsAt(run, s);
    assert Next(s, s');
    Extended(run, s');
    assert EndsAt(run + [s'], s');
  }

  ghost predicate ForcedAt(path: seq<State>, h: int, i: nat)
    requires i + 1 < |path|
  {
    Forced(path[i], path[i + 1], h)
  }

  ghost predicate HolderAt(path: seq<State>, t: int, i: nat)
    requires i + 1 < |path|
  {
    Holds(path[i].rem(t)) && RemoteStep(path[i], path[i + 1], t)
  }

  ghost predicate ForcedPath(path: seq<State>, h: int) {
    path != [] && forall i: nat | i + 1 < |path| :: ForcedAt(path, h, i)
  }

  /** A path on which only thread `t` moves, holding FREEING until the last step. */
  ghost predicate HolderPath(path: seq<State>, t: int) {
    path != [] && forall i: nat | i + 1 < |path| :: HolderAt(path, t, i)
  }

  lemma HolderIsForced(path: seq<State>, t: int, h: int)
    requires HolderPath(path, t)
    ensures ForcedPath(path, h)
  {
    forall i: nat | i + 1 < |path| ensures ForcedAt(path, h, i) {
      assert HolderAt(path, t, i);
    }
  }

  lemma HolderCons(s: State, path: seq<State>, t: int)
    requires HolderPath(path, t) && HolderPath([s, path[0]], t)
    ensures HolderPath([s] + path, t)
  {
    var w := [s] + path;
    forall i: nat | i + 1 < |w| ensures HolderAt(w, t, i) {
      if i == 0 {
        assert HolderAt([s, path[0]], t, 0);
      } else {
        assert HolderAt(path, t, i - 1);
        assert w[i] == path[i - 1] && w[i + 1] == path[i];
      }
    }
  }

  lemma ForcedJoin(a: seq<State>, b: seq<State>, h: int)
    requires ForcedPath(a, h) && ForcedPath(b, h) && a[|a| - 1] == b[0]
    ensures ForcedPath(a + b[1..], h)
    ensures var w := a + b[1..]; w[0] == a[0] && w[|w| - 1] == b[|b| - 1]
  {
    var w := a + b[1..];
    forall i: nat | i + 1 < |w| ensures ForcedAt(w, h, i) {
      if i + 1 < |a| {
        assert ForcedAt(a, h, i);
      } else {
        var k := i + 1 - |a|;
        assert ForcedAt(b, h, k);
        assert w[i] == b[k] && w[i + 1] == b[k + 1];
      }
    }
  }

  lemma ForcedSnoc(path: seq<State>, s': State, h: int)
    requires ForcedPath(path, h) && Forced(path[|path| - 1], s', h)
    ensures ForcedPath(path + [s'], h)
  {
    var w := path + [s'];
    forall i: nat | i + 1 < |w| ensures ForcedAt(w, h, i) {
      if i + 1 < |path| {
        assert ForcedAt(path, h, i);
      }
    }
  }

  // ---------------------------------------------------- the holder finishes

  /** How many steps of its own the holder of FREEING is from giving it up. */
  ghost function Left(s: State, t: int): nat {
    match s.rem(t)
    case Claimed(_, _) => 6
    case HasBox(_, _, _) => 5
    case SawHead(_, _, h, d) => if s.m.head(Delayed(h)) == d then 4 else 6
    case Pushed(_) => 3
    case Restoring(_, _) => 2
    case RestoreLoaded(p, _, yh, yf) => if s.m.head(Chain(p)) == yh && s.flag(p) == yf then 1 else 3
    case _ => 0
  }

  /** What a FREEING holder leaves to the owners. */
  ghost predicate OwnersSame(s: State, e: State) {
    && e.opc == s.opc && e.seg == s.seg && e.live == s.live && e.single == s.single && e.inFull == s.inFull
    && e.m.home == s.m.home
    && (forall h :: e.m.lists(Batch(h)) == s.m.lists(Batch(h)))
  }

  lemma BoxMoves(s: State, t: int) returns (s': State)
    requires Carries(s.rem(t)) && Holds(s.rem(t)) && (s.rem(t).SawHead? ==> s.rem(t).d != s.rem(t).b)
    ensures RemoteStep(s, s', t) && Left(s', t) < Left(s, t) && OwnersSame(s, s')
    ensures Holds(s'.rem(t)) && s'.rem(t).p == s.rem(t).p
  {
    var r := s.rem(t);
    match r
    case Claimed(b, p) =>
      s' := s.(rem := Put(s.rem, t, HasBox(b, p, s.xheap(p))));
      assert RXheap(s, s', t);
    case HasBox(b, p, h) =>
      s' := s.(rem := Put(s.rem, t, SawHead(b, p, h, s.m.head(Delayed(h)))));
      assert RHead(s, s', t);
    case SawHead(b, p, h, d) =>
      if s.m.head(Delayed(h)) == d {
        s' := s.(m := Push(s.m, Delayed(h), b), rem := Put(s.rem, t, Pushed(p)));
        assert RDelay(s, s', t);
      } else {
        s' := s.(rem := Put(s.rem, t, HasBox(b, p, h)));
        assert RHeadRetry(s, s', t);
      }
  }

  lemma WordMoves(s: State, t: int) returns (s': State)
    requires HasPushed(s.rem(t)) && (s.rem(t).Restoring? || s.rem(t).RestoreLoaded? ==> s.rem(t).r != FREEING)
    ensures RemoteStep(s, s', t) && Left(s', t) < Left(s, t) && OwnersSame(s, s')
    ensures if Holds(s'.rem(t)) then s'.rem(t).p == s.rem(t).p
            else s'.rem(t) == Quiet && s'.flag(s.rem(t).p) != FREEING
  {
    var r := s.rem(t);
    match r
    case Pushed(p) =>
      s' := s.(rem := Put(s.rem, t, Restoring(p, if p in s.single then DELAYED else NORMAL)));
      assert RFlags(s, s', t);
    case Restoring(p, f) =>
      s' := s.(rem := Put(s.rem, t, RestoreLoaded(p, f, s.m.head(Chain(p)), s.flag(p))));
      assert RWord(s, s', t);
    case RestoreLoaded(p, f, yh, yf) =>
      if s.m.head(Chain(p)) == yh && s.flag(p) == yf {
        s' := s.(flag := Put(s.flag, p, f), rem := Put(s.rem, t, Quiet));
        assert RRestore(s, s', t);
      } else {
        s' := s.(rem := Put(s.rem, t, Restoring(p, f)));
        assert RWordRetry(s, s', t);
      }
  }

  /** The holder's next step exists whatever everyone else has done, and brings it closer. */
  lemma HolderMoves(s: State, t: int, h: int) returns (s': State)
    requires Reachable(s) && Holds(s.rem(t))
    ensures HolderPath([s, s'], t) && Reachable(s') && Left(s', t) < Left(s, t) && OwnersSame(s, s')
    ensures if Holds(s'.rem(t)) then s'.rem(t).p == s.rem(t).p
            else s'.rem(t) == Quiet && s'.flag(s.rem(t).p) != FREEING
  {
    assert InvRemote(s) && InvKinds(s) by {
      ReachableInv(s);
    }
    if Carries(s.rem(t)) {
      s' := BoxMoves(s, t);
    } else {
      s' := WordMoves(s, t);
    }
    assert HolderAt([s, s'], t, 0);
    assert Forced(s, s', h);
    ForcedReaches(s, s', h);
  }

  /** The thread that holds FREEING waits for nobody: from every state its own steps, at most six,
      end the hold, and owners find everything else as it was. So every spin on the flag can end. */
  lemma {:induction false} HolderFinishes(s: State, t: int, h: int) returns (path: seq<State>)
    requires Reachable(s) && Holds(s.rem(t))
    ensures HolderPath(path, t) && path[0] == s && |path| <= Left(s, t) + 1 <= 7
    ensures var e := path[|path| - 1];
            Reachable(e) && e.rem(t) == Quiet && e.flag(s.rem(t).p) != FREEING && OwnersSame(s, e)
    decreases Left(s, t)
  {
    var s' := HolderMoves(s, t, h);
    if Holds(s'.rem(t)) {
      var rest := HolderFinishes(s', t, h);
      HolderCons(s, rest, t);
      path := [s] + rest;
    } else {
      path := [s, s'];
    }
  }

  // ------------------------------------------------------------ un-parking

  /** A spin on the flag of `p` can be waited out. */
  lemma SpinEnds(s: State, p: Page, h: int) returns (path: seq<State>)
    requires Reachable(s)
    ensures ForcedPath(path, h) && path[0] == s
    ensures var e := path[|path| - 1]; Reachable(e) && e.flag(p) != FREEING && OwnersSame(s, e)
  {
    path := [s];
    if s.flag(p) == FREEING {
      assert InvHold(s) by {
        ReachableInv(s);
      }
      var t :| HoldsPage(s.rem(t), p);
      path := HolderFinishes(s, t, h);
      HolderIsForced(path, t, h);
    }
  }

  /** The owner un-parking `p` gets past its flag spin and writes NORMAL. */
  lemma UnparkFinishes(s: State, h: int, p: Page) returns (path: seq<State>)
    requires Reachable(s) && s.opc(h) == Unpark(p, true)
    ensures ForcedPath(path, h) && path[0] == s
    ensures var e := path[|path| - 1];
            && Reachable(e) && e.opc(h) == Draining && e.flag(p) == NORMAL
            && e.inFull == s.inFull && e.seg == s.seg && e.live == s.live
            && e.m.home == s.m.home && e.m.lists(Batch(h)) == s.m.lists(Batch(h))
  {
    path := SpinEnds(s, p, h);
    var e := path[|path| - 1];
    var e' := e.(flag := Put(e.flag, p, NORMAL), opc := Put(e.opc, h, Draining));
    assert UnparkDone(e, e', h);
    assert Forced(e, e', h);
    ForcedSnoc(path, e', h);
    ForcedReaches(e, e', h);
    path := path + [e'];
  }

  /** What an owner about to free the head of its batch can rely on. */
  lemma BatchHead(s: State, h: int)
    requires Reachable(s) && s.m.lists(Batch(h)) != []
    ensures var b := s.m.head(Batch(h)); b == s.m.lists(Batch(h))[0] && b != 0 && s.used(s.m.home(b)) >= 1
    ensures s.single !! s.inFull
  {
    ReachableInv(s);
    assert ListOk(s.m, Batch(h));
    var b := s.m.lists(Batch(h))[0];
    assert s.m.place(b) == On(Batch(h));
    UsedHas(s, b);
  }

  /** The owner frees the head of its batch; a page that was parked is now being un-parked. */
  lemma DrainStep(s: State, h: int) returns (s': State)
    requires s.opc(h) == Draining && s.m.lists(Batch(h)) != []
    requires var b := s.m.head(Batch(h)); b == s.m.lists(Batch(h))[0] && b != 0 && s.used(s.m.home(b)) >= 1
    requires s.single !! s.inFull
    ensures Forced(s, s', h)
    ensures var p := s.m.home(s.m.lists(Batch(h))[0]);
            && s'.seg == s.seg && s'.live == s.live && s'.m.home == s.m.home
            && s'.m.lists(Batch(h)) == s.m.lists(Batch(h))[1..]
            && s'.inFull == s.inFull - {p}
            && s'.opc(h) == if p in s.inFull then Unpark(p, true) else Draining
  {
    var b := s.m.head(Batch(h));
    var n := Pop(s.m, Batch(h), Client);
    if s.m.home(b) in s.single {
      s' := LargeFreed(s, b, n, true);
      assert DrainLarge(s, s', h, true);
    } else {
      s' := LocalFreed(s, h, b, n, true);
      assert DrainOne(s, s', h);
    }
  }

  lemma DrainMoves(s: State, h: int) returns (path: seq<State>)
    requires Reachable(s) && s.opc(h) == Draining && s.m.lists(Batch(h)) != []
    ensures ForcedPath(path, h) && path[0] == s
    ensures var e := path[|path| - 1];
            var p := s.m.home(s.m.lists(Batch(h))[0]);
            && Reachable(e) && e.opc(h) == Draining && e.seg == s.seg && e.live == s.live && e.m.home == s.m.home
            && e.m.lists(Batch(h)) == s.m.lists(Batch(h))[1..]
            && e.inFull == s.inFull - {p}
            && (p in s.inFull ==> e.flag(p) == NORMAL)
  {
    BatchHead(s, h);
    var s' := DrainStep(s, h);
    ForcedReaches(s, s', h);
    ForcedSnoc([s], s', h);
    path := [s] + [s'];
    var p := s.m.home(s.m.lists(Batch(h))[0]);
    if p in s.inFull {
      var rest := UnparkFinishes(s', h, p);
      ForcedJoin(path, rest, h);
      path := path + rest[1..];
    }
  }

  /** A parked page with a block in the batch is out of the full queue before the drain ends. */
  lemma {:induction false} DrainUnparks(s: State, h: int, p: Page, c: Block) returns (path: seq<State>)
    requires Reachable(s) && s.opc(h) == Draining && Mine(s, h, p) && p in s.inFull
    requires c in s.m.lists(Batch(h)) && s.m.home(c) == p
    ensures ForcedPath(path, h) && path[0] == s
    ensures var e := path[|path| - 1]; Reachable(e) && Mine(e, h, p) && p !in e.inFull && e.flag(p) == NORMAL
    decreases |s.m.lists(Batch(h))|
  {
    path := DrainMoves(s, h);
    var e := path[|path| - 1];
    if s.m.home(s.m.lists(Batch(h))[0]) != p {
      var rest := DrainUnparks(e, h, p, c);
      ForcedJoin(path, rest, h);
      path := path + rest[1..];
    }
  }

  /** Where the awaited block is, and that an idle owner has no batch left over. */
  lemma AwaitedBlock(s: State, h: int, p: Page) returns (c: Block)
    requires Reachable(s) && s.opc(h) == Idle && Mine(s, h, p) && p in s.inFull && s.flag(p) == NORMAL
    ensures s.m.home(c) == p && c in s.m.lists(Delayed(h)) && s.m.head(Delayed(h)) != 0
  {
    ReachableInv(s);
    c :| c in s.m.carved && s.m.home(c) == p && (s.m.place(c) == On(Delayed(h)) || s.m.place(c) == On(Batch(h)));
    assert c in s.m.lists(s.m.place(c).l);
    assert ListOk(s.m, Delayed(h));
  }

  /** Frees bring a parked page back: from every reachable state in which a page is parked, its
      flag no longer sends frees to its owner, and the owner is between operations, the owner's
      next drain, with FREEING holders finishing and nothing else, un-parks it. */
  lemma ParkedComesBack(s: State, h: int, p: Page) returns (path: seq<State>)
    requires Reachable(s) && s.opc(h) == Idle && Mine(s, h, p) && p in s.inFull && s.flag(p) == NORMAL
    ensures ForcedPath(path, h) && path[0] == s
    ensures var e := path[|path| - 1]; Reachable(e) && Mine(e, h, p) && p !in e.inFull && e.flag(p) == NORMAL
  {
    var c := AwaitedBlock(s, h, p);
    var s' := s.(m := Steal(s.m, Delayed(h), Batch(h)), opc := Put(s.opc, h, Draining));
    assert DrainSwap(s, s', h);
    assert Forced(s, s', h);
    ForcedReaches(s, s', h);
    ForcedSnoc([s], s', h);
    path := [s] + [s'];
    var rest := DrainUnparks(s', h, p, c);
    ForcedJoin(path, rest, h);
    path := path + rest[1..];
  }
}
