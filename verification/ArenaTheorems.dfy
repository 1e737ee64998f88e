/** What the arena bitmaps guarantee over every interleaving. */
module ArenaTheorems {
  import opened Common
  import opened RunSearch
  import opened ArenaProtocol

  /** The chunks actor `o` holds whose committed bit may be trusted. */
  predicate Settled(o: Actor) {
    !o.Tenant? && !o.Retired? && !o.Noting? && !o.Purged? && !o.Dirtying?
  }

  /** What each actor's progress says about its chunks. */
  ghost predicate ActorOk(m: Arena, o: Actor) {
    && (Settled(o) ==> forall j | j in Hold(o) && j in m.committed :: j in m.backed)
    && (o.Taking? ==> o.s <= o.j <= o.s + o.n && o.s + o.n <= m.chunks && 0 <= o.s)
    && (o.Checking? ==> o.k <= o.n && (o.all <==> Range(o.s, o.s + o.k) <= m.committed))
    && (o.Marking? ==> o.k <= o.n && Hold(o) <= m.backed && Range(o.s, o.s + o.k) <= m.committed)
    && (o.Dirtying? ==> o.k <= o.n && (o.ok <==> Hold(o) <= m.committed) && (o.ok ==> Hold(o) <= m.backed) && (o.whole ==> o.ok)
                        && (!o.any <==> Range(o.s, o.s + o.k) !! m.born + m.ever) && Range(o.s, o.s + o.k) <= m.dirty)
    && (o.Tenant? ==> Hold(o) <= m.ever && (o.whole && !o.purged ==> Hold(o) <= m.backed))
    && (o.Noting? ==> o.k <= o.n && if o.full then Hold(o) <= m.backed && Range(o.s, o.s + o.k) <= m.committed
                                    else Range(o.s, o.s + o.k) !! m.committed)
    && (o.Stamping? ==> o.k <= o.n && Range(o.s, o.s + o.k) <= m.pending)
  }

  ghost predicate Holder(m: Arena, a: int, j: int) {
    j in Hold(m.act(a))
  }

  /** Chunks in use are exactly those somebody holds, and nobody holds one twice. */
  ghost predicate Exclusive(m: Arena) {
    && (forall a, j | Holder(m, a, j) :: j in m.used && 0 <= j < m.chunks)
    && (forall a, b, j | Holder(m, a, j) && Holder(m, b, j) :: a == b)
    && (forall j | j in m.used :: exists a :: Holder(m, a, j))
  }

  ghost predicate Inv(m: Arena) {
    && Exclusive(m)
    && (forall a :: ActorOk(m, m.act(a)))
    && (forall j | j in m.committed && j !in m.used :: j in m.backed)
    && m.born <= m.dirty && m.ever <= m.dirty
    && (forall j | j in m.dirty :: j in m.born || j in m.ever || exists a :: Dirtied(m.act(a), j))
  }

  /** The actor has set the chunk's dirty bit and not handed the chunk out yet. */
  predicate Dirtied(o: Actor, j: int) {
    o.Dirtying? && o.s <= j < o.s + o.k
  }

  lemma InitInv(m: Arena)
    requires Init(m)
    ensures Inv(m)
  {
  }

  /** The part of a step an actor's own chunks see. */
  ghost predicate OnlyOwn(m: Arena, m': Arena, a: int) {
    && m'.chunks == m.chunks && m'.born == m.born && (forall b | b != a :: m'.act(b) == m.act(b))
    && m.ever <= m'.ever && m.dirty <= m'.dirty
    && (forall j | j !in Hold(m.act(a)) ::
          (j in m'.committed <==> j in m.committed) && (j in m'.backed <==> j in m.backed)
          && (j in m'.ever <==> j in m.ever) && (j in m'.pending <==> j in m.pending) && (j in m.used ==> j in m'.used))
  }

  /** Everybody else finds their chunks as they left them. */
  lemma OthersOk(m: Arena, m': Arena, a: int, b: int)
    requires Inv(m) && OnlyOwn(m, m', a) && b != a
    ensures ActorOk(m', m'.act(b))
  {
    forall j | j in Hold(m.act(b)) ensures j in m.used && j !in Hold(m.act(a)) {
      assert Holder(m, b, j);
      assert !Holder(m, a, j);
    }
  }

  /** Taking chunks nobody holds, or giving back one's own, keeps holders apart. */
  lemma ExclusiveKept(m: Arena, m': Arena, a: int)
    requires Exclusive(m) && m'.chunks == m.chunks && (forall b | b != a :: m'.act(b) == m.act(b))
    requires forall j | j in Hold(m'.act(a)) :: 0 <= j < m.chunks && (j in Hold(m.act(a)) || j !in m.used)
    requires forall j :: j in m'.used <==> (j in m.used && j !in Hold(m.act(a))) || j in Hold(m'.act(a))
    ensures Exclusive(m')
  {
    forall b, j | Holder(m', b, j) ensures j in m'.used && 0 <= j < m'.chunks {
      if b != a {
        assert Holder(m, b, j);
        assert Holder(m, a, j) ==> a == b;
      }
    }
    forall b, c, j | Holder(m', b, j) && Holder(m', c, j) ensures b == c {
      if b != a {
        assert Holder(m, b, j);
      }
      if c != a {
        assert Holder(m, c, j);
      }
      if (b == a) != (c == a) {
        assert Holder(m, a, j);
      }
    }
    forall j | j in m'.used ensures exists b :: Holder(m', b, j) {
      if j in Hold(m'.act(a)) {
        assert Holder(m', a, j);
      } else {
        var b :| Holder(m, b, j);
        assert Holder(m', b, j);
      }
    }
  }

  /** What every step has to show: its own part. */
  ghost predicate OwnOk(m: Arena, m': Arena, a: int) {
    && OnlyOwn(m, m', a)
    && (forall j | j in Hold(m'.act(a)) :: 0 <= j < m.chunks && (j in Hold(m.act(a)) || j !in m.used))
    && (forall j :: j in m'.used <==> (j in m.used && j !in Hold(m.act(a))) || j in Hold(m'.act(a)))
    && ActorOk(m', m'.act(a)) && m'.ever <= m'.dirty
    && (forall j | j in m'.dirty :: j in m.dirty || Dirtied(m'.act(a), j))
    && (forall j | Dirtied(m.act(a), j) :: Dirtied(m'.act(a), j) || j in m'.ever)
    && (forall j | j in m'.committed && j !in m'.used :: j in m'.backed)
  }

  lemma OwnKeeps(m: Arena, m': Arena, a: int)
    requires Inv(m) && OwnOk(m, m', a)
    ensures Inv(m')
  {
    ExclusiveKept(m, m', a);
    forall b ensures ActorOk(m', m'.act(b)) {
      if b != a {
        OthersOk(m, m', a, b);
      }
    }
    forall j | j in m'.dirty ensures j in m'.born || j in m'.ever || exists b :: Dirtied(m'.act(b), j) {
      if j in m.dirty && j !in m.born && j !in m'.ever {
        var b :| Dirtied(m.act(b), j);
        assert Dirtied(m'.act(b), j);
      }
    }
  }

  /** What an actor may rely on before its step. */
  ghost predicate Ready(m: Arena, a: int) {
    && ActorOk(m, m.act(a)) && (forall j | j in Hold(m.act(a)) :: j in m.used && 0 <= j < m.chunks)
    && (forall j | j in m.committed && j !in m.used :: j in m.backed) && m.born <= m.dirty && m.ever <= m.dirty
    && (forall j | j in m.dirty && j in Hold(m.act(a)) :: j in m.born || j in m.ever || Dirtied(m.act(a), j))
  }

  lemma ClaimOneOk(m: Arena, m': Arena, a: int, j: int, whole: bool)
    requires Ready(m, a) && ClaimOne(m, m', a, j, whole)
    ensures OwnOk(m, m', a)
  {
  }

  lemma ClaimMaskOk(m: Arena, m': Arena, a: int, s: int, n: nat)
    requires Ready(m, a) && ClaimMask(m, m', a, s, n)
    ensures OwnOk(m, m', a)
  {
  }

  lemma RollBackOk(m: Arena, m': Arena, a: int)
    requires Ready(m, a) && RollBack(m, m', a)
    ensures OwnOk(m, m', a)
  {
  }

  lemma StartBitsOk(m: Arena, m': Arena, a: int, s: int, n: nat)
    requires Ready(m, a) && StartBits(m, m', a, s, n)
    ensures OwnOk(m, m', a)
  {
  }

  lemma TakeBitOk(m: Arena, m': Arena, a: int)
    requires Ready(m, a) && TakeBit(m, m', a)
    ensures OwnOk(m, m', a)
  {
  }

  lemma TakeDoneOk(m: Arena, m': Arena, a: int)
    requires Ready(m, a) && TakeDone(m, m', a)
    ensures OwnOk(m, m', a)
  {
  }

  lemma UndoBitOk(m: Arena, m': Arena, a: int)
    requires Ready(m, a) && UndoBit(m, m', a)
    ensures OwnOk(m, m', a)
  {
  }

  lemma CheckBitOk(m: Arena, m': Arena, a: int)
    requires Ready(m, a) && CheckBit(m, m', a)
    ensures OwnOk(m, m', a)
  {
    hide Range, Exclusive;
  }

  lemma CheckDoneOk(m: Arena, m': Arena, a: int)
    requires Ready(m, a) && CheckDone(m, m', a)
    ensures OwnOk(m, m', a)
  {
  }

  lemma OsCommitOk(m: Arena, m': Arena, a: int, granted: bool)
    requires Ready(m, a) && OsCommit(m, m', a, granted)
    ensures OwnOk(m, m', a)
  {
  }

  lemma MarkBitOk(m: Arena, m': Arena, a: int)
    requires Ready(m, a) && MarkBit(m, m', a)
    ensures OwnOk(m, m', a)
  {
    hide Range, Exclusive;
  }

  lemma DirtyBitOk(m: Arena, m': Arena, a: int)
    requires Ready(m, a) && DirtyBit(m, m', a)
    ensures OwnOk(m, m', a)
  {
    hide Range, Exclusive;
  }

  lemma HandOutOk(m: Arena, m': Arena, a: int)
    requires Ready(m, a) && HandOut(m, m', a)
    ensures OwnOk(m, m', a)
  {
  }

  lemma LazyWorkOk(m: Arena, m': Arena, a: int, backed: set<int>)
    requires Ready(m, a) && LazyWork(m, m', a, backed)
    ensures OwnOk(m, m', a)
  {
  }

  lemma HugePurgeOk(m: Arena, m': Arena, a: int, decommits: bool)
    requires Ready(m, a) && HugePurge(m, m', a, decommits)
    ensures OwnOk(m, m', a)
  {
  }

  lemma RestoreOk(m: Arena, m': Arena, a: int, granted: bool)
    requires Ready(m, a) && Restore(m, m', a, granted)
    ensures OwnOk(m, m', a)
  {
  }

  lemma ReleaseLazyOk(m: Arena, m': Arena, a: int, full: bool, pending: bool)
    requires Ready(m, a) && ReleaseLazy(m, m', a, full, pending)
    ensures OwnOk(m, m', a)
  {
  }

  lemma ReleaseWholeOk(m: Arena, m': Arena, a: int, pending: bool)
    requires Ready(m, a) && ReleaseWhole(m, m', a, pending)
    ensures OwnOk(m, m', a)
  {
  }

  lemma NoteBitOk(m: Arena, m': Arena, a: int)
    requires Ready(m, a) && NoteBit(m, m', a)
    ensures OwnOk(m, m', a)
  {
    hide Range, Exclusive;
  }

  lemma StampBitOk(m: Arena, m': Arena, a: int)
    requires Ready(m, a) && StampBit(m, m', a)
    ensures OwnOk(m, m', a)
  {
    hide Range, Exclusive;
  }

  lemma ClearBitOk(m: Arena, m': Arena, a: int)
    requires Ready(m, a) && ClearBit(m, m', a)
    ensures OwnOk(m, m', a)
  {
  }

  lemma PassTakeOk(m: Arena, m': Arena, a: int, j: int)
    requires Ready(m, a) && PassTake(m, m', a, j)
    ensures OwnOk(m, m', a)
  {
  }

  lemma PassPurgeOk(m: Arena, m': Arena, a: int, decommits: bool, granted: bool)
    requires Ready(m, a) && PassPurge(m, m', a, decommits, granted)
    ensures OwnOk(m, m', a)
  {
  }

  lemma PassNoteOk(m: Arena, m': Arena, a: int)
    requires Ready(m, a) && PassNote(m, m', a)
    ensures OwnOk(m, m', a)
  {
  }

  lemma PassDoneOk(m: Arena, m': Arena, a: int)
    requires Ready(m, a) && PassDone(m, m', a)
    ensures OwnOk(m, m', a)
  {
  }

  lemma ClaimStepOk(m: Arena, m': Arena, a: int)
    requires Ready(m, a) && ClaimStep(m, m', a)
    ensures OwnOk(m, m', a)
  {
    hide Ready, OwnOk, ClaimOne, ClaimMask, StartBits, OsCommit, RollBack, TakeBit, TakeDone, UndoBit, CheckBit, CheckDone,
         MarkBit, DirtyBit, HandOut;
    if j: int, whole: bool :| ClaimOne(m, m', a, j, whole) { ClaimOneOk(m, m', a, j, whole); }
    else if s: int, n: nat :| ClaimMask(m, m', a, s, n) { ClaimMaskOk(m, m', a, s, n); }
    else if s: int, n: nat :| StartBits(m, m', a, s, n) { StartBitsOk(m, m', a, s, n); }
    else if granted: bool :| OsCommit(m, m', a, granted) { OsCommitOk(m, m', a, granted); }
    else if RollBack(m, m', a) { RollBackOk(m, m', a); }
    else if TakeBit(m, m', a) { TakeBitOk(m, m', a); }
    else if TakeDone(m, m', a) { TakeDoneOk(m, m', a); }
    else if UndoBit(m, m', a) { UndoBitOk(m, m', a); }
    else if CheckBit(m, m', a) { CheckBitOk(m, m', a); }
    else if CheckDone(m, m', a) { CheckDoneOk(m, m', a); }
    else if MarkBit(m, m', a) { MarkBitOk(m, m', a); }
    else if DirtyBit(m, m', a) { DirtyBitOk(m, m', a); }
    else { HandOutOk(m, m', a); }
  }

  lemma TenantStepOk(m: Arena, m': Arena, a: int)
    requires Ready(m, a) && TenantStep(m, m', a)
    ensures OwnOk(m, m', a)
  {
    hide Ready, OwnOk, LazyWork, HugePurge, Restore, ReleaseLazy, ReleaseWhole, NoteBit, StampBit, ClearBit;
    if backed: set<int> :| LazyWork(m, m', a, backed) { LazyWorkOk(m, m', a, backed); }
    else if decommits: bool :| HugePurge(m, m', a, decommits) { HugePurgeOk(m, m', a, decommits); }
    else if granted: bool :| Restore(m, m', a, granted) { RestoreOk(m, m', a, granted); }
    else if full: bool, pending: bool :| ReleaseLazy(m, m', a, full, pending) { ReleaseLazyOk(m, m', a, full, pending); }
    else if pending: bool :| ReleaseWhole(m, m', a, pending) { ReleaseWholeOk(m, m', a, pending); }
    else if NoteBit(m, m', a) { NoteBitOk(m, m', a); }
    else if StampBit(m, m', a) { StampBitOk(m, m', a); }
    else { ClearBitOk(m, m', a); }
  }

  lemma PassStepOk(m: Arena, m': Arena, a: int)
    requires Ready(m, a) && PassStep(m, m', a)
    ensures OwnOk(m, m', a)
  {
    hide Ready, OwnOk, PassTake, PassPurge, PassNote, PassDone;
    if j: int :| PassTake(m, m', a, j) { PassTakeOk(m, m', a, j); }
    else if decommits: bool, granted: bool :| PassPurge(m, m', a, decommits, granted) { PassPurgeOk(m, m', a, decommits, granted); }
    else if PassNote(m, m', a) { PassNoteOk(m, m', a); }
    else { PassDoneOk(m, m', a); }
  }

  lemma InvReady(m: Arena, a: int)
    requires Inv(m)
    ensures Ready(m, a)
  {
    forall b | m.act(b).Dirtying? ensures m.act(b).k <= m.act(b).n {
      assert ActorOk(m, m.act(b));
    }
    hide ActorOk, Hold;
    forall j | j in Hold(m.act(a)) ensures j in m.used && 0 <= j < m.chunks {
      assert Holder(m, a, j);
    }
    forall j | j in m.dirty && j in Hold(m.act(a)) && j !in m.born && j !in m.ever ensures Dirtied(m.act(a), j) {
      var b :| Dirtied(m.act(b), j);
      DirtiedHeld(m.act(b), j);
      assert Holder(m, b, j) && Holder(m, a, j);
    }
  }

  lemma DirtiedHeld(o: Actor, j: int)
    requires Dirtied(o, j) && o.k <= o.n
    ensures j in Hold(o)
  {
  }

  lemma StepOk(m: Arena, m': Arena, a: int)
    requires Inv(m) && Step(m, m', a)
    ensures OwnOk(m, m', a)
  {
    hide Inv, Ready, OwnOk, ClaimStep, TenantStep, PassStep;
    InvReady(m, a);
    if ClaimStep(m, m', a) {
      ClaimStepOk(m, m', a);
    } else if TenantStep(m, m', a) {
      TenantStepOk(m, m', a);
    } else {
      PassStepOk(m, m', a);
    }
  }

  /** The invariant is inductive. */
  lemma StepKeeps(m: Arena, m': Arena, a: int)
    requires Inv(m) && Step(m, m', a)
    ensures Inv(m')
  {
    StepOk(m, m', a);
    OwnKeeps(m, m', a);
  }

  lemma {:induction false} RunReaches(run: seq<Arena>, i: nat, m: Arena)
    requires IsRun(run) && i < |run| && run[i] == m
    ensures Inv(m)
  {
    if i == 0 {
      InitInv(m);
    } else {
      RunReaches(run, i - 1, run[i - 1]);
      assert StepAt(run, i - 1);
      var a :| Step(run[i - 1], m, a);
      StepKeeps(run[i - 1], m, a);
    }
  }

  // ------------------------------------------------------------ the theorems

  /** In every reachable state the used bits are exactly the chunks held, each by one actor only. */
  lemma OneHolder(run: seq<Arena>, i: nat, j: int)
    requires IsRun(run) && i < |run|
    ensures j in run[i].used <==> exists a :: Holder(run[i], a, j)
    ensures forall a, b | Holder(run[i], a, j) && Holder(run[i], b, j) :: a == b
  {
    RunReaches(run, i, run[i]);
  }

  /** No step, a rollback included, clears a bit that somebody else holds, or changes the memory, the
      record or the history of a chunk its actor does not hold, free ones included. */
  lemma OthersUntouched(m: Arena, m': Arena, a: int, b: int, j: int)
    requires Inv(m) && Step(m, m', a) && j !in Hold(m.act(a))
    ensures j in m.used ==> j in m'.used
    ensures b != a && Holder(m, b, j) ==> Holder(m', b, j)
    ensures (j in m'.committed <==> j in m.committed) && (j in m'.backed <==> j in m.backed)
    ensures (j in m'.ever <==> j in m.ever) && (j in m'.pending <==> j in m.pending)
  {
    StepOk(m, m', a);
  }

  /** A free chunk whose committed bit is set is backed in full. */
  lemma FreeCommittedIsBacked(run: seq<Arena>, i: nat, j: int)
    requires IsRun(run) && i < |run| && j in run[i].committed && j !in run[i].used
    ensures j in run[i].backed
  {
    RunReaches(run, i, run[i]);
  }

  /** What a caller is told about a run it is handed is true, and all there is to tell: it is committed
      exactly when every chunk's record says so, and then backed in full, and is if it asked; it is zero
      exactly when the arena came zero there and no chunk of it was handed out before. */
  lemma HandOutSound(run: seq<Arena>, i: nat, a: int)
    requires IsRun(run) && i + 1 < |run| && HandOut(run[i], run[i + 1], a)
    ensures var m, o := run[i], run[i].act(a);
            && (o.whole ==> o.ok) && (o.ok ==> Hold(o) <= m.backed) && (o.ok <==> Hold(o) <= m.committed)
            && (!o.any <==> Hold(o) !! m.born + m.ever)
  {
    RunReaches(run, i, run[i]);
    assert ActorOk(run[i], run[i].act(a));
  }

  lemma {:induction false} EverGrows(run: seq<Arena>, k: nat, i: nat)
    requires IsRun(run) && k <= i < |run|
    ensures run[k].ever <= run[i].ever
    decreases i - k
  {
    if k < i {
      EverGrows(run, k, i - 1);
      RunReaches(run, i - 1, run[i - 1]);
      assert StepAt(run, i - 1);
      var a :| Step(run[i - 1], run[i], a);
      StepOk(run[i - 1], run[i], a);
    }
  }

  /** Over whole runs: memory handed out as zero has had no tenant at any earlier time. */
  lemma ZeroIsFirst(run: seq<Arena>, k: nat, i: nat, a: int, b: int)
    requires IsRun(run) && k <= i && i + 1 < |run| && HandOut(run[i], run[i + 1], a) && !run[i].act(a).any
    requires run[k].act(b).Tenant?
    ensures Hold(run[k].act(b)) !! Hold(run[i].act(a))
  {
    RunReaches(run, k, run[k]);
    EverGrows(run, k, i);
    HandOutSound(run, i, a);
    assert ActorOk(run[k], run[k].act(b));
  }

  /** A huge tenant's memory is whole until its own release purges it. */
  lemma HugeIsBacked(run: seq<Arena>, i: nat, a: int)
    requires IsRun(run) && i < |run|
    requires run[i].act(a).Tenant? && run[i].act(a).whole && !run[i].act(a).purged
    ensures Hold(run[i].act(a)) <= run[i].backed
  {
    RunReaches(run, i, run[i]);
    assert ActorOk(run[i], run[i].act(a));
  }

  /** A huge tenant's chunks, while it has them and while it gives them back. */
  ghost predicate HugeHold(o: Actor) {
    (o.Tenant? && o.whole) || o.Retired?
  }

  /** A huge tenant's step either keeps its chunks to itself, or gives them back whole: a release starts
      with every chunk backed, so after a purge only with the memory restored. */
  lemma HugeReleasedBacked(run: seq<Arena>, i: nat, a: int)
    requires IsRun(run) && i + 1 < |run| && Step(run[i], run[i + 1], a) && HugeHold(run[i].act(a))
    ensures Hold(run[i + 1].act(a)) == Hold(run[i].act(a))
    ensures HugeHold(run[i + 1].act(a)) || Hold(run[i].act(a)) <= run[i + 1].backed
    ensures run[i].act(a).Tenant? && run[i].act(a).purged ==> HugeHold(run[i + 1].act(a))
    ensures run[i].act(a).Retired? ==> run[i + 1].act(a).Retired?
  {
    RunReaches(run, i, run[i]);
    assert ActorOk(run[i], run[i].act(a));
  }
}
