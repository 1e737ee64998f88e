/** What each operation on an arena comes to over a run, and that it ends. */
module ArenaProgress {
  import opened Common
  import opened RunSearch
  import opened ArenaProtocol
  import opened ArenaTheorems

  // ----------------------------------------------------------------- releases

  /** The record says of the chunks `s..s+n` what their release reported. */
  ghost predicate Recorded(m: Arena, s: int, n: nat, full: bool) {
    if full then Range(s, s + n) <= m.committed else Range(s, s + n) !! m.committed
  }

  /** On the way from a segment's report to giving its chunks back. */
  ghost predicate OnTheWay(m: Arena, o: Actor, s: int, n: nat, full: bool, pending: bool) {
    || (o.Noting? && o == Noting(s, n, o.k, full, pending))
    || (o.Stamping? && o == Stamping(s, n, o.k) && pending && Recorded(m, s, n, full))
  }

  /** Given back: nothing is cleared before the record is what was reported, and not before the purge
      that was asked for is noted for every chunk. */
  ghost predicate GivenBack(m: Arena, o: Actor, s: int, n: nat, full: bool, pending: bool) {
    o == Clearing(s, s + n) && Recorded(m, s, n, full) && (pending ==> Range(s, s + n) <= m.pending)
  }

  lemma ReleaseOwn(m: Arena, m': Arena, a: int, s: int, n: nat, full: bool, pending: bool)
    requires ActorOk(m, m.act(a)) && (NoteBit(m, m', a) || StampBit(m, m', a)) && OnTheWay(m, m.act(a), s, n, full, pending)
    ensures OnTheWay(m', m'.act(a), s, n, full, pending) || GivenBack(m', m'.act(a), s, n, full, pending)
  {
    hide Range;
  }

  lemma ReleaseOther(m: Arena, m': Arena, a: int, b: int, s: int, n: nat, full: bool, pending: bool)
    requires Exclusive(m) && OnlyOwn(m, m', b) && a != b && OnTheWay(m, m.act(a), s, n, full, pending)
    ensures OnTheWay(m', m'.act(a), s, n, full, pending)
  {
    hide Range;
    forall j | j in Range(s, s + n) ensures j !in Hold(m.act(b)) {
      assert Holder(m, a, j);
      assert !Holder(m, b, j);
    }
  }

  lemma ReleaseStep(m: Arena, m': Arena, a: int, b: int, s: int, n: nat, full: bool, pending: bool)
    requires Inv(m) && Step(m, m', b) && OnTheWay(m, m.act(a), s, n, full, pending)
    ensures OnTheWay(m', m'.act(a), s, n, full, pending) || GivenBack(m', m'.act(a), s, n, full, pending)
  {
    assert ActorOk(m, m.act(a));
    if a == b {
      assert NoteBit(m, m', a) || StampBit(m, m', a);
      hide Step, NoteBit, StampBit, ActorOk, OnTheWay, GivenBack;
      ReleaseOwn(m, m', a, s, n, full, pending);
    } else {
      StepOk(m, m', b);
      hide Step, ActorOk, OnTheWay, GivenBack, OnlyOwn, Exclusive;
      ReleaseOther(m, m', a, b, s, n, full, pending);
    }
  }

  /** A segment reports whether its chunk ends fully backed and whether a purge is due: over any run the
      chunk is given back only with both on record, whatever the others do in between. */
  lemma {:induction false} ReleaseRecorded(run: seq<Arena>, i: nat, j: nat, a: int, full: bool, pending: bool)
    requires IsRun(run) && i < j < |run| && ReleaseLazy(run[i], run[i + 1], a, full, pending)
    requires forall k | i < k < j :: run[k].act(a).Noting? || run[k].act(a).Stamping?
    ensures var o := run[i].act(a);
            OnTheWay(run[j], run[j].act(a), o.s, o.n, full, pending) || GivenBack(run[j], run[j].act(a), o.s, o.n, full, pending)
    decreases j - i
  {
    hide Inv, Step;
    if j > i + 1 {
      ReleaseRecorded(run, i, j - 1, a, full, pending);
      RunReaches(run, j - 1, run[j - 1]);
      assert StepAt(run, j - 1);
      var b :| Step(run[j - 1], run[j], b);
      ReleaseStep(run[j - 1], run[j], a, b, run[i].act(a).s, run[i].act(a).n, full, pending);
    }
  }

  /** A huge block's release leaves the record alone and notes the purge it asks for. */
  lemma WholeRelease(run: seq<Arena>, i: nat, a: int, pending: bool)
    requires IsRun(run) && i + 1 < |run| && ReleaseWhole(run[i], run[i + 1], a, pending)
    ensures run[i + 1].committed == run[i].committed && Hold(run[i].act(a)) <= run[i + 1].backed
    ensures run[i + 1].act(a).Stamping? <==> pending
  {
    RunReaches(run, i, run[i]);
    assert ActorOk(run[i], run[i].act(a));
  }

  // --------------------------------------------------------------- a claim, a pass

  /** A claim of `s..s+n` that asked for committed memory or did not. */
  predicate OnClaim(o: Actor, s: int, n: nat, whole: bool) {
    || (o.Checking? && o.s == s && o.n == n && o.whole == whole)
    || (whole && o.Marking? && o.s == s && o.n == n)
    || (o.Dirtying? && o.s == s && o.n == n && o.whole == whole)
  }

  /** How it ends: handed out as asked for, or, if it asked and was refused, given back whole. */
  predicate ClaimEnded(o: Actor, s: int, n: nat, whole: bool) {
    o == Tenant(s, n, whole, false) || (whole && o == Undoing(s, s + n))
  }

  lemma ClaimMoves(m: Arena, m': Arena, a: int, b: int, s: int, n: nat, whole: bool)
    requires Inv(m) && Step(m, m', b) && OnClaim(m.act(a), s, n, whole)
    ensures OnClaim(m'.act(a), s, n, whole) || ClaimEnded(m'.act(a), s, n, whole)
    ensures a == b && !whole ==> m'.backed == m.backed && m'.committed == m.committed
  {
    if a != b {
      StepOk(m, m', b);
    }
  }

  /** Over any run a claimed run of chunks is handed out with what its claim asked for. */
  lemma {:induction false} ClaimServed(run: seq<Arena>, i: nat, j: nat, a: int, c: int, whole: bool)
    requires IsRun(run) && i < j < |run| && ClaimOne(run[i], run[i + 1], a, c, whole)
    requires forall k | i < k < j :: run[k].act(a).Checking? || run[k].act(a).Marking? || run[k].act(a).Dirtying?
    ensures OnClaim(run[j].act(a), c, 1, whole) || ClaimEnded(run[j].act(a), c, 1, whole)
    decreases j - i
  {
    hide Inv, Step;
    if j > i + 1 {
      ClaimServed(run, i, j - 1, a, c, whole);
      RunReaches(run, j - 1, run[j - 1]);
      assert StepAt(run, j - 1);
      var b :| Step(run[j - 1], run[j], b);
      ClaimMoves(run[j - 1], run[j], a, b, c, 1, whole);
    }
  }

  /** The OS is asked only for memory that was asked for and that the record does not already have. */
  lemma AskedWhenNeeded(run: seq<Arena>, i: nat, a: int, granted: bool)
    requires IsRun(run) && i + 1 < |run| && OsCommit(run[i], run[i + 1], a, granted)
    ensures run[i].act(a).whole && !(Hold(run[i].act(a)) <= run[i].committed)
  {
    RunReaches(run, i, run[i]);
    assert ActorOk(run[i], run[i].act(a));
  }

  /** A pass over chunk `j`, whose record and memory were `c` and `b`: they go together or not at all. */
  ghost predicate OnPass(m: Arena, o: Actor, j: int, c: bool, b: bool) {
    || (o == Purging(j) && (j in m.committed) == c && (j in m.backed) == b)
    || (o == Purged(j) && (j in m.committed) == c && j !in m.backed)
    || (o == Passing(j) && PassedOk(m, j, c, b))
  }

  ghost predicate PassedOk(m: Arena, j: int, c: bool, b: bool) {
    ((j in m.committed) == c && (j in m.backed) == b) || (j !in m.committed && j !in m.backed)
  }

  lemma PassMoves(m: Arena, m': Arena, a: int, x: int, j: int, c: bool, b: bool)
    requires Inv(m) && Step(m, m', x) && OnPass(m, m.act(a), j, c, b)
    ensures || OnPass(m', m'.act(a), j, c, b)
            || (m'.act(a) == Clearing(j, j + 1) && PassedOk(m', j, c, b) && j !in m'.pending)
  {
    if a != x {
      StepOk(m, m', x);
      assert Holder(m, a, j) && !Holder(m, x, j);
    }
  }

  /** Over any run a pass gives the chunk it took back with no purge pending. */
  lemma {:induction false} PassEnds(run: seq<Arena>, i: nat, k: nat, a: int, j: int)
    requires IsRun(run) && i < k < |run| && PassTake(run[i], run[i + 1], a, j)
    requires forall l | i < l < k :: run[l].act(a).Purging? || run[l].act(a).Purged? || run[l].act(a).Passing?
    ensures var c, b := j in run[i].committed, j in run[i].backed;
            || OnPass(run[k], run[k].act(a), j, c, b)
            || (run[k].act(a) == Clearing(j, j + 1) && PassedOk(run[k], j, c, b) && j !in run[k].pending)
    decreases k - i
  {
    hide Inv, Step;
    if k > i + 1 {
      PassEnds(run, i, k - 1, a, j);
      RunReaches(run, k - 1, run[k - 1]);
      assert StepAt(run, k - 1);
      var x :| Step(run[k - 1], run[k], x);
      PassMoves(run[k - 1], run[k], a, x, j, j in run[i].committed, j in run[i].backed);
    }
  }

  // ------------------------------------------------------------------ every operation ends

  /** How many steps of its own an actor is from having nothing under way. */
  function Todo(o: Actor): int {
    match o
    case Idle => 0
    case Tenant(_, _, _, _) => 0
    case Retired(_, _) => 0
    case Rolling(_) => 1
    case Undoing(s, e) => 1 + if s < e then e - s else 0
    case Clearing(s, e) => 1 + if s < e then e - s else 0
    case Dirtying(_, n, k, _, _, _) => n - k + 1
    case Marking(_, n, k) => (n - k) + n + 2
    case Checking(_, n, k, _, _) => (n - k) + 2 * n + 3
    case Taking(s, n, j) => (s + n - j) + 3 * n + 4
    case Stamping(_, n, k) => (n - k) + n + 2
    case Noting(_, n, k, _, _) => (n - k) + 2 * n + 3
    case Passing(_) => 3
    case Purged(_) => 4
    case Purging(_) => 5
  }

  predicate Busy(o: Actor) {
    !o.Idle? && !o.Tenant? && !o.Retired?
  }

  /** An actor in the middle of a claim, a rollback, a release or a pass waits for nobody: whatever the
      others did, and whatever the OS answers, it has a step, and is then closer to the end. */
  lemma BusyMoves(run: seq<Arena>, i: nat, a: int, granted: bool) returns (m': Arena)
    requires IsRun(run) && i < |run| && Busy(run[i].act(a))
    ensures Step(run[i], m', a) && 0 <= Todo(m'.act(a)) < Todo(run[i].act(a))
  {
    RunReaches(run, i, run[i]);
    assert ActorOk(run[i], run[i].act(a));
    m' := BusyStep(run[i], a, granted);
  }

  lemma BusyStep(m: Arena, a: int, granted: bool) returns (m': Arena)
    requires ActorOk(m, m.act(a)) && Busy(m.act(a))
    ensures Step(m, m', a) && 0 <= Todo(m'.act(a)) < Todo(m.act(a))
  {
    var o := m.act(a);
    if o.Checking? || o.Marking? || o.Dirtying? {
      m' := ServeStep(m, a, granted);
    } else if o.Purging? || o.Purged? || o.Passing? {
      m' := PassStepOf(m, a, granted);
    } else if o.Noting? || o.Stamping? || o.Clearing? {
      m' := BackStep(m, a);
    } else {
      m' := TakeStep(m, a);
    }
  }

  lemma TakeStep(m: Arena, a: int) returns (m': Arena)
    requires ActorOk(m, m.act(a)) && (m.act(a).Rolling? || m.act(a).Taking? || m.act(a).Undoing?)
    ensures ClaimStep(m, m', a) && 0 <= Todo(m'.act(a)) < Todo(m.act(a))
  {
    var o := m.act(a);
    match o
    case Rolling(mine) =>
      m' := m.(used := m.used - mine, act := Put(m.act, a, Idle));
      assert RollBack(m, m', a);
    case Taking(s, n, j) =>
      if j < s + n {
        m' := m.(used := m.used + {j}, act := Put(m.act, a, if j in m.used then Undoing(s, j) else Taking(s, n, j + 1)));
        assert TakeBit(m, m', a);
      } else {
        m' := m.(act := Put(m.act, a, Checking(s, n, 0, true, true)));
        assert TakeDone(m, m', a);
      }
    case Undoing(s, e) =>
      m' := if s < e then m.(used := m.used - {s}, act := Put(m.act, a, Undoing(s + 1, e))) else m.(act := Put(m.act, a, Idle));
      assert UndoBit(m, m', a);
  }

  lemma ServeStep(m: Arena, a: int, granted: bool) returns (m': Arena)
    requires ActorOk(m, m.act(a)) && (m.act(a).Checking? || m.act(a).Marking? || m.act(a).Dirtying?)
    ensures ClaimStep(m, m', a) && 0 <= Todo(m'.act(a)) < Todo(m.act(a))
  {
    hide Range, Hold;
    var o := m.act(a);
    match o
    case Checking(s, n, k, whole, all) =>
      if k < n {
        m' := m.(act := Put(m.act, a, Checking(s, n, k + 1, whole, all && s + k in m.committed)));
        assert CheckBit(m, m', a);
      } else if all || !whole {
        m' := m.(act := Put(m.act, a, Dirtying(s, n, 0, whole, all, false)));
        assert CheckDone(m, m', a);
      } else {
        m' := if granted then m.(backed := m.backed + Range(s, s + n), act := Put(m.act, a, Marking(s, n, 0)))
              else m.(act := Put(m.act, a, Undoing(s, s + n)));
        assert OsCommit(m, m', a, granted);
      }
    case Marking(s, n, k) =>
      m' := if k < n then m.(committed := m.committed + {s + k}, act := Put(m.act, a, Marking(s, n, k + 1)))
            else m.(act := Put(m.act, a, Dirtying(s, n, 0, true, true, false)));
      assert MarkBit(m, m', a);
    case Dirtying(s, n, k, whole, ok, any) =>
      if k < n {
        m' := m.(dirty := m.dirty + {s + k}, act := Put(m.act, a, Dirtying(s, n, k + 1, whole, ok, any || s + k in m.dirty)));
        assert DirtyBit(m, m', a);
      } else {
        m' := m.(ever := m.ever + Range(s, s + n), act := Put(m.act, a, Tenant(s, n, whole, false)));
        assert HandOut(m, m', a);
      }
  }

  lemma BackStep(m: Arena, a: int) returns (m': Arena)
    requires ActorOk(m, m.act(a)) && (m.act(a).Noting? || m.act(a).Stamping? || m.act(a).Clearing?)
    ensures TenantStep(m, m', a) && 0 <= Todo(m'.act(a)) < Todo(m.act(a))
  {
    var o := m.act(a);
    match o
    case Noting(s, n, k, full, pending) =>
      m' := if k < n then m.(committed := if full then m.committed + {s + k} else m.committed - {s + k},
                             act := Put(m.act, a, Noting(s, n, k + 1, full, pending)))
            else m.(act := Put(m.act, a, if pending then Stamping(s, n, 0) else Clearing(s, s + n)));
      assert NoteBit(m, m', a);
    case Stamping(s, n, k) =>
      m' := if k < n then m.(pending := m.pending + {s + k}, act := Put(m.act, a, Stamping(s, n, k + 1)))
            else m.(act := Put(m.act, a, Clearing(s, s + n)));
      assert StampBit(m, m', a);
    case Clearing(s, e) =>
      m' := if s < e then m.(used := m.used - {s}, act := Put(m.act, a, Clearing(s + 1, e))) else m.(act := Put(m.act, a, Idle));
      assert ClearBit(m, m', a);
  }

  lemma PassStepOf(m: Arena, a: int, granted: bool) returns (m': Arena)
    requires m.act(a).Purging? || m.act(a).Purged? || m.act(a).Passing?
    ensures PassStep(m, m', a) && 0 <= Todo(m'.act(a)) < Todo(m.act(a))
  {
    var o := m.act(a);
    match o
    case Purging(j) =>
      m' := if granted then m.(backed := m.backed - {j}, act := Put(m.act, a, Purged(j))) else m.(act := Put(m.act, a, Passing(j)));
      assert PassPurge(m, m', a, true, granted);
    case Purged(j) =>
      m' := m.(committed := m.committed - {j}, act := Put(m.act, a, Passing(j)));
      assert PassNote(m, m', a);
    case Passing(j) =>
      m' := m.(pending := m.pending - {j}, act := Put(m.act, a, Clearing(j, j + 1)));
      assert PassDone(m, m', a);
  }
}
