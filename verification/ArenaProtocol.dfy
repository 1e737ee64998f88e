/** The chunk bitmaps of one arena: single claims, multi-chunk claims with rollback, commits that
    may be refused, tenants, releases and purge passes, one atomic operation a step. A chunk is a
    number; a bitmap is the set of its set bits. */
module ArenaProtocol {
  import opened Common
  import opened RunSearch

  /** What a thread is doing with chunks. The chunks it holds are those of `Hold`. */
  datatype Actor =
    | Idle
    | Rolling(mine: set<int>)                        // a mask met set bits: `mine` is what it set
    | Taking(s: int, n: nat, j: int)                 // claiming bit by bit: `s..j` so far
    | Undoing(s: int, e: int)                        // clearing `s..e` again
    | Checking(s: int, n: nat, k: nat, whole: bool, all: bool)  // claimed; `k` committed bits read
    | Marking(s: int, n: nat, k: nat)                // the OS committed; `k` committed bits set
    | Dirtying(s: int, n: nat, k: nat, whole: bool, ok: bool, any: bool)
    | Tenant(s: int, n: nat, whole: bool, purged: bool)
    | Retired(s: int, n: nat)                        // kept for ever: it could not be restored
    | Noting(s: int, n: nat, k: nat, full: bool, pending: bool) // releasing: `k` committed bits written
    | Stamping(s: int, n: nat, k: nat)               // releasing: `k` pending bits set
    | Clearing(s: int, e: int)                       // releasing: clearing `s..e`
    | Purging(j: int) | Purged(j: int) | Passing(j: int)

  datatype Arena = Arena(
    chunks: nat,
    used: set<int>, dirty: set<int>, committed: set<int>, pending: set<int>,
    backed: set<int>,        // chunks with memory behind all of them
    born: set<int>,          // chunks not known to be zero when the arena was registered
    ever: set<int>,          // chunks handed out at some time
    act: int -> Actor)

  function Put(f: int -> Actor, k: int, v: Actor): int -> Actor {
    j => if j == k then v else f(j)
  }

  ghost function Hold(a: Actor): set<int> {
    match a
    case Idle => {}
    case Rolling(mine) => mine
    case Taking(s, _, j) => Range(s, j)
    case Undoing(s, e) => Range(s, e)
    case Clearing(s, e) => Range(s, e)
    case Checking(s, n, _, _, _) => Range(s, s + n)
    case Marking(s, n, _) => Range(s, s + n)
    case Dirtying(s, n, _, _, _, _) => Range(s, s + n)
    case Tenant(s, n, _, _) => Range(s, s + n)
    case Retired(s, n) => Range(s, s + n)
    case Noting(s, n, _, _, _) => Range(s, s + n)
    case Stamping(s, n, _) => Range(s, s + n)
    case Purging(j) => {j}
    case Purged(j) => {j}
    case Passing(j) => {j}
  }

  // ------------------------------------------------------------------- claims

  /** The compare-and-swap of one clear bit; `whole` asks for committed memory. */
  ghost predicate ClaimOne(m: Arena, m': Arena, a: int, j: int, whole: bool) {
    && m.act(a) == Idle && 0 <= j < m.chunks && j !in m.used
    && m' == m.(used := m.used + {j}, act := Put(m.act, a, Checking(j, 1, 0, whole, true)))
  }

  /** One `fetch_or` of a run inside a word. */
  ghost predicate ClaimMask(m: Arena, m': Arena, a: int, s: int, n: nat) {
    && m.act(a) == Idle && n >= 1 && 0 <= s && s + n <= m.chunks && s / WORD_BITS == (s + n - 1) / WORD_BITS
    && m' == m.(used := m.used + Range(s, s + n),
                act := Put(m.act, a, if Range(s, s + n) !! m.used then Checking(s, n, 0, true, true)
                                     else Rolling(Range(s, s + n) - m.used)))
  }

  /** One `fetch_and` undoes exactly what the mask set. */
  ghost predicate RollBack(m: Arena, m': Arena, a: int) {
    && m.act(a).Rolling?
    && m' == m.(used := m.used - m.act(a).mine, act := Put(m.act, a, Idle))
  }

  ghost predicate StartBits(m: Arena, m': Arena, a: int, s: int, n: nat) {
    && m.act(a) == Idle && n >= 1 && 0 <= s && s + n <= m.chunks
    && m' == m.(act := Put(m.act, a, Taking(s, n, s)))
  }

  /** `fetch_or` of the next bit: taken, or found set, in which case the earlier ones go back. */
  ghost predicate TakeBit(m: Arena, m': Arena, a: int) {
    var o := m.act(a);
    && o.Taking? && o.j < o.s + o.n
    && m' == m.(used := m.used + {o.j},
                act := Put(m.act, a, if o.j in m.used then Undoing(o.s, o.j) else Taking(o.s, o.n, o.j + 1)))
  }

  ghost predicate TakeDone(m: Arena, m': Arena, a: int) {
    var o := m.act(a);
    o.Taking? && o.j == o.s + o.n && m' == m.(act := Put(m.act, a, Checking(o.s, o.n, 0, true, true)))
  }

  /** One bit of a rolled-back or refused claim is cleared. */
  ghost predicate UndoBit(m: Arena, m': Arena, a: int) {
    var o := m.act(a);
    && o.Undoing?
    && m' == (if o.s < o.e then m.(used := m.used - {o.s}, act := Put(m.act, a, Undoing(o.s + 1, o.e)))
              else m.(act := Put(m.act, a, Idle)))
  }

  // ------------------------------------------------------------ commit, dirty

  ghost predicate CheckBit(m: Arena, m': Arena, a: int) {
    var o := m.act(a);
    && o.Checking? && o.k < o.n
    && m' == m.(act := Put(m.act, a, Checking(o.s, o.n, o.k + 1, o.whole, o.all && o.s + o.k in m.committed)))
  }

  /** All bits set, or nobody asked for committed memory. */
  ghost predicate CheckDone(m: Arena, m': Arena, a: int) {
    var o := m.act(a);
    && o.Checking? && o.k == o.n && (o.all || !o.whole)
    && m' == m.(act := Put(m.act, a, Dirtying(o.s, o.n, 0, o.whole, o.all, false)))
  }

  /** The OS commits the whole run, or refuses and the claim is given back. */
  ghost predicate OsCommit(m: Arena, m': Arena, a: int, granted: bool) {
    var o := m.act(a);
    && o.Checking? && o.k == o.n && o.whole && !o.all
    && m' == (if granted
              then m.(backed := m.backed + Range(o.s, o.s + o.n), act := Put(m.act, a, Marking(o.s, o.n, 0)))
              else m.(act := Put(m.act, a, Undoing(o.s, o.s + o.n))))
  }

  ghost predicate MarkBit(m: Arena, m': Arena, a: int) {
    var o := m.act(a);
    && o.Marking?
    && m' == (if o.k < o.n
              then m.(committed := m.committed + {o.s + o.k}, act := Put(m.act, a, Marking(o.s, o.n, o.k + 1)))
              else m.(act := Put(m.act, a, Dirtying(o.s, o.n, 0, true, true, false))))
  }

  /** `fetch_or` of one dirty bit (the mask path's one operation is several of these). */
  ghost predicate DirtyBit(m: Arena, m': Arena, a: int) {
    var o := m.act(a);
    && o.Dirtying? && o.k < o.n
    && m' == m.(dirty := m.dirty + {o.s + o.k},
                act := Put(m.act, a, Dirtying(o.s, o.n, o.k + 1, o.whole, o.ok, o.any || o.s + o.k in m.dirty)))
  }

  /** The run goes to the caller: zero if no bit was dirty, committed if `ok`. */
  ghost predicate HandOut(m: Arena, m': Arena, a: int) {
    var o := m.act(a);
    && o.Dirtying? && o.k == o.n
    && m' == m.(ever := m.ever + Range(o.s, o.s + o.n), act := Put(m.act, a, Tenant(o.s, o.n, o.whole, false)))
  }

  // ------------------------------------------------------------------ tenants

  /** A segment commits and decommits its own slices as it goes. */
  ghost predicate LazyWork(m: Arena, m': Arena, a: int, backed: set<int>) {
    var o := m.act(a);
    && o.Tenant? && !o.whole && (forall j | j !in Hold(o) :: j in backed <==> j in m.backed)
    && m' == m.(backed := backed)
  }

  /** A huge block's release may purge its memory first. */
  ghost predicate HugePurge(m: Arena, m': Arena, a: int, decommits: bool) {
    var o := m.act(a);
    && o.Tenant? && o.whole
    && m' == m.(backed := if decommits then m.backed - Hold(o) else m.backed,
                act := Put(m.act, a, Tenant(o.s, o.n, o.whole, true)))
  }

  /** And must then restore it, or keep the chunks for ever. */
  ghost predicate Restore(m: Arena, m': Arena, a: int, granted: bool) {
    var o := m.act(a);
    && o.Tenant? && o.whole && o.purged
    && m' == (if granted then m.(backed := m.backed + Hold(o), act := Put(m.act, a, Tenant(o.s, o.n, o.whole, false)))
              else m.(act := Put(m.act, a, Retired(o.s, o.n))))
  }

  // ----------------------------------------------------------------- releases

  /** A segment reports whether it ends backed in full; its own record is exact about that. */
  ghost predicate ReleaseLazy(m: Arena, m': Arena, a: int, full: bool, pending: bool) {
    var o := m.act(a);
    && o.Tenant? && !o.whole && (full ==> Hold(o) <= m.backed)
    && m' == m.(act := Put(m.act, a, Noting(o.s, o.n, 0, full, pending)))
  }

  /** A huge block leaves the committed bits as they are. */
  ghost predicate ReleaseWhole(m: Arena, m': Arena, a: int, pending: bool) {
    var o := m.act(a);
    && o.Tenant? && o.whole && !o.purged
    && m' == m.(act := Put(m.act, a, if pending then Stamping(o.s, o.n, 0) else Clearing(o.s, o.s + o.n)))
  }

  ghost predicate NoteBit(m: Arena, m': Arena, a: int) {
    var o := m.act(a);
    && o.Noting?
    && m' == (if o.k < o.n
              then m.(committed := if o.full then m.committed + {o.s + o.k} else m.committed - {o.s + o.k},
                      act := Put(m.act, a, Noting(o.s, o.n, o.k + 1, o.full, o.pending)))
              else m.(act := Put(m.act, a, if o.pending then Stamping(o.s, o.n, 0) else Clearing(o.s, o.s + o.n))))
  }

  ghost predicate StampBit(m: Arena, m': Arena, a: int) {
    var o := m.act(a);
    && o.Stamping?
    && m' == (if o.k < o.n
              then m.(pending := m.pending + {o.s + o.k}, act := Put(m.act, a, Stamping(o.s, o.n, o.k + 1)))
              else m.(act := Put(m.act, a, Clearing(o.s, o.s + o.n))))
  }

  ghost predicate ClearBit(m: Arena, m': Arena, a: int) {
    var o := m.act(a);
    && o.Clearing?
    && m' == (if o.s < o.e then m.(used := m.used - {o.s}, act := Put(m.act, a, Clearing(o.s + 1, o.e)))
              else m.(act := Put(m.act, a, Idle)))
  }

  // ----------------------------------------------------------- the purge pass

  /** The pass takes a chunk through its used bit, and skips one in use. The pending bit it acted
      on may be stale: any chunk that is free may be taken. */
  ghost predicate PassTake(m: Arena, m': Arena, a: int, j: int) {
    && m.act(a) == Idle && 0 <= j < m.chunks && j !in m.used
    && m' == m.(used := m.used + {j}, act := Put(m.act, a, Purging(j)))
  }

  ghost predicate PassPurge(m: Arena, m': Arena, a: int, decommits: bool, granted: bool) {
    var o := m.act(a);
    && o.Purging?
    && m' == (if granted && decommits then m.(backed := m.backed - {o.j}, act := Put(m.act, a, Purged(o.j)))
              else m.(act := Put(m.act, a, Passing(o.j))))
  }

  ghost predicate PassNote(m: Arena, m': Arena, a: int) {
    var o := m.act(a);
    o.Purged? && m' == m.(committed := m.committed - {o.j}, act := Put(m.act, a, Passing(o.j)))
  }

  ghost predicate PassDone(m: Arena, m': Arena, a: int) {
    var o := m.act(a);
    && o.Passing?
    && m' == m.(pending := m.pending - {o.j}, act := Put(m.act, a, Clearing(o.j, o.j + 1)))
  }

  // --------------------------------------------------------------------- runs

  /** A registered arena nobody has claimed from. */
  ghost predicate Init(m: Arena) {
    && m.used == {} && m.ever == {} && m.committed <= m.backed && m.dirty == m.born
    && (forall a :: m.act(a) == Idle)
  }

  ghost predicate ClaimStep(m: Arena, m': Arena, a: int) {
    || (exists j: int, whole: bool :: ClaimOne(m, m', a, j, whole))
    || (exists s: int, n: nat :: ClaimMask(m, m', a, s, n))
    || (exists s: int, n: nat :: StartBits(m, m', a, s, n))
    || RollBack(m, m', a) || TakeBit(m, m', a) || TakeDone(m, m', a) || UndoBit(m, m', a)
    || CheckBit(m, m', a) || CheckDone(m, m', a) || (exists ok: bool :: OsCommit(m, m', a, ok))
    || MarkBit(m, m', a) || DirtyBit(m, m', a) || HandOut(m, m', a)
  }

  ghost predicate TenantStep(m: Arena, m': Arena, a: int) {
    || (exists b: set<int> :: LazyWork(m, m', a, b))
    || (exists d: bool :: HugePurge(m, m', a, d)) || (exists ok: bool :: Restore(m, m', a, ok))
    || (exists full: bool, p: bool :: ReleaseLazy(m, m', a, full, p)) || (exists p: bool :: ReleaseWhole(m, m', a, p))
    || NoteBit(m, m', a) || StampBit(m, m', a) || ClearBit(m, m', a)
  }

  ghost predicate PassStep(m: Arena, m': Arena, a: int) {
    || (exists j: int :: PassTake(m, m', a, j))
    || (exists d: bool, ok: bool :: PassPurge(m, m', a, d, ok))
    || PassNote(m, m', a) || PassDone(m, m', a)
  }

  ghost predicate Step(m: Arena, m': Arena, a: int) {
    ClaimStep(m, m', a) || TenantStep(m, m', a) || PassStep(m, m', a)
  }

  ghost predicate Next(m: Arena, m': Arena) {
    exists a: int :: Step(m, m', a)
  }

  ghost predicate StepAt(run: seq<Arena>, i: nat)
    requires i + 1 < |run|
  {
    Next(run[i], run[i + 1])
  }

  ghost predicate IsRun(run: seq<Arena>) {
    run != [] && Init(run[0]) && forall i: nat | i + 1 < |run| :: StepAt(run, i)
  }
}
