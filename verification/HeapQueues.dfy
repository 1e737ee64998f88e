/** A heap's page queues, its full queue and its direct table, in place. */
module HeapQueues {
  import opened Common
  import opened Bins
  import opened DirectTable
  import opened QueueLists

  const BIN_FULL: nat := 74
  const BIN_COUNT: nat := 75

  /** The queues as values: the link words, the ends, what they spell, and each page's class and
      IN_FULL flag. */
  datatype Queues = Queues(l: Links, first: seq<nat>, last: seq<nat>, q: seq<seq<nat>>, bin: seq<nat>, full: seq<bool>)

  ghost predicate Sized(s: Queues) {
    |s.first| == |s.last| == |s.q| == BIN_COUNT && |s.l.next| == |s.l.prev| == |s.bin| == |s.full|
  }

  /** A page of class `bin` and flag `full` belongs in queue `b`. */
  predicate Belongs(b: nat, bin: nat, full: bool) {
    IsClass(bin) && bin < BIN_HUGE && full == (b == BIN_FULL) && (b != BIN_FULL ==> bin == b)
  }

  ghost predicate QueueOk(s: Queues, b: nat)
    requires Sized(s) && b < BIN_COUNT
  {
    && Linked(s.l, s.first[b], s.last[b], s.q[b])
    && (forall p | p in s.q[b] :: p < |s.bin| && Belongs(b, s.bin[p], s.full[p]))
  }

  ghost predicate Apart(s: seq<nat>, t: seq<nat>) {
    forall x | x in s :: x !in t
  }

  /** Every queue is what its words spell, its pages belong there, and no page is in two queues. */
  ghost predicate AllOk(s: Queues) {
    && Sized(s)
    && (forall b: nat | b < BIN_COUNT :: QueueOk(s, b))
    && (forall b: nat, c: nat | b < BIN_COUNT && c < BIN_COUNT && b != c :: Apart(s.q[b], s.q[c]))
  }

  ghost predicate Nowhere(s: Queues, p: nat) {
    forall b | 0 <= b < |s.q| :: p !in s.q[b]
  }

  // ------------------------------------------------------- the queue surgery

  /** Put queue `b` of `s` in the given state, its links included. */
  function With(s: Queues, b: nat, l: Links, first: nat, last: nat, t: seq<nat>): Queues
    requires b < |s.first| && b < |s.last| && b < |s.q|
  {
    s.(l := l, first := s.first[b := first], last := s.last[b := last], q := s.q[b := t])
  }

  /** A queue that was rebuilt from its own pages and `p`, in no other queue, leaves the rest alone. */
  lemma WithOk(s: Queues, b: nat, l: Links, first: nat, last: nat, t: seq<nat>, p: nat)
    requires AllOk(s) && b < BIN_COUNT && |l.next| == |l.prev| == |s.l.next|
    requires Linked(l, first, last, t) && (forall x | x in t :: x == p || x in s.q[b])
    requires forall c: nat | c < BIN_COUNT && c != b :: p !in s.q[c]
    requires forall x: nat | 0 < x < |l.next| && x != p && x !in s.q[b] :: l.next[x] == s.l.next[x] && l.prev[x] == s.l.prev[x]
    requires p in t ==> p < |s.bin| && Belongs(b, s.bin[p], s.full[p])
    ensures AllOk(With(s, b, l, first, last, t))
  {
    var r := With(s, b, l, first, last, t);
    forall c: nat | c < BIN_COUNT ensures QueueOk(r, c) {
      assert QueueOk(s, c) && QueueOk(s, b);
      if c != b {
        assert Apart(s.q[c], s.q[b]);
        OtherQueue(s.l, l, s.first[c], s.last[c], s.q[c], p, s.q[b]);
      }
    }
    forall c: nat, d: nat | c < BIN_COUNT && d < BIN_COUNT && c != d ensures Apart(r.q[c], r.q[d]) {
      assert Apart(s.q[c], s.q[d]) && Apart(s.q[d], s.q[c]);
    }
  }

  function FrontPushed(s: Queues, b: nat, p: nat): Queues
    requires Sized(s) && b < BIN_COUNT && p < |s.bin| && s.first[b] < |s.bin|
  {
    With(s, b, PushFront(s.l, s.first[b], p), p, if s.first[b] == 0 then p else s.last[b], [p] + s.q[b])
  }

  function BackPushed(s: Queues, b: nat, p: nat): Queues
    requires Sized(s) && b < BIN_COUNT && p < |s.bin| && s.last[b] < |s.bin|
  {
    With(s, b, PushBack(s.l, s.last[b], p), if s.last[b] == 0 then p else s.first[b], p, s.q[b] + [p])
  }

  function Removed(s: Queues, b: nat, p: nat): Queues
    requires Sized(s) && b < BIN_COUNT && p < |s.bin| && s.l.next[p] < |s.bin| && s.l.prev[p] < |s.bin| && p in s.q[b]
  {
    With(s, b, Unlink(s.l, p),
         if s.l.prev[p] == 0 then s.l.next[p] else s.first[b],
         if s.l.next[p] == 0 then s.l.prev[p] else s.last[b], Drop(s.q[b], p))
  }

  lemma FrontPushedOk(s: Queues, b: nat, p: nat)
    requires AllOk(s) && b < BIN_COUNT && 0 < p < |s.bin| && Nowhere(s, p) && Belongs(b, s.bin[p], s.full[p])
    ensures s.first[b] < |s.bin| && AllOk(FrontPushed(s, b, p))
  {
    assert QueueOk(s, b);
    Ends(s.l, s.first[b], s.last[b], s.q[b]);
    PushFrontLinked(s.l, s.first[b], s.last[b], s.q[b], p);
    WithOk(s, b, PushFront(s.l, s.first[b], p), p, if s.first[b] == 0 then p else s.last[b], [p] + s.q[b], p);
  }

  lemma BackPushedOk(s: Queues, b: nat, p: nat)
    requires AllOk(s) && b < BIN_COUNT && 0 < p < |s.bin| && Nowhere(s, p) && Belongs(b, s.bin[p], s.full[p])
    ensures s.last[b] < |s.bin| && AllOk(BackPushed(s, b, p))
  {
    assert QueueOk(s, b);
    Ends(s.l, s.first[b], s.last[b], s.q[b]);
    PushBackLinked(s.l, s.first[b], s.last[b], s.q[b], p);
    WithOk(s, b, PushBack(s.l, s.last[b], p), if s.last[b] == 0 then p else s.first[b], p, s.q[b] + [p], p);
  }

  lemma RemovedOk(s: Queues, b: nat, p: nat)
    requires AllOk(s) && b < BIN_COUNT && p in s.q[b]
    ensures 0 < p < |s.bin| && s.l.next[p] < |s.bin| && s.l.prev[p] < |s.bin|
    ensures var r := Removed(s, b, p); AllOk(r) && Nowhere(r, p)
    ensures forall x: nat :: x in Removed(s, b, p).q[b] <==> x in s.q[b] && x != p
  {
    assert QueueOk(s, b);
    var t, k := s.q[b], IndexOf(s.q[b], p);
    UnlinkBounds(s.l, s.first[b], s.last[b], t, k);
    UnlinkLinked(s.l, s.first[b], s.last[b], t, k);
    forall x: nat ensures x in Without(t, k) <==> x in t && x != p {
      WithoutHas(t, k, x);
    }
    NeighboursIn(s.l, s.first[b], s.last[b], t, k);
    forall c: nat | c < BIN_COUNT && c != b ensures p !in s.q[c] {
      assert Apart(s.q[b], s.q[c]);
    }
    hide QueueOk;
    var l := Unlink(s.l, p);
    WithOk(s, b, l, if s.l.prev[p] == 0 then s.l.next[p] else s.first[b],
           if s.l.next[p] == 0 then s.l.prev[p] else s.last[b], Without(t, k), p);
  }

  lemma NeighboursIn(l: Links, first: nat, last: nat, t: seq<nat>, k: nat)
    requires Linked(l, first, last, t) && k < |t|
    ensures t[k] < |l.next| && (l.next[t[k]] == 0 || l.next[t[k]] in t) && (l.prev[t[k]] == 0 || l.prev[t[k]] in t)
  {
    assert NodeAt(l, t, k);
  }

  function Relabelled(s: Queues, p: nat, size: nat, full: bool): Queues
    requires p < |s.bin| && p < |s.full|
  {
    s.(bin := s.bin[p := size], full := s.full[p := full])
  }

  /** A page in no queue may change its class and its flag. */
  lemma RelabelledOk(s: Queues, p: nat, size: nat, full: bool)
    requires AllOk(s) && p < |s.full| && Nowhere(s, p)
    ensures AllOk(Relabelled(s, p, size, full))
  {
    var r := Relabelled(s, p, size, full);
    forall b: nat | b < BIN_COUNT ensures QueueOk(r, b) {
      assert QueueOk(s, b);
    }
    forall b: nat, c: nat | b < BIN_COUNT && c < BIN_COUNT && b != c ensures Apart(r.q[b], r.q[c]) {
      assert Apart(s.q[b], s.q[c]);
    }
  }

  lemma EmptyOk(s: Queues)
    requires Sized(s) && (forall b | 0 <= b < BIN_COUNT :: s.first[b] == 0 && s.last[b] == 0 && s.q[b] == [])
    ensures AllOk(s)
  {
    forall b: nat | b < BIN_COUNT ensures QueueOk(s, b) {
    }
  }

  lemma EmptyTable(d: seq<nat>, f: seq<nat>, q: seq<seq<nat>>)
    requires |d| == SLOTS && |f| == |q| == BIN_COUNT && (forall w | 0 <= w < SLOTS :: d[w] == 0)
    requires (forall b | 0 <= b < BIN_COUNT :: f[b] == 0 && q[b] == [])
    ensures Coherent(d, f) && LiveOk(q, {})
  {
  }

  /** Queues of indices that are no class are empty. */
  lemma NoClassNoPages(s: Queues, b: nat)
    requires AllOk(s) && b < BIN_FULL && !IsClass(b)
    ensures s.q[b] == [] && s.first[b] == 0
  {
    assert QueueOk(s, b);
    Ends(s.l, s.first[b], s.last[b], s.q[b]);
  }

  lemma FirstIs(s: Queues, b: nat)
    requires AllOk(s) && b < BIN_COUNT
    ensures s.first[b] == Link(s.q[b], 0) && s.last[b] == Link(s.q[b], |s.q[b]| - 1)
    ensures (s.q[b] == [] <==> s.first[b] == 0) && (s.q[b] == [] <==> s.last[b] == 0)
    ensures s.q[b] != [] ==> s.first[b] in s.q[b] && 0 < s.first[b] < |s.bin| && 0 < s.last[b] < |s.bin|
  {
    assert QueueOk(s, b);
    Ends(s.l, s.first[b], s.last[b], s.q[b]);
  }

  // ------------------------------------------------------------ the live pages

  ghost predicate Queued(q: seq<seq<nat>>, p: nat) {
    exists b: nat :: b < |q| && p in q[b]
  }

  /** The live pages are those in a queue. */
  ghost predicate LiveOk(q: seq<seq<nat>>, live: set<nat>) {
    forall p: nat :: p in live <==> Queued(q, p)
  }

  lemma PutQueued(q: seq<seq<nat>>, b: nat, t: seq<nat>, p: nat)
    requires b < |q| && forall x: nat :: x in t <==> x == p || x in q[b]
    ensures forall x: nat :: Queued(q[b := t], x) <==> x == p || Queued(q, x)
  {
    var r := q[b := t];
    forall x: nat ensures Queued(r, x) <==> x == p || Queued(q, x) {
      if Queued(q, x) {
        var c: nat :| c < |q| && x in q[c];
        assert x in r[c];
      }
      assert p in r[b];
    }
  }

  lemma TakenQueued(q: seq<seq<nat>>, b: nat, t: seq<nat>, p: nat)
    requires b < |q| && forall x: nat :: x in t <==> x in q[b] && x != p
    requires forall c: nat | c < |q| && c != b :: p !in q[c]
    ensures forall x: nat :: Queued(q[b := t], x) <==> x != p && Queued(q, x)
  {
    var r := q[b := t];
    forall x: nat ensures Queued(r, x) <==> x != p && Queued(q, x) {
      if Queued(q, x) && x != p {
        var c: nat :| c < |q| && x in q[c];
        assert x in r[c];
      }
    }
  }

  /** Parking moves pages from one queue to another. */
  lemma ParkedQueued(q: seq<seq<nat>>, b: nat, k: nat)
    requires |q| == BIN_COUNT && b < BIN_FULL && k <= |q[b]|
    ensures forall x: nat :: Queued(Parked(q, b, k), x) <==> Queued(q, x)
  {
    var r, t := Parked(q, b, k), q[b];
    forall x: nat ensures Queued(r, x) <==> Queued(q, x) {
      ReversedHas(t[..k], x);
      assert t == t[..k] + t[k..];
      assert x in t <==> x in t[..k] || x in t[k..];
      assert x in r[BIN_FULL] <==> x in t[..k] || x in q[BIN_FULL];
      if Queued(q, x) {
        var c: nat :| c < |q| && x in q[c];
        assert x in r[c] || x in r[BIN_FULL];
      }
      if Queued(r, x) {
        var c: nat :| c < |r| && x in r[c];
        assert x in q[c] || x in q[b];
      }
    }
  }

  class Heap {
    const next: array<nat>
    const prev: array<nat>
    const bin: array<nat>        // each page's class
    const inFull: array<bool>
    const first: array<nat>
    const last: array<nat>
    const direct: array<nat>
    ghost var q: seq<seq<nat>>   // the queues, front first
    ghost var live: set<nat>     // the live binned pages

    ghost function St(): Queues
      reads this, next, prev, bin, inFull, first, last
    {
      Queues(Links(next[..], prev[..]), first[..], last[..], q, bin[..], inFull[..])
    }

    ghost predicate Shape()
      reads this
    {
      && next.Length == prev.Length == bin.Length == inFull.Length
      && first.Length == last.Length == |q| == BIN_COUNT && direct.Length == SLOTS
      && next != prev && next != bin && next != first && next != last && next != direct
      && prev != bin && prev != first && prev != last && prev != direct
      && bin != first && bin != last && bin != direct && first != last && first != direct && last != direct
    }

    ghost predicate Listed()
      reads this, next, prev, bin, inFull, first, last
    {
      Shape() && AllOk(St())
    }

    /** The queues are in order and hold the live pages: what the code keeps at all times. */
    ghost predicate Tracked()
      reads this, next, prev, bin, inFull, first, last
    {
      Listed() && LiveOk(q, live)
    }

    /** And the table holds the fronts. */
    ghost predicate Valid()
      reads this, next, prev, bin, inFull, first, last, direct
    {
      Tracked() && Coherent(direct[..], first[..])
    }

    /** Every live page is in exactly one queue: the full one if it is flagged, else that of its class. */
    lemma LiveOnce(p: nat)
      requires Tracked() && p in live
      ensures p < bin.Length && IsClass(bin[p]) && bin[p] < BIN_HUGE
      ensures forall b: nat | b < BIN_COUNT :: p in q[b] <==> b == if inFull[p] then BIN_FULL else bin[p]
    {
      var c: nat :| c < |q| && p in q[c];
      assert QueueOk(St(), c);
      forall b: nat | b < BIN_COUNT && b != c ensures p !in q[b] {
        assert Apart(St().q[c], St().q[b]);
      }
    }

    /** A new heap, over a page table in which pages of other heaps have their classes. */
    constructor (classes: seq<nat>)
      requires classes != []
      ensures Valid() && fresh(next) && fresh(prev) && fresh(bin) && fresh(inFull) && fresh(first) && fresh(last) && fresh(direct)
      ensures next.Length == |classes| && bin[..] == classes && q == seq(BIN_COUNT, b => []) && live == {}
    {
      next := new nat[|classes|](i => 0);
      prev := new nat[|classes|](i => 0);
      bin := new nat[|classes|](i requires 0 <= i < |classes| => classes[i]);
      inFull := new bool[|classes|](i => false);
      first := new nat[BIN_COUNT](i => 0);
      last := new nat[BIN_COUNT](i => 0);
      direct := new nat[SLOTS](i => 0);
      q, live := seq(BIN_COUNT, b => []), {};
      new;
      hide AllOk, Coherent, LiveOk;
      EmptyOk(St());
      EmptyTable(direct[..], first[..], q);
    }

    /** A page in no queue goes in front of the queue it belongs in. */
    method QueuePushFront(b: nat, p: nat)
      requires Shape() && b < BIN_COUNT && p < next.Length && first[b] < next.Length
      modifies next, prev, first, last, this`q
      ensures Shape() && St() == FrontPushed(old(St()), b, p) && q == old(q)[b := [p] + old(q)[b]]
      ensures old(Listed() && 0 < p && Nowhere(St(), p) && Belongs(b, bin[p], inFull[p])) ==> Listed()
    {
      ghost var was := St();
      ghost var sound := Listed() && 0 < p && Nowhere(St(), p) && Belongs(b, bin[p], inFull[p]);
      prev[p] := 0;
      next[p] := first[b];
      if first[b] == 0 {
        last[b] := p;
      } else {
        prev[first[b]] := p;
      }
      first[b] := p;
      q := q[b := [p] + q[b]];
      assert St().last == FrontPushed(was, b, p).last;
      if sound {
        FrontPushedOk(was, b, p);
      }
    }

    /** Or behind it. */
    method QueuePushBack(b: nat, p: nat)
      requires Shape() && b < BIN_COUNT && p < next.Length && last[b] < next.Length
      modifies next, prev, first, last, this`q
      ensures Shape() && St() == BackPushed(old(St()), b, p) && q == old(q)[b := old(q)[b] + [p]]
      ensures old(Listed() && 0 < p && Nowhere(St(), p) && Belongs(b, bin[p], inFull[p])) ==> Listed()
    {
      ghost var was := St();
      ghost var sound := Listed() && 0 < p && Nowhere(St(), p) && Belongs(b, bin[p], inFull[p]);
      next[p] := 0;
      prev[p] := last[b];
      if last[b] == 0 {
        first[b] := p;
      } else {
        next[last[b]] := p;
      }
      last[b] := p;
      q := q[b := q[b] + [p]];
      assert St().first == BackPushed(was, b, p).first;
      if sound {
        BackPushedOk(was, b, p);
      }
    }

    /** A queued page leaves its queue, and is then in none. */
    method QueueRemove(b: nat, p: nat)
      requires Shape() && b < BIN_COUNT && p < next.Length && next[p] < next.Length && prev[p] < next.Length && p in q[b]
      modifies next, prev, first, last, this`q
      ensures Shape() && St() == Removed(old(St()), b, p) && q == old(q)[b := Drop(old(q)[b], p)]
      ensures old(Listed()) ==> Listed() && Nowhere(St(), p)
    {
      ghost var was := St();
      ghost var sound := Listed();
      var n, m := next[p], prev[p];
      if m == 0 {
        first[b] := n;
      } else {
        next[m] := n;
      }
      if n == 0 {
        last[b] := m;
      } else {
        prev[n] := m;
      }
      next[p] := 0;
      prev[p] := 0;
      q := q[b := Drop(q[b], p)];
      assert St().first == Removed(was, b, p).first && St().last == Removed(was, b, p).last;
      if sound {
        RemovedOk(was, b, p);
      }
    }

    /** `update_direct`: one load decides for the whole range of the class. */
    method UpdateDirect(b: nat)
      requires Shape() && b < BIN_COUNT
      modifies direct
      ensures direct[..] == Refreshed(old(direct[..]), b, first[b])
    {
      var hi := ClassWords(b);
      if hi < SLOTS && direct[hi] != first[b] {
        var page := first[b];
        ghost var d := direct[..];
        var w := Lo(b);
        while w <= hi
          invariant Lo(b) <= w && (w <= hi + 1 || w == Lo(b))
          invariant forall v | 0 <= v < SLOTS :: direct[v] == if Lo(b) <= v < w && v <= hi then page else d[v]
        {
          direct[w] := page;
          w := w + 1;
        }
      }
    }

    // ------------------------------------------------------- what the heap does

    /** Clear the flag and take the page out of the full queue. */
    method TakeFromFull(p: nat)
      requires Listed() && p in q[BIN_FULL]
      modifies next, prev, inFull, first, last, this`q
      ensures Listed() && 0 < p < next.Length && bin[p] < BIN_HUGE && IsClass(bin[p]) && !inFull[p] && Nowhere(St(), p)
      ensures q == old(q)[BIN_FULL := Drop(old(q)[BIN_FULL], p)]
      ensures forall c | 0 <= c < BIN_FULL :: first[c] == old(first[c])
    {
      ghost var s := St();
      assert QueueOk(s, BIN_FULL);
      RemovedOk(s, BIN_FULL, p);
      inFull[p] := false;
      QueueRemove(BIN_FULL, p);
      ghost var s1 := Removed(s, BIN_FULL, p);
      assert St() == Relabelled(s1, p, bin[p], false);
      RelabelledOk(s1, p, bin[p], false);
    }

    /** Put `p` behind the others of its class; the front, and so the table, can only change when
        there were no others. */
    method Append(p: nat)
      requires Listed() && 0 < p < next.Length && bin[p] < BIN_HUGE && IsClass(bin[p]) && !inFull[p] && Nowhere(St(), p)
      modifies next, prev, first, last, direct, this`q
      ensures Listed() && q == old(q)[bin[p] := old(q)[bin[p]] + [p]]
      ensures direct[..] == if old(q)[bin[p]] == [] then Refreshed(old(direct[..]), bin[p], p) else old(direct[..])
      ensures old(Coherent(direct[..], first[..])) ==> Coherent(direct[..], first[..])
    {
      var b := bin[p];
      ghost var s, coherent := St(), Coherent(direct[..], first[..]);
      FirstIs(s, b);
      var wasEmpty := first[b] == 0;
      QueuePushBack(b, p);
      if wasEmpty {
        UpdateDirect(b);
      }
      if coherent {
        UnparkCoherent(old(direct[..]), s.first, first[..], b, p, wasEmpty);
      }
    }

    /** Un-park: out of the full queue, behind the others of its class. */
    method Unpark(p: nat)
      requires Tracked() && p in q[BIN_FULL]
      modifies next, prev, inFull, first, last, direct, this`q
      ensures Tracked() && 0 < p < next.Length && bin[p] < BIN_HUGE && !inFull[p]
      ensures q == old(q)[BIN_FULL := Drop(old(q)[BIN_FULL], p)][bin[p] := old(q)[bin[p]] + [p]]
      ensures old(Valid()) ==> Valid()
    {
      hide AllOk, Coherent;
      ghost var f, q0, coherent := first[..], q, Coherent(direct[..], first[..]);
      OnlyIn(St(), BIN_FULL, p);
      TakeFromFull(p);
      TakenQueued(q0, BIN_FULL, q[BIN_FULL], p);
      if coherent {
        SameFronts(direct[..], f, first[..]);
      }
      ghost var q1 := q;
      Append(p);
      PutQueued(q1, bin[p], q1[bin[p]] + [p], p);
    }

    /** Drop an empty page unless it is the only one of its class. */
    method RetireEmptied(p: nat) returns (retired: bool)
      requires Tracked() && p < bin.Length && bin[p] < BIN_HUGE && p in q[bin[p]]
      modifies next, prev, first, last, direct, this`q, this`live
      ensures Tracked() && retired == (old(q)[bin[p]] != [p])
      ensures q == if retired then old(q)[bin[p] := Drop(old(q)[bin[p]], p)] else old(q)
      ensures live == if retired then old(live) - {p} else old(live)
      ensures old(Valid()) ==> Valid()
    {
      hide AllOk, Coherent;
      ghost var s, coherent := St(), Coherent(direct[..], first[..]);
      var b := bin[p];
      QueuedBounds(s, b, p);
      OnlyPage(s, b, p);
      var wasFirst := first[b] == p;
      retired := !(wasFirst && last[b] == p);
      if retired {
        OnlyIn(s, b, p);
        QueueRemove(b, p);
        TakenQueued(s.q, b, q[b], p);
        live := live - {p};
        if wasFirst {
          UpdateDirect(b);
        }
        if coherent {
          RetireCoherent(s, b, p, old(direct[..]), direct[..]);
        }
      }
    }

    /** `collect` drops an empty page even if it is the only one of its class. */
    method CollectEmpty(b: nat, p: nat)
      requires Tracked() && b < BIN_FULL && p in q[b]
      modifies next, prev, first, last, direct, this`q, this`live
      ensures Tracked() && q == old(q)[b := Drop(old(q)[b], p)] && live == old(live) - {p}
      ensures direct[..] == Refreshed(old(direct[..]), b, first[b])
      ensures old(Valid()) ==> Valid()
    {
      hide AllOk, Coherent;
      ghost var s, coherent := St(), Coherent(direct[..], first[..]);
      QueuedBounds(s, b, p);
      OnlyIn(s, b, p);
      QueueRemove(b, p);
      TakenQueued(s.q, b, q[b], p);
      live := live - {p};
      UpdateDirect(b);
      if coherent {
        RefreshCoherent(old(direct[..]), s.first, first[..], b);
      }
    }

    /** Park the front page of class `b`: it leaves its queue and heads the full one. */
    method ParkFront(b: nat)
      requires Listed() && b < BIN_FULL && q[b] != []
      modifies next, prev, inFull, first, last, this`q
      ensures Listed() && first[b] == Link(old(q)[b], 1)
      ensures q == old(q)[b := old(q)[b][1..]][BIN_FULL := [old(q)[b][0]] + old(q)[BIN_FULL]]
      ensures forall c | 0 <= c < BIN_FULL && c != b :: first[c] == old(first[c])
      ensures forall p | 0 <= p < inFull.Length && p != old(q)[b][0] :: inFull[p] == old(inFull[p])
    {
      ghost var s := St();
      FirstIs(s, b);
      var p := first[b];
      assert QueueOk(s, b);
      RemovedOk(s, b, p);
      QueueRemove(b, p);
      assert Without(s.q[b], 0) == s.q[b][1..];
      ghost var s1 := Removed(s, b, p);
      RelabelledOk(s1, p, bin[p], true);
      inFull[p] := true;
      assert St() == Relabelled(s1, p, bin[p], true);
      FirstIs(St(), BIN_FULL);
      QueuePushFront(BIN_FULL, p);
      FirstIs(St(), b);
    }

    /** Park from the front until a page serves; `k` pages were parked. */
    method ParkUntil(b: nat, serves: nat -> bool) returns (r: nat, ghost k: nat)
      requires Listed() && b < BIN_FULL
      modifies next, prev, inFull, first, last, this`q
      ensures Listed() && k == FirstServing(old(q)[b], serves)
      ensures r == first[b] == Link(old(q)[b], k)
      ensures k <= |old(q)[b]| && q == Parked(old(q), b, k)
      ensures forall c | 0 <= c < BIN_FULL && c != b :: first[c] == old(first[c])
      ensures forall p | 0 <= p < inFull.Length && p !in old(q)[b] :: inFull[p] == old(inFull[p])
    {
      ghost var t, was := q[b], q;
      k := 0;
      FirstIs(St(), b);
      r := first[b];
      ParkedNone(was, b);
      while r != 0 && !serves(r)
        invariant Listed() && k <= |t| && r == first[b] == Link(t, k) && q == Parked(was, b, k)
        invariant FirstServing(t, serves) == k + FirstServing(t[k..], serves)
        invariant r == 0 <==> k == |t|
        invariant forall c | 0 <= c < BIN_FULL && c != b :: first[c] == old(first[c])
        invariant forall p | 0 <= p < inFull.Length && p !in t :: inFull[p] == old(inFull[p])
        decreases |t| - k
      {
        assert t[k..][0] == r && t[k..][1..] == t[k + 1..] && r in t;
        ParkFront(b);
        ParkedNext(was, b, k);
        r, k := first[b], k + 1;
        FirstIs(St(), b);
      }
    }

    /** `malloc_generic_walk`: pages with nothing to give are parked from the front on; the first that
        serves stays in front, else a fresh page, if there is one, becomes the only one. The table
        is wrong for the class in between, and right again at the end. */
    method Walk(b: nat, serves: nat -> bool, spare: nat) returns (r: nat)
      requires Tracked() && IsClass(b) && b < BIN_HUGE
      requires spare != 0 ==> spare < next.Length && spare !in live
      modifies next, prev, bin, inFull, first, last, direct, this`q, this`live
      ensures Tracked() && direct[..] == Refreshed(old(direct[..]), b, first[b])
      ensures var t := old(q)[b]; var k := FirstServing(t, serves);
              && q == (if k < |t| then Parked(old(q), b, k)
                       else Parked(old(q), b, k)[b := if spare == 0 then [] else [spare]])
              && r == (if k < |t| then t[k] else spare)
              && live == if k < |t| || spare == 0 then old(live) else old(live) + {spare}
      ensures forall p | 0 <= p < bin.Length && p != spare :: bin[p] == old(bin[p])
      ensures old(Valid()) ==> Valid()
    {
      hide AllOk, Parked, FirstServing, Coherent;
      ghost var f, d, coherent := first[..], direct[..], Coherent(direct[..], first[..]);
      r := WalkQueues(b, serves, spare);
      UpdateDirect(b);
      if coherent {
        RefreshCoherent(d, f, first[..], b);
      }
    }

    method WalkQueues(b: nat, serves: nat -> bool, spare: nat) returns (r: nat)
      requires Tracked() && IsClass(b) && b < BIN_HUGE
      requires spare != 0 ==> spare < next.Length && spare !in live
      modifies next, prev, bin, inFull, first, last, this`q, this`live
      ensures Tracked()
      ensures forall c | 0 <= c < BIN_FULL && c != b :: first[c] == old(first[c])
      ensures var t := old(q)[b]; var k := FirstServing(t, serves);
              && q == (if k < |t| then Parked(old(q), b, k)
                       else Parked(old(q), b, k)[b := if spare == 0 then [] else [spare]])
              && r == (if k < |t| then t[k] else spare)
              && live == if k < |t| || spare == 0 then old(live) else old(live) + {spare}
      ensures forall p | 0 <= p < bin.Length && p != spare :: bin[p] == old(bin[p])
    {
      hide AllOk;
      ghost var was := q;
      ghost var k;
      r, k := ParkUntil(b, serves);
      FirstIs(St(), b);
      ParkedQueued(was, b, k);
      ParkedPages(was, b, k);
      if r == 0 {
        r := spare;
        AddSpare(b, spare);
      }
    }

    /** `fresh_page`: the page gets its class and a clear flag, and heads its queue. */
    method AddSpare(b: nat, spare: nat)
      requires Tracked() && b < BIN_HUGE && IsClass(b) && q[b] == []
      requires spare != 0 ==> spare < next.Length && spare !in live
      modifies next, prev, bin, inFull, first, last, this`q, this`live
      ensures Tracked() && q == old(q)[b := if spare == 0 then [] else [spare]]
      ensures live == if spare == 0 then old(live) else old(live) + {spare}
      ensures forall p | 0 <= p < bin.Length && p != spare :: bin[p] == old(bin[p])
      ensures forall c | 0 <= c < BIN_FULL && c != b :: first[c] == old(first[c])
    {
      ghost var s := St();
      if spare != 0 {
        assert !Queued(q, spare);
        RelabelledOk(s, spare, b, false);
        bin[spare], inFull[spare] := b, false;
        assert St() == Relabelled(s, spare, b, false);
        FirstIs(St(), b);
        QueuePushFront(b, spare);
        assert [spare] + [] == [spare];
        PutQueued(s.q, b, [spare], spare);
        live := live + {spare};
      } else {
        assert q == q[b := []];
      }
    }

    /** An adopted page, its flag cleared, heads its class's queue; the table is not looked at yet. */
    method AdoptPage(p: nat)
      requires Tracked() && 0 < p < next.Length && p !in live && IsClass(bin[p]) && bin[p] < BIN_HUGE
      modifies next, prev, inFull, first, last, this`q, this`live
      ensures Tracked() && q == old(q)[bin[p] := [p] + old(q)[bin[p]]] && live == old(live) + {p}
      ensures forall c | 0 <= c < BIN_COUNT :: first[c] == if c == bin[p] then p else old(first[c])
    {
      ghost var s := St();
      assert !Queued(q, p);
      RelabelledOk(s, p, bin[p], false);
      inFull[p] := false;
      assert St() == Relabelled(s, p, bin[p], false);
      FirstIs(St(), bin[p]);
      QueuePushFront(bin[p], p);
      PutQueued(s.q, bin[p], [p] + s.q[bin[p]], p);
      live := live + {p};
    }

    /** The loop that ends an adoption, over every index: whatever the queues became, the heap is in
        order again exactly when the old table and the new fronts meet `RebuildSafe`; in terms of the
        fronts `f0` the table held before the adoption, `FrontsSafe`. */
    method RebuildDirect(ghost f0: seq<nat>)
      requires Tracked() && Coherent(direct[..], f0)
      modifies direct
      ensures Tracked() && direct[..] == Rebuilt(old(direct[..]), first[..], 1)
      ensures Valid() <==> RebuildSafe(old(direct[..]), first[..])
      ensures Valid() <==> FrontsSafe(f0, first[..])
    {
      hide AllOk, Coherent, Refreshed, LiveOk, RebuildSafe, FrontsSafe, Uniform;
      ghost var d := direct[..];
      var b := 1;
      while b <= MAX_DIRECT_BIN
        invariant 1 <= b <= MAX_DIRECT_BIN + 1
        invariant Rebuilt(d, first[..], 1) == Rebuilt(direct[..], first[..], b)
      {
        UpdateDirect(b);
        b := b + 1;
      }
      NoClassNoPages(St(), 3);
      NoClassNoPages(St(), 5);
      NoClassNoPages(St(), 7);
      CoherentUniform(d, f0);
      RebuildCoherentWhen(d, first[..]);
      AdoptionCoherentWhen(d, f0, first[..]);
    }
  }

  /** Where a queued page is, it is alone, and its words are in range. */
  lemma QueuedBounds(s: Queues, b: nat, p: nat)
    requires AllOk(s) && b < BIN_COUNT && p in s.q[b]
    ensures 0 < p < |s.bin| && s.l.next[p] < |s.bin| && s.l.prev[p] < |s.bin|
    ensures b < BIN_FULL ==> b == s.bin[p] && IsClass(b) && b < BIN_HUGE
  {
    RemovedOk(s, b, p);
    assert QueueOk(s, b);
  }

  lemma OnlyIn(s: Queues, b: nat, p: nat)
    requires AllOk(s) && b < BIN_COUNT && p in s.q[b]
    ensures forall c: nat | c < BIN_COUNT && c != b :: p !in s.q[c]
    ensures forall x: nat :: x in Drop(s.q[b], p) <==> x in s.q[b] && x != p
  {
    RemovedOk(s, b, p);
    forall c: nat | c < BIN_COUNT && c != b ensures p !in s.q[c] {
      assert Apart(s.q[b], s.q[c]);
    }
  }

  /** Putting a page behind others moves no front; behind none it becomes the front. */
  lemma UnparkCoherent(d: seq<nat>, f: seq<nat>, g: seq<nat>, b: nat, p: nat, wasEmpty: bool)
    requires Coherent(d, f) && |f| == |g| == BIN_COUNT && IsClass(b) && b < BIN_HUGE
    requires forall c | 0 <= c < BIN_FULL && c != b :: g[c] == f[c]
    requires wasEmpty == (f[b] == 0) && g[b] == if wasEmpty then p else f[b]
    ensures Coherent(if wasEmpty then Refreshed(d, b, g[b]) else d, g)
  {
    if wasEmpty {
      RefreshCoherent(d, f, g, b);
    }
  }

  /** The table looks at the fronts of the small classes only. */
  lemma SameFronts(d: seq<nat>, f: seq<nat>, g: seq<nat>)
    requires Coherent(d, f) && |f| == |g| == BIN_COUNT && forall c | 0 <= c < BIN_FULL :: g[c] == f[c]
    ensures Coherent(d, g)
  {
  }

  lemma OnlyPage(s: Queues, b: nat, p: nat)
    requires AllOk(s) && b < BIN_COUNT && p in s.q[b]
    ensures s.first[b] == p && s.last[b] == p <==> s.q[b] == [p]
  {
    assert QueueOk(s, b);
    var t := s.q[b];
    if s.first[b] == p && s.last[b] == p {
      assert t[0] == t[|t| - 1];
      assert |t| == 1;
    }
  }

  lemma RetireCoherent(s: Queues, b: nat, p: nat, d: seq<nat>, e: seq<nat>)
    requires AllOk(s) && IsClass(b) && b < BIN_HUGE && p in s.q[b] && Coherent(d, s.first)
    requires p < |s.bin| && s.l.next[p] < |s.bin| && s.l.prev[p] < |s.bin|
    requires e == if s.first[b] == p then Refreshed(d, b, Removed(s, b, p).first[b]) else d
    ensures Coherent(e, Removed(s, b, p).first)
  {
    assert QueueOk(s, b);
    var t, k := s.q[b], IndexOf(s.q[b], p);
    assert NodeAt(s.l, t, k);
    if s.first[b] == p {
      RefreshCoherent(d, s.first, Removed(s, b, p).first, b);
    } else {
      assert k > 0 && t[k - 1] != 0;
      assert Removed(s, b, p).first == s.first;
    }
  }

  /** The queues after the first `k` pages of class `b` were parked, one after the other. */
  function Parked(q: seq<seq<nat>>, b: nat, k: nat): seq<seq<nat>>
    requires |q| == BIN_COUNT && b < BIN_FULL && k <= |q[b]|
  {
    q[b := q[b][k..]][BIN_FULL := Reversed(q[b][..k]) + q[BIN_FULL]]
  }

  lemma ParkedNone(q: seq<seq<nat>>, b: nat)
    requires |q| == BIN_COUNT && b < BIN_FULL
    ensures Parked(q, b, 0) == q && q[b][0..] == q[b]
  {
    assert Reversed(q[b][..0]) + q[BIN_FULL] == q[BIN_FULL];
  }

  lemma ParkedNext(q: seq<seq<nat>>, b: nat, k: nat)
    requires |q| == BIN_COUNT && b < BIN_FULL && k < |q[b]|
    ensures var p := Parked(q, b, k);
            p[b] == q[b][k..] && p[b := p[b][1..]][BIN_FULL := [p[b][0]] + p[BIN_FULL]] == Parked(q, b, k + 1)
  {
    var t := q[b];
    ReversedSnoc(t[..k], t[k]);
    assert t[..k + 1] == t[..k] + [t[k]] && t[k..][1..] == t[k + 1..];
    assert [t[k]] + (Reversed(t[..k]) + q[BIN_FULL]) == ([t[k]] + Reversed(t[..k])) + q[BIN_FULL];
  }

  lemma ParkedPages(q: seq<seq<nat>>, b: nat, k: nat)
    requires |q| == BIN_COUNT && b < BIN_FULL && k <= |q[b]|
    ensures Parked(q, b, k)[b] == q[b][k..]
  {
  }

  lemma {:induction false} ReversedHas(t: seq<nat>, x: nat)
    ensures x in Reversed(t) <==> x in t
  {
    if t != [] {
      ReversedHas(t[1..], x);
    }
  }

  /** How many pages of `t` come before the first that serves. */
  function FirstServing(t: seq<nat>, serves: nat -> bool): (k: nat)
    ensures k <= |t| && (k < |t| ==> serves(t[k])) && forall j | 0 <= j < k :: !serves(t[j])
  {
    if t == [] || serves(t[0]) then 0 else 1 + FirstServing(t[1..], serves)
  }

  function Reversed(t: seq<nat>): seq<nat> {
    if t == [] then [] else Reversed(t[1..]) + [t[0]]
  }

  lemma {:induction false} ReversedSnoc(t: seq<nat>, x: nat)
    ensures Reversed(t + [x]) == [x] + Reversed(t)
  {
    if t != [] {
      assert (t + [x])[1..] == t[1..] + [x];
      ReversedSnoc(t[1..], x);
    } else {
      assert [x][1..] == [];
    }
  }
}
