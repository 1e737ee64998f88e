/** The short life of a heap whose table goes stale. */
module HeapStories {
  import opened Bins
  import opened DirectTable
  import opened QueueLists
  import opened HeapQueues

  /** A new heap carves page 1 for class 6; page 2, of class 4, is still another heap's. */
  method Carved() returns (h: Heap)
    ensures fresh(h) && fresh(h.direct) && fresh(h.next) && fresh(h.prev) && fresh(h.bin) && fresh(h.inFull)
    ensures fresh(h.first) && fresh(h.last)
    ensures h.Valid() && h.live == {1} && h.next.Length == 3 && h.bin[2] == 4 && h.q[4] == [] && h.q[6] == [1]
  {
    hide AllOk, Coherent, Linked;
    h := new Heap([0, 0, 4]);
    ghost var was := h.q;
    ParkedNone(was, 6);
    var r := h.Walk(6, p => false, 1);
  }

  /** That segment is adopted. */
  method Adopted() returns (h: Heap, ghost f0: seq<nat>)
    ensures fresh(h) && fresh(h.direct) && fresh(h.next) && fresh(h.prev) && fresh(h.bin) && fresh(h.inFull)
    ensures fresh(h.first) && fresh(h.last)
    ensures h.Tracked() && h.live == {1, 2} && h.q[4] == [2]
    ensures Coherent(h.direct[..], f0) && f0[4] == 0 && f0[6] == h.first[6] == 1
  {
    hide AllOk, Coherent, Linked;
    h := Carved();
    FirstIs(h.St(), 4);
    FirstIs(h.St(), 6);
    f0 := h.first[..];
    h.AdoptPage(2);
  }

  /** The condition fails on fronts the code can have. After the rebuild slot 3 names the adopted page and
      slot 4 the sentinel; when `collect` finds the page empty and drops it, slot 3 still names it: a page
      that is not live, in no queue. */
  method StaleEntry() returns (h: Heap)
    ensures h.Tracked() && !h.Valid() && h.direct[3] == 2 && 2 !in h.live && forall b: nat | b < BIN_COUNT :: 2 !in h.q[b]
  {
    hide AllOk, Linked;
    ghost var f0;
    h, f0 := Adopted();
    ghost var d, f := h.direct[..], h.first[..];
    FirstIs(h.St(), 4);
    NoClassNoPages(h.St(), 3);
    NoClassNoPages(h.St(), 5);
    NoClassNoPages(h.St(), 7);
    SlotsBefore(d, f0, f);
    h.RebuildDirect(f0);
    h.CollectEmpty(4, 2);
    FirstIs(h.St(), 4);
    StaleSlot(d, f, f[4 := 0]);
    StaleIs(h.direct[..], h.first[..], 2);
  }

  lemma SlotsBefore(d: seq<nat>, f0: seq<nat>, f: seq<nat>)
    requires Coherent(d, f0) && f0[4] == 0 && f0[6] != 0
    ensures Uniform(d) && d[4] == 0 && d[6] != 0
  {
    CoherentUniform(d, f0);
    LowBins(0);
    assert d[4] == f0[Class(4)] && d[6] == f0[Class(6)];
  }

  /** No table with a page in slot 3 that is not the front of class 4 is coherent. */
  lemma StaleIs(d: seq<nat>, f: seq<nat>, p: nat)
    requires |d| == SLOTS && |f| > MAX_DIRECT_BIN && d[3] == p != f[4]
    ensures !Coherent(d, f)
  {
    LowBins(0);
    assert Class(3) == 4;
  }
}
