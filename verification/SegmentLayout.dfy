/** How a segment's slot table describes spans, as pure functions of the table.

    A span is a run of slices whose first slot has `sliceOffset` 0 and whose other slots point
    back to it; `off` is the second, redundant record of the same fact. Link 0 is null: slot 0
    is the header's and never starts a span. */
module SegmentLayout {
  import opened Common

  const SLICES := 512
  const HEADER := 1
  const SLOT_BYTES: nat := 88
  /** Where the slot array starts in the header; nothing depends on the value. */
  const PAGES_OFFSET: nat := 2176

  datatype Slot = Slot(blockSize: nat, sliceCount: nat, sliceOffset: nat, area: nat,
                       purged: bool, prev: nat, next: nat, capacity: nat)

  const ZERO_SLOT := Slot(0, 0, 0, 0, false, 0, 0, 0)

  type Slots = seq<Slot>

  /** What one segment's table says: slots, owner table, bump cursor, free-list head. */
  datatype Layout = Layout(g: Slots, off: seq<nat>, next: nat, head: nat)

  function PageOffFor(start: nat): nat {
    PAGES_OFFSET + start * SLOT_BYTES
  }

  /** The start of the span slice `i` belongs to, by its slot. */
  function Owner(g: Slots, i: nat): int
    requires i < |g|
  {
    i - g[i].sliceOffset
  }

  function End(g: Slots, o: nat): nat
    requires o < |g|
  {
    o + g[o].sliceCount
  }

  ghost predicate SpanAt(g: Slots, o: int, end: nat)
    requires end <= |g|
  {
    && 0 <= o < end && g[o].sliceOffset == 0 && 1 <= g[o].sliceCount && End(g, o) <= end
    && g[o].area == o * SLICE_SIZE
    && (forall j | o < j < End(g, o) :: g[j].sliceOffset == j - o)
  }

  /** Spans partition the slices `a..b`. */
  ghost predicate Tiled(g: Slots, a: nat, b: nat)
    requires b <= |g|
  {
    forall i | a <= i < b ::
      a <= Owner(g, i) && SpanAt(g, Owner(g, i), b) && i < End(g, Owner(g, i))
  }

  predicate IsFree(g: Slots, next: nat, i: int)
    requires next <= |g|
  {
    HEADER <= i < next && g[i].sliceOffset == 0 && g[i].blockSize == 0
  }

  predicate IsLive(g: Slots, next: nat, i: int)
    requires next <= |g|
  {
    HEADER <= i < next && g[i].sliceOffset == 0 && g[i].blockSize != 0
  }

  ghost function LiveSet(g: Slots, next: nat): set<int>
    requires next <= |g|
  {
    set i | HEADER <= i < next && IsLive(g, next, i)
  }

  /** The slices of the span that starts at `o`. */
  ghost function SpanSlices(g: Slots, o: nat): set<int>
    requires o < |g|
  {
    Range(o, End(g, o))
  }

  ghost function FreeSlices(g: Slots, next: nat): set<int>
    requires next <= |g|
  {
    set j | HEADER <= j < next && IsFree(g, next, Owner(g, j))
  }

  ghost predicate LinkAt(g: Slots, fl: seq<nat>, k: nat)
    requires k < |fl| && fl[k] < |g|
  {
    g[fl[k]].next == Link(fl, k + 1) && g[fl[k]].prev == Link(fl, k - 1)
  }

  /** `next` and `prev` spell the list `fl` both ways from `head`. */
  ghost predicate Linked(g: Slots, head: nat, fl: seq<nat>) {
    && head == Link(fl, 0)
    && (forall k | 0 <= k < |fl| :: HEADER <= fl[k] < |g|)
    && (forall k | 0 <= k < |fl| :: LinkAt(g, fl, k))
    && Distinct(fl)
  }

  /** The list holds the free spans and nothing else. */
  ghost predicate ListsFree(g: Slots, next: nat, fl: seq<nat>)
    requires next <= |g|
  {
    && (forall x | x in fl :: IsFree(g, next, x))
    && (forall x | IsFree(g, next, x) :: x in fl)
  }

  /** No free span is followed by another one. */
  ghost predicate Coalesced(g: Slots, next: nat)
    requires next <= |g|
  {
    forall i | IsFree(g, next, i) && End(g, i) < next :: g[End(g, i)].blockSize != 0
  }

  /** The owner table says what the slots say. */
  ghost predicate OffsAgree(g: Slots, off: seq<nat>, next: nat)
    requires next <= |g| && next <= |off|
  {
    forall i | HEADER <= i < next :: off[i] == PageOffFor(if Owner(g, i) < 0 then 0 else Owner(g, i))
  }

  ghost predicate Sized(l: Layout) {
    |l.g| == |l.off| == SLICES && HEADER <= l.next <= SLICES
  }

  ghost predicate LayoutOk(l: Layout, fl: seq<nat>) {
    && Sized(l) && Tiled(l.g, HEADER, l.next) && OffsAgree(l.g, l.off, l.next)
    && Linked(l.g, l.head, fl) && ListsFree(l.g, l.next, fl) && Coalesced(l.g, l.next)
  }

  // --------------------------------------------------- the table's rewrites

  /** `span_mark`, rewriting every slot of the span. */
  function Mark(g: Slots, idx: nat, len: nat): (r: Slots)
    requires 1 <= len && idx + len <= |g|
  {
    seq(|g|, i requires 0 <= i < |g| =>
      if i == idx then g[i].(sliceOffset := 0, sliceCount := len, area := idx * SLICE_SIZE)
      else if idx < i < idx + len then g[i].(sliceOffset := i - idx)
      else g[i])
  }

  function OffAt(off: seq<nat>, idx: nat, len: nat, i: nat): nat
    requires i < |off|
  {
    if idx <= i < idx + len then PageOffFor(idx) else off[i]
  }

  function MarkOff(off: seq<nat>, idx: nat, len: nat): (r: seq<nat>)
    requires idx + len <= |off|
  {
    seq(|off|, i requires 0 <= i < |off| => OffAt(off, idx, len, i))
  }

  /** `span_mark_free`: mark, clear the live marker, push on the list. */
  function MarkFree(l: Layout, idx: nat, len: nat): Layout
    requires Sized(l) && 1 <= len && idx + len <= SLICES && l.head < SLICES
  {
    var g := Mark(l.g, idx, len);
    var g1 := g[idx := g[idx].(blockSize := 0, prev := 0, next := l.head)];
    var g2 := if l.head == 0 then g1 else g1[l.head := g1[l.head].(prev := idx)];
    l.(g := g2, off := MarkOff(l.off, idx, len), head := idx)
  }

  /** `span_list_remove`. */
  function Unlink(l: Layout, x: nat): Layout
    requires x < |l.g| && l.g[x].prev < |l.g| && l.g[x].next < |l.g|
  {
    var p, n := l.g[x].prev, l.g[x].next;
    var g1 := if p == 0 then l.g else l.g[p := l.g[p].(next := n)];
    var g2 := if n == 0 then g1 else g1[n := g1[n].(prev := p)];
    l.(g := g2[x := g2[x].(next := 0, prev := 0)], head := if p == 0 then n else l.head)
  }

  /** Two tables record the same spans on the slices `a..b`. */
  ghost predicate SameShape(g: Slots, h: Slots, a: nat, b: nat) {
    && b <= |g| && b <= |h|
    && (forall i | a <= i < b ::
          h[i].sliceOffset == g[i].sliceOffset && h[i].sliceCount == g[i].sliceCount && h[i].area == g[i].area)
  }

  // -------------------------------------------------------- facts of tilings

  lemma SameTiled(g: Slots, h: Slots, a: nat, b: nat)
    requires SameShape(g, h, a, b) && Tiled(g, a, b)
    ensures Tiled(h, a, b)
  {
    forall i | a <= i < b
      ensures a <= Owner(h, i) && SpanAt(h, Owner(h, i), b) && i < End(h, Owner(h, i))
    {
      assert Owner(h, i) == Owner(g, i);
    }
  }

  /** A tiling may be cut where a span starts. */
  lemma TiledCut(g: Slots, a: nat, b: nat, c: nat)
    requires a <= b <= c <= |g| && Tiled(g, a, c) && (b == c || g[b].sliceOffset == 0)
    ensures Tiled(g, a, b) && Tiled(g, b, c)
  {
    forall i | a <= i < b
      ensures a <= Owner(g, i) && SpanAt(g, Owner(g, i), b) && i < End(g, Owner(g, i))
    {
      assert SpanAt(g, Owner(g, i), c);
    }
    forall i | b <= i < c
      ensures b <= Owner(g, i) && SpanAt(g, Owner(g, i), c) && i < End(g, Owner(g, i))
    {
      assert SpanAt(g, Owner(g, i), c);
    }
  }

  lemma TiledJoin(g: Slots, a: nat, b: nat, c: nat)
    requires a <= b <= c <= |g| && Tiled(g, a, b) && Tiled(g, b, c)
    ensures Tiled(g, a, c)
  {
    forall i | a <= i < c
      ensures a <= Owner(g, i) && SpanAt(g, Owner(g, i), c) && i < End(g, Owner(g, i))
    {
      if i < b {
        assert SpanAt(g, Owner(g, i), b);
      } else {
        assert SpanAt(g, Owner(g, i), c);
      }
    }
  }

  lemma OneSpan(g: Slots, o: nat, end: nat)
    requires end <= |g| && SpanAt(g, o, end) && End(g, o) == end
    ensures Tiled(g, o, end)
  {
  }

  /** The slice after a span is the cursor or the start of the next span. */
  lemma NextStarts(g: Slots, next: nat, o: nat)
    requires next <= |g| && Tiled(g, HEADER, next) && HEADER <= o < next && g[o].sliceOffset == 0
    ensures SpanAt(g, o, next)
    ensures End(g, o) < next ==> g[End(g, o)].sliceOffset == 0
  {
    assert Owner(g, o) == o;
    var e := End(g, o);
    if e < next {
      var q := Owner(g, e);
      assert SpanAt(g, q, next);
      assert q >= o;
    }
  }

  /** `h` records on `a..b` one span `a..m` and, unless `m` is `b`, a second one `m..b`;
      elsewhere it records what `g` does. */
  ghost predicate Recut(g: Slots, h: Slots, a: nat, m: nat, b: nat) {
    && a < m <= b <= |g| == |h|
    && SpanAt(h, a, m) && End(h, a) == m
    && (m < b ==> SpanAt(h, m, b) && End(h, m) == b)
    && SameShape(g, h, 0, a) && SameShape(g, h, b, |g|)
  }

  /** Recutting between two span boundaries leaves a tiling. */
  lemma RecutTiled(g: Slots, h: Slots, next: nat, a: nat, m: nat, b: nat)
    requires Recut(g, h, a, m, b) && HEADER <= a && b <= next <= |g| && Tiled(g, HEADER, next)
    requires g[a].sliceOffset == 0 && (b == next || g[b].sliceOffset == 0)
    ensures Tiled(h, HEADER, next)
  {
    TiledCut(g, HEADER, a, next);
    TiledCut(g, a, b, next);
    SameTiled(g, h, HEADER, a);
    SameTiled(g, h, b, next);
    OneSpan(h, a, m);
    TiledJoin(h, HEADER, a, m);
    if m < b {
      OneSpan(h, m, b);
      TiledJoin(h, HEADER, m, b);
    }
    TiledJoin(h, HEADER, b, next);
  }

  /** Where spans start after a recut, and who owns each slice. */
  lemma RecutStarts(g: Slots, h: Slots, a: nat, m: nat, b: nat, i: nat)
    requires Recut(g, h, a, m, b) && i < |g|
    ensures if i < a || b <= i then Owner(h, i) == Owner(g, i) && End(h, i) == End(g, i)
            else if i < m then Owner(h, i) == a else Owner(h, i) == m
  {
  }

  // ------------------------------------------------------ facts of the list

  lemma LinkBounds(g: Slots, head: nat, fl: seq<nat>, k: nat)
    requires Linked(g, head, fl) && k < |fl| && |g| == SLICES
    ensures g[fl[k]].prev < SLICES && g[fl[k]].next < SLICES
  {
    assert LinkAt(g, fl, k);
  }

  lemma UnlinkAt(l: Layout, fl: seq<nat>, k: nat, j: nat)
    requires |l.g| == SLICES && Linked(l.g, l.head, fl) && k < |fl| && j < |fl| - 1
    requires l.g[fl[k]].prev < SLICES && l.g[fl[k]].next < SLICES
    ensures var w := Without(fl, k);
            w[j] < SLICES && |Unlink(l, fl[k]).g| == SLICES && LinkAt(Unlink(l, fl[k]).g, w, j)
  {
    var w := Without(fl, k);
    var i := if j < k then j else j + 1;
    assert w[j] == fl[i] != fl[k];
    assert LinkAt(l.g, fl, i) && LinkAt(l.g, fl, k);
    assert Link(w, j + 1) == if j + 1 == k then Link(fl, k + 1) else Link(fl, i + 1);
    assert Link(w, j - 1) == if j == k then Link(fl, k - 1) else Link(fl, i - 1);
  }

  lemma UnlinkLinked(l: Layout, fl: seq<nat>, k: nat)
    requires |l.g| == SLICES && Linked(l.g, l.head, fl) && k < |fl|
    ensures l.g[fl[k]].prev < SLICES && l.g[fl[k]].next < SLICES
    ensures var r := Unlink(l, fl[k]); Linked(r.g, r.head, Without(fl, k)) && |r.g| == SLICES
  {
    LinkBounds(l.g, l.head, fl, k);
    var r := Unlink(l, fl[k]);
    var w := Without(fl, k);
    forall j | 0 <= j < |w| ensures w[j] < SLICES && LinkAt(r.g, w, j) {
      UnlinkAt(l, fl, k, j);
    }
    assert LinkAt(l.g, fl, k);
  }

  /** Unlinking changes nothing but links. */
  lemma UnlinkShape(l: Layout, x: nat)
    requires x < |l.g| && l.g[x].prev < |l.g| && l.g[x].next < |l.g|
    ensures var r := Unlink(l, x);
            && |r.g| == |l.g| && r.off == l.off && r.next == l.next
            && (forall i | 0 <= i < |l.g| ::
                  r.g[i] == l.g[i].(prev := r.g[i].prev, next := r.g[i].next))
  {
  }

  lemma MarkFreeLinked(l: Layout, fl: seq<nat>, idx: nat, len: nat)
    requires Sized(l) && Linked(l.g, l.head, fl) && 1 <= len && HEADER <= idx && idx + len <= SLICES && idx !in fl
    ensures l.head < SLICES
    ensures var r := MarkFree(l, idx, len); Linked(r.g, r.head, [idx] + fl)
  {
    var r := MarkFree(l, idx, len);
    var w := [idx] + fl;
    forall j | 0 <= j < |w| ensures HEADER <= w[j] < |r.g| && LinkAt(r.g, w, j) {
      if j > 0 {
        assert w[j] == fl[j - 1] != idx;
        assert LinkAt(l.g, fl, j - 1);
      }
    }
  }

  /** What marking a span free does to the table, apart from links. */
  lemma MarkFreeShape(l: Layout, idx: nat, len: nat)
    requires Sized(l) && 1 <= len && idx + len <= SLICES && l.head < SLICES
    ensures var r := MarkFree(l, idx, len);
            var m := Mark(l.g, idx, len);
            && Sized(r) && r.next == l.next
            && (forall i | 0 <= i < SLICES ::
                  r.g[i] == m[i].(prev := r.g[i].prev, next := r.g[i].next,
                                  blockSize := if i == idx then 0 else l.g[i].blockSize))
  {
  }
}
