/** One page: its free lists, their lazy extension, and what is still known to be zero. */
module PageLists {
  import opened Common
  import opened Bits
  import opened Bins

  const MIN_EXTEND: nat := 4
  const OS_PAGE: nat := 4096

  // ------------------------------------------------- lists spelled by link words

  ghost predicate LinkAt(links: seq<nat>, s: seq<nat>, k: nat)
    requires k < |s| && s[k] < |links|
  {
    links[s[k]] == Link(s, k + 1)
  }

  /** Block numbers start at 1, so that 0 is null; `links[b]` is the first word of block `b`. */
  ghost predicate Spells(links: seq<nat>, head: nat, s: seq<nat>) {
    && head == Link(s, 0)
    && (forall k | 0 <= k < |s| :: 1 <= s[k] < |links|)
    && (forall k | 0 <= k < |s| :: LinkAt(links, s, k))
  }

  lemma RangeSize(a: int, b: int)
    requires a <= b
    ensures |Range(a, b)| == b - a
    decreases b - a
  {
    if a < b {
      RangeSize(a + 1, b);
    }
  }

  ghost function Members(s: seq<nat>): (r: set<int>)
    ensures forall x :: x in r <==> x >= 0 && x in s
  {
    set x: nat | x in s :: x as int
  }

  lemma {:induction false} DistinctSize(s: seq<nat>)
    requires Distinct(s)
    ensures |Members(s)| == |s|
  {
    if s == [] {
      assert Members(s) == {};
    } else {
      DistinctSize(s[1..]);
      assert Members(s) == Members(s[1..]) + {s[0] as int};
    }
  }

  /** Distinct block numbers up to `n` are at most `n`. */
  lemma Pigeonhole(s: seq<nat>, n: nat)
    requires Distinct(s) && forall x | x in s :: 1 <= x <= n
    ensures |s| <= n
  {
    DistinctSize(s);
    assert Members(s) <= Range(1, n + 1);
    SubsetSize(Members(s), Range(1, n + 1));
    RangeSize(1, n + 1);
  }

  lemma {:induction false} SubsetSize(a: set<int>, b: set<int>)
    requires a <= b
    ensures |a| <= |b|
  {
    assert b == a + (b - a);
  }

  /** No block is on two of the lists, or twice on one. */
  ghost predicate Apart(a: seq<nat>, b: seq<nat>, c: seq<nat>) {
    && Distinct(a) && Distinct(b) && Distinct(c)
    && (forall x | x in a :: x !in b && x !in c) && (forall x | x in b :: x !in c)
  }

  ghost predicate Within(s: seq<nat>, n: nat) {
    forall x | x in s :: 1 <= x <= n
  }

  lemma JoinDistinct(a: seq<nat>, b: seq<nat>)
    requires Distinct(a) && Distinct(b) && forall x | x in a :: x !in b
    ensures Distinct(a + b)
  {
    forall j, k | 0 <= j < k < |a + b| ensures (a + b)[j] != (a + b)[k] {
      if j < |a| <= k {
        assert a[j] in a && b[k - |a|] in b;
      }
    }
  }

  /** So together they hold at most as many blocks as there are. */
  lemma ApartFits(a: seq<nat>, b: seq<nat>, c: seq<nat>, n: nat)
    requires Apart(a, b, c) && Within(a, n) && Within(b, n) && Within(c, n)
    ensures |a| + |b| + |c| <= n
  {
    JoinDistinct(a, b);
    JoinDistinct(a + b, c);
    Pigeonhole(a + b + c, n);
  }

  lemma PushApart(a: seq<nat>, x: nat)
    requires Distinct(a) && x !in a
    ensures Distinct([x] + a)
  {
    JoinDistinct([x], a);
  }

  lemma PopApart(a: seq<nat>)
    requires Distinct(a) && a != []
    ensures Distinct(a[1..]) && a[0] !in a[1..]
  {
    forall x | x in a[1..] ensures x != a[0] {
      var k :| 0 <= k < |a[1..]| && a[1..][k] == x;
      assert a[k + 1] == x;
    }
    forall j, k | 0 <= j < k < |a[1..]| ensures a[1..][j] != a[1..][k] {
      assert a[j + 1] != a[k + 1];
    }
  }

  /** The three lists of a page with `n` blocks carved. */
  ghost predicate Parted(a: seq<nat>, b: seq<nat>, c: seq<nat>, n: nat) {
    Apart(a, b, c) && Within(a, n) && Within(b, n) && Within(c, n)
  }

  lemma PopParted(a: seq<nat>, b: seq<nat>, c: seq<nat>, n: nat)
    requires Parted(a, b, c, n) && a != []
    ensures Parted(a[1..], b, c, n) && 1 <= a[0] <= n && a[0] !in a[1..] && a[0] !in b && a[0] !in c
  {
    PopApart(a);
    assert forall x | x in a[1..] :: x in a;
    assert a[0] in a;
  }

  /** The stolen chain joins the free list. */
  lemma JoinParted(a: seq<nat>, b: seq<nat>, c: seq<nat>, n: nat)
    requires Parted(a, b, c, n)
    ensures Parted(c + a, b, [], n)
  {
    JoinDistinct(c, a);
  }

  /** Newly carved blocks are on no list yet. */
  lemma CarveParted(a: seq<nat>, b: seq<nat>, c: seq<nat>, n: nat, more: seq<nat>, m: nat)
    requires Parted(a, b, c, n) && n <= m && Distinct(more) && forall x | x in more :: n < x <= m
    ensures Parted(more + a, b, c, m)
  {
    JoinDistinct(more, a);
  }

  /** A write to a block that is not listed leaves the list's spelling alone. */
  lemma SpellsFrame(links: seq<nat>, more: seq<nat>, head: nat, s: seq<nat>)
    requires Spells(links, head, s) && |more| == |links|
    requires forall k | 0 <= k < |s| :: more[s[k]] == links[s[k]]
    ensures Spells(more, head, s)
  {
    forall k | 0 <= k < |s| ensures LinkAt(more, s, k) {
      assert LinkAt(links, s, k);
    }
  }

  /** In particular writes above all the list's blocks. */
  lemma SpellsBelow(links: seq<nat>, more: seq<nat>, head: nat, s: seq<nat>, low: nat)
    requires Spells(links, head, s) && |more| == |links| && Within(s, low)
    requires forall b | 0 <= b <= low && b < |links| :: more[b] == links[b]
    ensures Spells(more, head, s)
  {
    forall k | 0 <= k < |s| ensures more[s[k]] == links[s[k]] {
      assert s[k] in s;
    }
    SpellsFrame(links, more, head, s);
  }

  lemma SpellsPush(links: seq<nat>, head: nat, s: seq<nat>, b: nat)
    requires Spells(links, head, s) && 1 <= b < |links| && b !in s
    ensures Spells(links[b := head], b, [b] + s)
  {
    var t, more := [b] + s, links[b := head];
    forall k | 0 <= k < |t| ensures 1 <= t[k] < |more| && LinkAt(more, t, k) {
      if k > 0 {
        assert t[k] == s[k - 1] && s[k - 1] in s;
        assert LinkAt(links, s, k - 1);
      }
    }
  }

  lemma SpellsPop(links: seq<nat>, head: nat, s: seq<nat>)
    requires Spells(links, head, s) && head != 0
    ensures s != [] && s[0] == head && head < |links| && Spells(links, links[head], s[1..])
  {
    assert LinkAt(links, s, 0);
    forall k | 0 <= k < |s[1..]| ensures LinkAt(links, s[1..], k) {
      assert LinkAt(links, s, k + 1);
    }
  }

  lemma SpellsEmpty(links: seq<nat>, head: nat, s: seq<nat>)
    requires Spells(links, head, s)
    ensures head == 0 <==> s == []
  {
  }

  /** Linking the last block of `w` to the head of `s` joins the lists. */
  lemma SpellsJoin(links: seq<nat>, w: seq<nat>, s: seq<nat>, head: nat)
    requires Spells(links, Link(w, 0), w) && Spells(links, head, s) && w != []
    requires Distinct(w) && forall x | x in w :: x !in s
    ensures w[|w| - 1] < |links| && Spells(links[w[|w| - 1] := head], w[0], w + s)
  {
    var more := links[w[|w| - 1] := head];
    var t := w + s;
    forall k | 0 <= k < |t| ensures 1 <= t[k] < |more| && LinkAt(more, t, k) {
      if k < |w| {
        assert LinkAt(links, w, k);
      } else {
        assert t[k] == s[k - |w|] && s[k - |w|] in s;
        assert t[k] != w[|w| - 1];
        assert LinkAt(links, s, k - |w|);
      }
    }
  }

  // --------------------------------------------------------------- the bounded walk

  /** The link word of `b`; a word outside the page reads as null. */
  function Next(links: seq<nat>, b: nat): nat {
    if b < |links| then links[b] else 0
  }

  /** The `k`-th block after `head`, following whatever the links say. */
  function Follow(links: seq<nat>, head: nat, k: nat): nat
    decreases k
  {
    if k == 0 || head == 0 then head else Follow(links, Next(links, head), k - 1)
  }

  lemma {:induction false} FollowSnoc(links: seq<nat>, head: nat, k: nat)
    ensures Follow(links, head, k + 1) == if Follow(links, head, k) == 0 then 0 else Next(links, Follow(links, head, k))
    decreases k
  {
    if k > 0 && head != 0 {
      FollowSnoc(links, Next(links, head), k - 1);
    } else if head != 0 {
      assert Follow(links, head, 1) == Follow(links, Next(links, head), 0);
    }
  }

  /** The collect walk on any link words at all, a cyclic chain included: it looks at no more than
      `used + 1` blocks, gives up exactly when the chain is longer than `used`, and otherwise
      returns the last block and the length. */
  method BoundedWalk(links: array<nat>, head: nat, used: nat) returns (ok: bool, tail: nat, n: nat)
    requires head != 0
    ensures 1 <= n <= used + 1 && tail == Follow(links[..], head, n - 1) != 0
    ensures ok ==> n <= used && Follow(links[..], head, n) == 0
    ensures !ok ==> n == used + 1
  {
    tail, n := head, 1;
    ok := true;
    while ok
      invariant 1 <= n <= used + 1 && tail == Follow(links[..], head, n - 1) != 0
      invariant !ok ==> n == used + 1
      decreases ok, used + 1 - n
    {
      if n > used {
        ok := false;
      } else {
        FollowSnoc(links[..], head, n - 1);
        var next := if tail < links.Length then links[tail] else 0;
        if next == 0 {
          return;
        }
        tail, n := next, n + 1;
      }
    }
  }

  lemma {:induction false} FollowSpells(links: seq<nat>, head: nat, s: seq<nat>, k: nat)
    requires Spells(links, head, s)
    ensures Follow(links, head, k) == Link(s, k)
    decreases k
  {
    if k > 0 && head != 0 {
      SpellsPop(links, head, s);
      FollowSpells(links, links[head], s[1..], k - 1);
    }
  }

  // ---------------------------------------------------------- how far to extend

  /** `reserved`: whole blocks in the span. */
  function Reserved(slices: nat, bsize: nat): nat
    requires bsize > 0
  {
    slices * SLICE_SIZE / bsize
  }

  /** The 4 KiB batch, as a shift of `reserved`: 4 plus the span's own power of two. */
  function Batch(reserved: nat, slices: nat): nat
    requires slices > 0
  {
    reserved / Pow2(4 + TrailingZeros(slices))
  }

  function Take(capacity: nat, reserved: nat, slices: nat): (t: nat)
    requires slices > 0 && capacity <= reserved
    ensures capacity + t <= reserved
  {
    Min(Max(Max(Batch(reserved, slices), MIN_EXTEND), capacity), reserved - capacity)
  }

  /** An extension of a page with uncarved blocks carves some. */
  lemma TakesSome(capacity: nat, reserved: nat, slices: nat)
    requires slices > 0 && capacity < reserved
    ensures Take(capacity, reserved, slices) > 0
  {
  }

  /** On the two span lengths of binned pages the shift is the division it replaces. */
  lemma BatchIsPages(slices: nat, bsize: nat)
    requires (slices == 1 || slices == 8) && bsize > 0
    ensures Batch(Reserved(slices, bsize), slices) == OS_PAGE / bsize
  {
    var d := 16 * slices;
    assert Pow2(4 + TrailingZeros(slices)) == d by {
      assert Pow2(4) == 16 && Pow2(7) == 128;
      assert TrailingZeros(8) == 3 && TrailingZeros(1) == 0;
    }
    var n := slices * SLICE_SIZE;
    DivDiv(n, bsize, d);
    DivDiv(n, d, bsize);
    assert bsize * d == d * bsize;
    DivModIs(n, d, OS_PAGE, 0);
  }

  lemma BlockInside(slices: nat, bsize: nat, i: nat)
    requires bsize > 0 && i < Reserved(slices, bsize)
    ensures 0 <= i * bsize && i * bsize + bsize <= slices * SLICE_SIZE
  {
    var n := slices * SLICE_SIZE;
    assert n == (n / bsize) * bsize + n % bsize;
    MulAtLeast(n / bsize - i, bsize);
    assert (n / bsize - i) * bsize == (n / bsize) * bsize - i * bsize;
  }

  /** How many whole blocks one OS page holds. */
  function PerPage(bsize: nat): (w: nat)
    requires bsize > 0
    ensures w == 4096 / bsize && w * bsize <= 4096 < (w + 1) * bsize
  {
    QuotientBetween(4096, bsize, 0, 4097);
    4096 / bsize
  }

  /** An extension takes the blocks of one OS page, or four, or as many as there are, whichever is most,
      and no more than are left. */
  lemma TakeIs(slices: nat, bsize: nat, reserved: nat, capacity: nat)
    requires (slices == 1 || slices == 8) && bsize > 0 && reserved == Reserved(slices, bsize) && capacity <= reserved
    ensures Take(capacity, reserved, slices) == Min(reserved - capacity, Max(Max(PerPage(bsize), 4), capacity))
  {
    BatchIsPages(slices, bsize);
  }

  /** `reserved` is the most whole blocks the span has room for. */
  lemma ReservedIsMost(slices: nat, bsize: nat)
    requires bsize > 0
    ensures Reserved(slices, bsize) * bsize <= slices * SLICE_SIZE < (Reserved(slices, bsize) + 1) * bsize
  {
    QuotientBetween(slices * SLICE_SIZE, bsize, 0, slices * SLICE_SIZE + 1);
  }

  /** Blocks of a page lie in its span and do not overlap. */
  lemma BlocksInside(slices: nat, bsize: nat, i: nat, j: nat)
    requires bsize > 0 && i < j < Reserved(slices, bsize)
    ensures i * bsize + bsize <= j * bsize
    ensures j * bsize + bsize <= slices * SLICE_SIZE
  {
    MulAtLeast(j - i, bsize);
    assert (j - i) * bsize == j * bsize - i * bsize;
    BlockInside(slices, bsize, j);
  }

  /** Carved blocks after `k` extensions of a fresh page. */
  function Carved(k: nat, reserved: nat, slices: nat): (c: nat)
    requires slices > 0
    ensures c <= reserved
  {
    if k == 0 then 0 else
      var c := Carved(k - 1, reserved, slices);
      c + Take(c, reserved, slices)
  }

  /** The batches grow geometrically: a page is fully carved after logarithmically many trips. */
  lemma {:induction false} CarvedGrows(k: nat, reserved: nat, slices: nat)
    requires k >= 1 && slices > 0
    ensures Carved(k, reserved, slices) >= Min(reserved, MIN_EXTEND * Pow2(k - 1))
  {
    if k == 1 {
      assert Carved(0, reserved, slices) == 0;
    } else {
      CarvedGrows(k - 1, reserved, slices);
    }
  }

  /** The first trip carves one OS page's worth, or four blocks. */
  lemma CarvedFirst(slices: nat, bsize: nat)
    requires (slices == 1 || slices == 8) && bsize > 0
    ensures Carved(1, Reserved(slices, bsize), slices) == Min(Reserved(slices, bsize), Max(PerPage(bsize), 4))
  {
    assert Carved(0, Reserved(slices, bsize), slices) == 0;
    TakeIs(slices, bsize, Reserved(slices, bsize), 0);
  }

  /** And no trip more than doubles what was carved before: what lies unused is bounded by what was used. */
  lemma {:induction false} CarvedBounded(k: nat, slices: nat, bsize: nat)
    requires k >= 1 && (slices == 1 || slices == 8) && bsize > 0
    ensures Carved(k, Reserved(slices, bsize), slices) <= Max(PerPage(bsize), 4) * Pow2(k - 1)
  {
    if k == 1 {
      CarvedOnce(slices, bsize, Max(PerPage(bsize), 4), Pow2(k - 1));
    } else {
      CarvedBounded(k - 1, slices, bsize);
      CarvedDoubles(k, slices, bsize, Carved(k - 1, Reserved(slices, bsize), slices), Max(PerPage(bsize), 4), Pow2(k - 2));
    }
  }

  lemma CarvedOnce(slices: nat, bsize: nat, m: nat, p: nat)
    requires (slices == 1 || slices == 8) && bsize > 0 && p == 1 && m == Max(PerPage(bsize), 4)
    ensures Carved(1, Reserved(slices, bsize), slices) <= m * p
  {
    CarvedFirst(slices, bsize);
    assert m * p == m;
  }

  lemma CarvedDoubles(k: nat, slices: nat, bsize: nat, c: nat, m: nat, p: nat)
    requires k >= 2 && (slices == 1 || slices == 8) && bsize > 0 && p == Pow2(k - 2) && m == Max(PerPage(bsize), 4)
    requires c == Carved(k - 1, Reserved(slices, bsize), slices) && c <= m * p
    ensures Carved(k, Reserved(slices, bsize), slices) <= m * Pow2(k - 1)
  {
    var r := Reserved(slices, bsize);
    assert Pow2(k - 1) == 2 * p;
    TakeIs(slices, bsize, r, c);
    Doubles(m, p, c);
    hide Reserved, Take, PerPage, Pow2;
    assert Carved(k, r, slices) == c + Take(c, r, slices);
  }

  lemma Doubles(m: nat, p: nat, c: nat)
    requires p >= 1 && c <= m * p
    ensures c + Max(m, c) <= m * (2 * p)
  {
    assert m * (2 * p) == m * p + m * p;
    assert m * (p - 1) >= 0;
  }
}
