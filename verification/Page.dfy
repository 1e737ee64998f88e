/** The owner's operations on one page, in place: pop, free, collect, extend, purge of free slots. */
module Pages {
  import opened Common
  import opened Bits
  import opened PageLists

  /** A binned page of `reserved` blocks, numbered from 1. `links[b]` is the first word of block `b`;
      `rest[b]` stands for the words after it, 0 when all of them are zero. */
  class Page {
    const blockSize: nat
    const slices: nat
    const reserved: nat
    const links: array<nat>
    const rest: array<nat>
    var free: nat
    var localFree: nat
    var chain: nat          // the cross-thread chain of `xthread_free`
    var used: nat
    var capacity: nat
    var freeIsZero: bool

    ghost var freeL: seq<nat>
    ghost var localL: seq<nat>
    ghost var chainL: seq<nat>

    /** Blocks in nobody's list: with clients. */
    ghost predicate Client(b: nat)
      reads this
    {
      1 <= b <= capacity && b !in freeL && b !in localL && b !in chainL
    }

    ghost predicate Shape()
      reads this
    {
      && blockSize > 0 && (slices == 1 || slices == 8) && reserved == Reserved(slices, blockSize)
      && links.Length == rest.Length == reserved + 1 && links != rest && capacity <= reserved
    }

    ghost predicate Lists()
      requires Shape()
      reads this, links
    {
      && Spells(links[..], free, freeL) && Spells(links[..], localFree, localL) && Spells(links[..], chain, chainL)
      && Parted(freeL, localL, chainL, capacity)
    }

    /** What `free_is_zero` promises: never-written blocks, on the free list or not carved yet. */
    ghost predicate ZeroKept()
      requires Shape()
      reads this, rest
    {
      freeIsZero ==> forall b: nat | 1 <= b <= reserved && (b in freeL || b > capacity) :: rest[b] == 0
    }

    ghost predicate Valid()
      reads this, links, rest
    {
      && Shape() && Lists() && ZeroKept()
      && used == capacity - |freeL| - |localL|
    }

    /** `fresh_page`: nothing carved; memory is as it is found, zero is what the span allocator says of it. */
    constructor (bsize: nat, n: nat, zero: bool, heads: seq<nat>, rests: seq<nat>)
      requires bsize > 0 && (n == 1 || n == 8) && |heads| == |rests| == Reserved(n, bsize) + 1
      requires zero ==> forall i | 1 <= i < |rests| :: rests[i] == 0
      ensures Valid() && fresh(links) && fresh(rest)
      ensures blockSize == bsize && slices == n && capacity == used == 0 && freeIsZero == zero && rest[..] == rests
      ensures freeL == localL == chainL == []
    {
      blockSize, slices, reserved := bsize, n, Reserved(n, bsize);
      links := new nat[|heads|](i requires 0 <= i < |heads| => heads[i]);
      rest := new nat[|rests|](i requires 0 <= i < |rests| => rests[i]);
      free, localFree, chain, used, capacity, freeIsZero := 0, 0, 0, 0, 0, zero;
      freeL, localL, chainL := [], [], [];
    }

    /** `page_pop`: a block with the zero flag is zero apart from its first word. */
    method Pop() returns (b: nat, zero: bool)
      requires Valid()
      modifies this`free, this`used, this`freeL
      ensures Valid()
      ensures if old(freeL) == [] then b == 0 && freeL == [] && used == old(used)
              else b == old(freeL)[0] && freeL == old(freeL)[1..] && used == old(used) + 1 && Client(b)
      ensures zero == (freeIsZero && b != 0) && (zero ==> rest[b] == 0)
    {
      SpellsEmpty(links[..], free, freeL);
      b, zero := free, free != 0 && freeIsZero;
      if b != 0 {
        SpellsPop(links[..], free, freeL);
        PopParted(freeL, localL, chainL, capacity);
        free := links[b];
        used := used + 1;
        freeL := freeL[1..];
      }
    }

    /** Whoever has a block writes what it likes in it. */
    method Write(b: nat, first: nat, other: nat)
      requires Valid() && Client(b)
      modifies links, rest
      ensures Valid() && links[b] == first && rest[b] == other
      ensures forall c | 0 <= c <= reserved && c != b :: links[c] == old(links[c]) && rest[c] == old(rest[c])
    {
      ghost var was := links[..];
      links[b], rest[b] := first, other;
      SpellsFrame(was, links[..], free, freeL);
      SpellsFrame(was, links[..], localFree, localL);
      SpellsFrame(was, links[..], chain, chainL);
    }

    lemma ClientCounted(b: nat)
      requires Valid() && Client(b)
      ensures used >= |chainL| + 1
    {
      PushApart(chainL, b);
      ApartFits(freeL, localL, [b] + chainL, capacity);
    }

    lemma ChainCounted()
      requires Valid()
      ensures used >= |chainL|
    {
      ApartFits(freeL, localL, chainL, capacity);
    }

    /** `page_push_local`: the count cannot wrap for a block a client still holds. */
    method PushLocal(b: nat)
      requires Valid() && Client(b)
      modifies links, this`localFree, this`used, this`localL
      ensures Valid() && localL == [b] + old(localL) && used == old(used) - 1
      ensures forall c | 0 <= c <= reserved && c != b :: links[c] == old(links[c])
    {
      ClientCounted(b);
      ghost var was := links[..];
      SpellsPush(was, localFree, localL, b);
      links[b] := localFree;
      SpellsFrame(was, links[..], free, freeL);
      SpellsFrame(was, links[..], chain, chainL);
      PushApart(localL, b);
      localFree := b;
      used := used - 1;
      localL := [b] + localL;
    }

    /** A remote free's push on the page's own chain: `used` still counts the block. */
    method PushRemote(b: nat)
      requires Valid() && Client(b)
      modifies links, this`chain, this`chainL
      ensures Valid() && chainL == [b] + old(chainL)
      ensures forall c | 0 <= c <= reserved && c != b :: links[c] == old(links[c])
    {
      ghost var was := links[..];
      SpellsPush(was, chain, chainL, b);
      links[b] := chain;
      SpellsFrame(was, links[..], free, freeL);
      SpellsFrame(was, links[..], localFree, localL);
      PushApart(chainL, b);
      chain := b;
      chainL := [b] + chainL;
    }

    /** `free` takes over `local_free` when it is dry; recycled blocks are not zero. */
    method Refill()
      requires Valid()
      modifies this`free, this`localFree, this`freeIsZero, this`freeL, this`localL
      ensures Valid() && used == old(used)
      ensures if old(freeL) == [] then freeL == old(localL) && localL == []
              else freeL == old(freeL) && localL == old(localL)
      ensures freeIsZero == (old(freeIsZero) && (old(freeL) != [] || old(localL) == []))
    {
      SpellsEmpty(links[..], free, freeL);
      if free == 0 {
        SpellsEmpty(links[..], localFree, localL);
        free, localFree := localFree, 0;
        freeL, localL := localL, [];
        if free != 0 {
          freeIsZero := false;
        }
      }
    }

    /** Take the cross-thread chain, counting it against `used`; the count cannot be exceeded. */
    method Splice() returns (stole: bool)
      requires Valid()
      modifies links, this`free, this`chain, this`used, this`freeIsZero, this`freeL, this`chainL
      ensures Valid() && chainL == [] && freeL == old(chainL) + old(freeL) && used == old(used) - |old(chainL)|
      ensures stole == (old(chainL) != []) && freeIsZero == (old(freeIsZero) && !stole)
      ensures forall b | 0 <= b <= reserved && b !in old(chainL) :: links[b] == old(links[b])
    {
      SpellsEmpty(links[..], chain, chainL);
      stole := chain != 0;
      if stole {
        ChainCounted();
        JoinParted(freeL, localL, chainL, capacity);
        var n := Append(links, chain, used, free, chainL, freeL, localFree, localL);
        free, chain, used, freeIsZero := chain, 0, used - n, false;
        freeL, chainL := chainL + freeL, [];
      } else {
        assert chainL + freeL == freeL;
      }
    }

    /** `page_collect`: zero is given up exactly when a recycled block joins the free list, and no
        block a client holds is written. */
    method Collect() returns (stole: bool)
      requires Valid()
      modifies this, links
      ensures Valid() && chainL == [] && used == old(used) - |old(chainL)| && capacity == old(capacity)
      ensures freeL == old(chainL) + if old(freeL) == [] then old(localL) else old(freeL)
      ensures localL == if old(freeL) == [] then [] else old(localL)
      ensures stole == (old(chainL) != [])
      ensures freeIsZero == (old(freeIsZero) && !stole && (old(freeL) != [] || old(localL) == []))
      ensures forall b | 0 <= b <= reserved && b !in old(chainL) :: links[b] == old(links[b])
    {
      Refill();
      stole := Splice();
    }

    /** `page_extend`: the next batch of never-used blocks goes in front of the list, in address order. */
    method Extend()
      requires Valid()
      modifies links, this`free, this`capacity, this`freeL
      ensures Valid() && used == old(used)
      ensures capacity == old(capacity) + Take(old(capacity), reserved, slices)
      ensures capacity - old(capacity) == Min(reserved - old(capacity), Max(Max(PerPage(blockSize), 4), old(capacity)))
      ensures freeL == Run(old(capacity) + 1, capacity + 1) + old(freeL)
      ensures forall b | 0 <= b <= old(capacity) :: links[b] == old(links[b])
    {
      hide Spells, Reserved, Batch, Take, Min, Max, PerPage;
      TakeIs(slices, blockSize, reserved, capacity);
      var top := capacity + Take(capacity, reserved, slices);
      RunHas(capacity + 1, top + 1);
      ghost var was := links[..];
      var head := LinkRun(links, capacity, top, free, freeL);
      CarveParted(freeL, localL, chainL, capacity, Run(capacity + 1, top + 1), top);
      SpellsBelow(was, links[..], localFree, localL, capacity);
      SpellsBelow(was, links[..], chain, chainL, capacity);
      free, freeL := head, Run(capacity + 1, top + 1) + freeL;
      capacity := top;
    }

    /** What the queue walk does with one page before it takes a block or parks it: a page is parked
        exactly when every block it will ever have is carved and with a client. */
    method Refresh() returns (serves: bool)
      requires Valid()
      modifies this, links
      ensures Valid() && serves == (freeL != [])
      ensures serves <==> old(freeL) != [] || old(localL) != [] || old(chainL) != [] || old(capacity) < reserved
      ensures !serves ==> used == capacity == reserved && forall b | 1 <= b <= reserved :: Client(b)
      ensures old(freeL) != [] ==> freeL == old(freeL) && freeIsZero == old(freeIsZero) && links[..] == old(links[..])
    {
      hide Spells, Reserved, Batch, Take;
      SpellsEmpty(links[..], free, freeL);
      if free == 0 {
        var stole := Collect();
        SpellsEmpty(links[..], free, freeL);
      }
      if free == 0 && capacity < reserved {
        TakesSome(capacity, reserved, slices);
        Extend();
        SpellsEmpty(links[..], free, freeL);
      }
      serves := free != 0;
    }

    /** `page_purge_free_slots`: words are left in free blocks only, `stamp` says which; a free list
        still known zero is not looked at, so no client's block and no zero promise is touched. */
    method PurgeFreeSlots(stamp: nat -> nat)
      requires Valid()
      modifies rest
      ensures Valid()
      ensures forall b: nat | b <= reserved ::
                rest[b] == if b in localL || (!freeIsZero && b in freeL) then stamp(b) else old(rest[b])
    {
      if !freeIsZero {
        StampList(links, rest, free, freeL, stamp);
      }
      StampList(links, rest, localFree, localL, stamp);
    }
  }

  /** Walk the stolen chain `w` and link its last block to the free list `s`. */
  method Append(links: array<nat>, head: nat, used: nat, free: nat,
                ghost w: seq<nat>, ghost s: seq<nat>, ghost other: nat, ghost t: seq<nat>)
    returns (n: nat)
    requires Spells(links[..], head, w) && Spells(links[..], free, s) && Spells(links[..], other, t)
    requires w != [] && |w| <= used && Distinct(w) && forall x | x in w :: x !in s && x !in t
    modifies links
    ensures n == |w| && Spells(links[..], head, w + s) && Spells(links[..], other, t)
    ensures forall b | 0 <= b < links.Length && b !in w :: links[b] == old(links[b])
  {
    var ok, tail, m := BoundedWalk(links, head, used);
    FollowSpells(links[..], head, w, m - 1);
    FollowSpells(links[..], head, w, m);
    n := m;
    ghost var was := links[..];
    SpellsJoin(was, w, s, free);
    links[tail] := free;
    assert links[..] == was[tail := free] && tail in w;
    assert forall k | 0 <= k < |t| :: t[k] in t;
    SpellsFrame(was, links[..], other, t);
  }

  /** Link the blocks above `low` up to `top` in front of the list `s`, from the back. */
  method LinkRun(links: array<nat>, low: nat, top: nat, free: nat, ghost s: seq<nat>) returns (head: nat)
    requires Spells(links[..], free, s) && low <= top < links.Length && Within(s, low)
    modifies links
    ensures Spells(links[..], head, Run(low + 1, top + 1) + s)
    ensures forall b | 0 <= b < links.Length && !(low < b <= top) :: links[b] == old(links[b])
  {
    hide Spells;
    var i := top;
    head := free;
    assert Run(top + 1, top + 1) + s == s;
    while i > low
      invariant low <= i <= top
      invariant forall b | 0 <= b < links.Length && !(i < b <= top) :: links[b] == old(links[b])
      invariant Spells(links[..], head, Run(i + 1, top + 1) + s)
    {
      ghost var l, more := links[..], Run(i + 1, top + 1) + s;
      RunHas(i + 1, top + 1);
      SpellsPush(l, head, more, i);
      assert [i] + more == Run(i, top + 1) + s;
      links[i] := head;
      assert links[..] == l[i := head];
      head := i;
      i := i - 1;
    }
  }

  method StampList(links: array<nat>, rest: array<nat>, head: nat, ghost s: seq<nat>, stamp: nat -> nat)
    requires Spells(links[..], head, s) && links != rest && links.Length == rest.Length
    modifies rest
    ensures forall b: nat | b < rest.Length :: rest[b] == if b in s then stamp(b) else old(rest[b])
  {
    var b := head;
    ghost var k := 0;
    while b != 0
      invariant 0 <= k <= |s| && b == Link(s, k)
      invariant forall c: nat | c < rest.Length :: rest[c] == if c in s[..k] then stamp(c) else old(rest[c])
      decreases |s| - k
    {
      assert LinkAt(links[..], s, k);
      assert s[..k + 1] == s[..k] + [s[k]];
      var next := links[b];
      rest[b] := stamp(b);
      b, k := next, k + 1;
    }
    assert k == |s|;
    assert s[..|s|] == s;
  }

  /** The block numbers `a..b`, in order. */
  function Run(a: nat, b: nat): (s: seq<nat>)
    decreases b - a
  {
    if a >= b then [] else [a] + Run(a + 1, b)
  }

  lemma {:induction false} RunHas(a: nat, b: nat)
    requires a <= b
    ensures |Run(a, b)| == b - a && Distinct(Run(a, b))
    ensures forall k | 0 <= k < b - a :: Run(a, b)[k] == a + k
    ensures forall x: nat :: x in Run(a, b) <==> a <= x < b
    decreases b - a
  {
    if a < b {
      RunHas(a + 1, b);
    }
  }
}
