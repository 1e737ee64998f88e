/** Blocks, the intrusive lists that hold them, and the memory words that link them.

    `next` and `head` are the program's memory: the first word of every block and
    the head word of every list. `lists`, `home` and `place` are the record of what
    those words are meant to say. `StoreInv` states that they agree: following
    `next` from `head(l)` visits exactly `lists(l)`, and no block is on two lists. */
module BlockStore {

  /** A block's address; 0 is the null pointer. */
  type Block = int

  /** A page slot: the segment it lies in and its index there. */
  datatype Page = Slot(seg: int, idx: int)

  /** Every list head word in the allocator that a block can hang from. `Cache` is the
      one block of a large span kept by its heap: it is reached through the page, not a link. */
  datatype ListId =
    | Free(p: Page) | Local(p: Page) | Chain(p: Page) | Cache(p: Page)
    | Delayed(h: int) | Batch(h: int)

  /** Where a carved block is: on a list, carried by the freeing thread `t`, or with a client. */
  datatype Place = On(l: ListId) | Flight(t: int) | Client

  datatype Store = Store(
    next: Block -> Block,
    head: ListId -> Block,
    lists: ListId -> seq<Block>,
    carved: set<Block>,
    home: Block -> Page,
    place: Block -> Place)

  function Put<K(==), V>(f: K -> V, k: K, v: V): K -> V {
    j => if j == k then v else f(j)
  }

  predicate OfPage(l: ListId) {
    !l.Delayed? && !l.Batch?
  }

  function First(s: seq<Block>): Block {
    if s == [] then 0 else s[0]
  }

  function After(s: seq<Block>, i: nat): Block
    requires i < |s|
  {
    if i + 1 < |s| then s[i + 1] else 0
  }

  /** The memory words of list `l` spell out exactly the sequence `m.lists(l)`. */
  ghost predicate ListOk(m: Store, l: ListId) {
    var s := m.lists(l);
    && m.head(l) == First(s)
    && (forall i | 0 <= i < |s| :: s[i] in m.carved && m.place(s[i]) == On(l))
    && (forall i, j | 0 <= i < j < |s| :: s[i] != s[j])
    && (!l.Cache? ==> forall i | 0 <= i < |s| :: m.next(s[i]) == After(s, i))
    && (l.Cache? ==> |s| <= 1)
    && (OfPage(l) ==> forall i | 0 <= i < |s| :: m.home(s[i]) == l.p)
  }

  ghost predicate StoreInv(m: Store) {
    && 0 !in m.carved
    && (forall l :: ListOk(m, l))
    && (forall b | b in m.carved && m.place(b).On? :: b in m.lists(m.place(b).l))
  }

  /** A block its page counts as not in use: on `free`, on `local_free`, or cached. */
  predicate Resting(pl: Place) {
    pl.On? && (pl.l.Free? || pl.l.Local? || pl.l.Cache?)
  }

  /** The blocks of `p` that `Page::used` counts. */
  ghost function UsedSet(m: Store, p: Page): set<Block> {
    set b | b in m.carved && m.home(b) == p && !Resting(m.place(b))
  }

  // ------------------------------------------------------------------ moves

  /** Link `b` in front of list `l`. */
  function Push(m: Store, l: ListId, b: Block): Store {
    PushOnto(m, l, b, m.head(l))
  }

  /** Make `b` the head of list `l`, with the link `x` that was written into it before. */
  function PushOnto(m: Store, l: ListId, b: Block, x: Block): Store {
    m.(next := Put(m.next, b, x),
       head := Put(m.head, l, b),
       lists := Put(m.lists, l, [b] + m.lists(l)),
       place := Put(m.place, b, On(l)))
  }

  /** Unlink the head of list `l`, reading the new head from the block's own word. */
  function Pop(m: Store, l: ListId, pl: Place): Store {
    var b := m.head(l);
    m.(head := Put(m.head, l, m.next(b)),
       lists := Put(m.lists, l, if m.lists(l) == [] then [] else m.lists(l)[1..]),
       place := Put(m.place, b, pl))
  }

  /** Swap the whole of list `from` onto the empty list `onto`. */
  function Steal(m: Store, from: ListId, onto: ListId): Store {
    m.(head := Put(Put(m.head, onto, m.head(from)), from, 0),
       lists := Put(Put(m.lists, onto, m.lists(from)), from, []),
       place := b => if m.place(b) == On(from) then On(onto) else m.place(b))
  }

  /** The links followed from `b`, at most `bound` of them: the walk of `page_collect`. */
  function Walk(next: Block -> Block, b: Block, bound: nat): (w: seq<Block>)
    ensures |w| <= bound
    decreases bound
  {
    if b == 0 || bound == 0 then [] else [b] + Walk(next, next(b), bound - 1)
  }

  /** Append the stolen chain `w` (as walked) in front of the page's free list. */
  function Splice(m: Store, p: Page, w: seq<Block>): Store
    requires w != []
  {
    var m1 := m.(next := Put(m.next, w[|w| - 1], m.head(Free(p))));
    m1.(head := Put(Put(m.head, Free(p), w[0]), Chain(p), 0),
        lists := Put(Put(m.lists, Free(p), m.lists(Chain(p)) + m.lists(Free(p))), Chain(p), []),
        place := b => if m.place(b) == On(Chain(p)) then On(Free(p)) else m.place(b))
  }

  /** Move a block that is on no list. */
  function Move(m: Store, b: Block, pl: Place): Store {
    m.(place := Put(m.place, b, pl))
  }

  /** Whoever holds a block that is on no list may store anything in it. */
  function Scribble(m: Store, b: Block, v: Block): Store {
    m.(next := Put(m.next, b, v))
  }

  /** Carve a new block of `p`, at first in nobody's list. */
  function Carve(m: Store, p: Page, b: Block): Store {
    m.(carved := m.carved + {b}, home := Put(m.home, b, p), place := Put(m.place, b, Client))
  }

  /** Remember `b` as the cached block of its large page: no link is written. */
  function Keep(m: Store, p: Page, b: Block): Store {
    m.(head := Put(m.head, Cache(p), b),
       lists := Put(m.lists, Cache(p), [b]),
       place := Put(m.place, b, On(Cache(p))))
  }

  /** Take the cached block back out. */
  function Unkeep(m: Store, p: Page): Store {
    m.(head := Put(m.head, Cache(p), 0),
       lists := Put(m.lists, Cache(p), []),
       place := Put(m.place, m.head(Cache(p)), Client))
  }

  /** Forget every block of `p`: its span goes back to the segment. */
  function Drop(m: Store, p: Page): Store {
    m.(carved := (set b | b in m.carved && m.home(b) != p),
       head := l => if OfPage(l) && l.p == p then 0 else m.head(l),
       lists := l => if OfPage(l) && l.p == p then [] else m.lists(l))
  }

  // ---------------------------------------------- every move keeps StoreInv

  lemma OffList(m: Store, b: Block, l: ListId)
    requires StoreInv(m) && !m.place(b).On?
    ensures b !in m.lists(l)
  {
    assert ListOk(m, l);
  }

  lemma PushKeeps(m: Store, l: ListId, b: Block)
    requires StoreInv(m) && b in m.carved && !m.place(b).On? && !l.Cache?
    requires OfPage(l) ==> m.home(b) == l.p
    ensures StoreInv(Push(m, l, b))
  {
    var n := Push(m, l, b);
    forall k ensures ListOk(n, k) {
      assert ListOk(m, k);
      OffList(m, b, k);
    }
    forall c | c in n.carved && n.place(c).On? ensures c in n.lists(n.place(c).l) {
      if c != b {
        assert c in m.lists(m.place(c).l);
      }
    }
  }

  lemma PopKeeps(m: Store, l: ListId, pl: Place)
    requires StoreInv(m) && !l.Cache? && m.head(l) != 0 && !pl.On?
    ensures StoreInv(Pop(m, l, pl))
    ensures m.lists(l) != [] && m.lists(l)[0] == m.head(l)
  {
    var n := Pop(m, l, pl);
    var b := m.head(l);
    assert ListOk(m, l);
    var s := m.lists(l);
    forall k ensures ListOk(n, k) {
      assert ListOk(m, k);
      if k == l {
        assert n.lists(k) == s[1..];
        forall i | 0 <= i < |n.lists(k)| ensures n.next(n.lists(k)[i]) == After(n.lists(k), i) {
          assert m.next(s[i + 1]) == After(s, i + 1);
        }
      }
    }
    forall c | c in n.carved && n.place(c).On? ensures c in n.lists(n.place(c).l) {
      assert c in m.lists(m.place(c).l);
    }
  }

  lemma StealKeeps(m: Store, from: ListId, onto: ListId)
    requires StoreInv(m) && from != onto && m.head(onto) == 0
    requires !from.Cache? && !onto.Cache?
    requires OfPage(onto) ==> OfPage(from) && from.p == onto.p
    ensures StoreInv(Steal(m, from, onto))
  {
    var n := Steal(m, from, onto);
    assert ListOk(m, onto) && ListOk(m, from);
    assert m.lists(onto) == [];
    forall k ensures ListOk(n, k) {
      assert ListOk(m, k);
    }
    forall c | c in n.carved && n.place(c).On? ensures c in n.lists(n.place(c).l) {
      assert c in m.lists(m.place(c).l);
    }
  }

  /** Following the links of a properly linked sequence visits that sequence, cut off at the bound. */
  lemma {:induction false} WalkSpells(next: Block -> Block, s: seq<Block>, bound: nat)
    requires forall i | 0 <= i < |s| :: s[i] != 0 && next(s[i]) == After(s, i)
    ensures Walk(next, First(s), bound) == if |s| <= bound then s else s[..bound]
    decreases bound
  {
    if s != [] && bound > 0 {
      var t := s[1..];
      assert next(s[0]) == After(s, 0) == First(t);
      forall i | 0 <= i < |t| ensures t[i] != 0 && next(t[i]) == After(t, i) {
        assert next(s[i + 1]) == After(s, i + 1);
      }
      WalkSpells(next, t, bound - 1);
      assert s == [s[0]] + t;
    }
  }

  /** The walk over memory from a list's head word visits exactly the recorded list. */
  lemma WalkIsList(m: Store, l: ListId, bound: nat)
    requires StoreInv(m) && !l.Cache?
    ensures Walk(m.next, m.head(l), bound) == if |m.lists(l)| <= bound then m.lists(l) else m.lists(l)[..bound]
  {
    assert ListOk(m, l);
    WalkSpells(m.next, m.lists(l), bound);
  }

  lemma SplicedLinks(m: Store, p: Page, i: nat)
    requires ListOk(m, Chain(p)) && ListOk(m, Free(p)) && m.lists(Chain(p)) != []
    requires i < |m.lists(Chain(p)) + m.lists(Free(p))|
    ensures var s := m.lists(Chain(p)) + m.lists(Free(p));
            Splice(m, p, m.lists(Chain(p))).next(s[i]) == After(s, i)
  {
    var w, f := m.lists(Chain(p)), m.lists(Free(p));
    if i < |w| {
      assert m.next(w[i]) == After(w, i);
    } else {
      assert m.place(f[i - |w|]) == On(Free(p)) && m.place(w[|w| - 1]) == On(Chain(p));
      assert m.next(f[i - |w|]) == After(f, i - |w|);
    }
  }

  /** The joined list. */
  lemma SpliceJoined(m: Store, p: Page)
    requires ListOk(m, Chain(p)) && ListOk(m, Free(p)) && m.lists(Chain(p)) != []
    ensures ListOk(Splice(m, p, m.lists(Chain(p))), Free(p))
  {
    var w, f := m.lists(Chain(p)), m.lists(Free(p));
    var n, s := Splice(m, p, w), w + f;
    assert n.lists(Free(p)) == s;
    forall i | 0 <= i < |s| ensures n.next(s[i]) == After(s, i) {
      SplicedLinks(m, p, i);
    }
    forall i | 0 <= i < |s| ensures s[i] in n.carved && n.place(s[i]) == On(Free(p)) && n.home(s[i]) == p {
      assert s[i] == if i < |w| then w[i] else f[i - |w|];
    }
    forall i, j | 0 <= i < j < |s| ensures s[i] != s[j] {
      assert i < |w| <= j ==> m.place(w[i]) != m.place(f[j - |w|]);
    }
  }

  /** Every other list. */
  lemma SpliceOthers(m: Store, p: Page, k: ListId)
    requires ListOk(m, Chain(p)) && ListOk(m, k) && m.lists(Chain(p)) != [] && k != Free(p)
    ensures ListOk(Splice(m, p, m.lists(Chain(p))), k)
  {
    var w := m.lists(Chain(p));
    assert m.place(w[|w| - 1]) == On(Chain(p));
  }

  lemma SpliceKeepsList(m: Store, p: Page, k: ListId)
    requires StoreInv(m) && m.lists(Chain(p)) != []
    ensures ListOk(Splice(m, p, m.lists(Chain(p))), k)
  {
    assert ListOk(m, Chain(p)) && ListOk(m, Free(p)) && ListOk(m, k);
    hide StoreInv, ListOk, Splice;
    if k == Free(p) {
      SpliceJoined(m, p);
    } else {
      SpliceOthers(m, p, k);
    }
  }

  lemma SpliceKeeps(m: Store, p: Page)
    requires StoreInv(m) && m.lists(Chain(p)) != []
    ensures StoreInv(Splice(m, p, m.lists(Chain(p))))
  {
    var n := Splice(m, p, m.lists(Chain(p)));
    forall k ensures ListOk(n, k) {
      SpliceKeepsList(m, p, k);
    }
    forall c | c in n.carved && n.place(c).On? ensures c in n.lists(n.place(c).l) {
      assert c in m.lists(m.place(c).l);
    }
  }

  lemma MoveKeeps(m: Store, b: Block, pl: Place)
    requires StoreInv(m) && !m.place(b).On? && !pl.On?
    ensures StoreInv(Move(m, b, pl))
  {
    forall k ensures ListOk(Move(m, b, pl), k) {
      assert ListOk(m, k);
    }
  }

  lemma ScribbleKeeps(m: Store, b: Block, v: Block)
    requires StoreInv(m) && !m.place(b).On?
    ensures StoreInv(Scribble(m, b, v))
  {
    forall k ensures ListOk(Scribble(m, b, v), k) {
      assert ListOk(m, k);
      OffList(m, b, k);
    }
  }

  lemma CarveKeeps(m: Store, p: Page, b: Block)
    requires StoreInv(m) && b !in m.carved && b != 0
    ensures StoreInv(Carve(m, p, b))
  {
    forall k ensures ListOk(Carve(m, p, b), k) {
      assert ListOk(m, k);
    }
  }

  lemma KeepKeeps(m: Store, p: Page, b: Block)
    requires StoreInv(m) && b in m.carved && !m.place(b).On? && m.home(b) == p
    requires m.lists(Cache(p)) == []
    ensures StoreInv(Keep(m, p, b))
  {
    var n := Keep(m, p, b);
    forall k ensures ListOk(n, k) {
      assert ListOk(m, k);
      OffList(m, b, k);
    }
    forall c | c in n.carved && n.place(c).On? ensures c in n.lists(n.place(c).l) {
      if c != b {
        assert c in m.lists(m.place(c).l);
      }
    }
  }

  lemma UnkeepKeeps(m: Store, p: Page, b: Block)
    requires StoreInv(m) && m.lists(Cache(p)) == [b]
    ensures StoreInv(Unkeep(m, p))
    ensures m.head(Cache(p)) == b && b in m.carved && m.place(b) == On(Cache(p)) && m.home(b) == p
  {
    var n := Unkeep(m, p);
    assert ListOk(m, Cache(p));
    assert m.lists(Cache(p))[0] == b;
    forall k ensures ListOk(n, k) {
      assert ListOk(m, k);
    }
    forall c | c in n.carved && n.place(c).On? ensures c in n.lists(n.place(c).l) {
      assert c in m.lists(m.place(c).l);
    }
  }

  lemma DropKeeps(m: Store, p: Page)
    requires StoreInv(m) && UsedSet(m, p) == {}
    ensures StoreInv(Drop(m, p))
  {
    var n := Drop(m, p);
    forall k ensures ListOk(n, k) {
      assert ListOk(m, k);
      if !(OfPage(k) && k.p == p) {
        forall b | b in m.lists(k) ensures m.home(b) != p {
          assert b !in UsedSet(m, p);
        }
      }
    }
    forall c | c in n.carved && n.place(c).On? ensures c in n.lists(n.place(c).l) {
      var l := m.place(c).l;
      assert c in m.lists(l);
      assert ListOk(m, l);
    }
  }
}
