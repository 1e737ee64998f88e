/** The multi-chunk claim of one arena, with other threads changing the bitmap between any two
    atomic operations, or, when `quiet`, leaving it alone. Set bits are chunks in use. */
module ChunkSearch {
  import opened Common
  import opened RunSearch

  function Or(a: Word, b: Word): (r: Word)
    requires |a| == |b| == WORD_BITS
  {
    seq(WORD_BITS, i requires 0 <= i < WORD_BITS => a[i] || b[i])
  }

  function AndNot(a: Word, b: Word): (r: Word)
    requires |a| == |b| == WORD_BITS
  {
    seq(WORD_BITS, i requires 0 <= i < WORD_BITS => a[i] && !b[i])
  }

  function And(a: Word, b: Word): (r: Word)
    requires |a| == |b| == WORD_BITS
  {
    seq(WORD_BITS, i requires 0 <= i < WORD_BITS => a[i] && b[i])
  }

  const ZERO: Word := seq(WORD_BITS, i => false)
  const ONES: Word := seq(WORD_BITS, i => true)

  /** The mask of `n` bits from `lo`: all ones shifted when `n` fills the word. */
  function Mask(lo: nat, n: nat): (r: Word)
    ensures |r| == WORD_BITS
  {
    seq(WORD_BITS, i => lo <= i && (n >= WORD_BITS || i - lo < n))
  }

  function Bit(i: nat): (r: Word)
    ensures |r| == WORD_BITS
  {
    seq(WORD_BITS, b => b == i)
  }

  /** `trailing_zeros` of a word that is not zero. */
  method FirstSet(word: Word) returns (i: nat)
    requires |word| == WORD_BITS && word != ZERO
    ensures i < WORD_BITS && word[i] && forall k | 0 <= k < i :: !word[k]
  {
    i := 0;
    while i < WORD_BITS && !word[i]
      invariant i <= WORD_BITS && forall k | 0 <= k < i :: !word[k]
    {
      i := i + 1;
    }
    assert i == WORD_BITS ==> word == ZERO;
  }

  class ChunkMap {
    const used: array<Word>
    const quiet: bool
    const others: (nat, nat) -> bool   // what other threads make of a bit, at each time
    var now: nat
    var mine: set<int>                 // bits this claim has set and not cleared: nobody else clears them

    ghost predicate Valid()
      reads this, used
    {
      Words(used[..]) && forall j | j in mine :: 0 <= j < used.Length * WORD_BITS && At(used[..], j)
    }

    /** The bits nobody else has set now or ever will. */
    ghost function Clear(): set<nat>
      requires Valid()
      reads this, used
    {
      set j: nat | j < used.Length * WORD_BITS && (At(used[..], j) ==> j in mine) && forall t: nat | t >= now :: !others(t, j)
    }

    constructor (words: seq<Word>, alone: bool, moves: (nat, nat) -> bool)
      requires Words(words)
      ensures Valid() && fresh(used) && used[..] == words && quiet == alone && mine == {}
    {
      used := new Word[|words|](i requires 0 <= i < |words| => words[i]);
      quiet, others, now, mine := alone, moves, 0, {};
    }

    /** Other threads move between two of our atomic operations. */
    method Interfere()
      requires Valid()
      modifies used, this`now
      ensures Valid() && (quiet ==> used[..] == old(used[..])) && old(Clear()) <= Clear()
    {
      if !quiet {
        var w := 0;
        while w < used.Length
          invariant 0 <= w <= used.Length && Valid() && now == old(now)
          invariant forall j: nat | j < used.Length * WORD_BITS ::
                      At(used[..], j) == if j / WORD_BITS < w then j in mine || others(now, j) else At(old(used[..]), j)
        {
          var m, t := mine, now;
          var word := seq(WORD_BITS, b requires 0 <= b < WORD_BITS => w * WORD_BITS + b in m || others(t, w * WORD_BITS + b));
          ghost var ws := used[..];
          forall j: nat | j in mine && j / WORD_BITS == w ensures word[j % WORD_BITS] {
            assert w * WORD_BITS + j % WORD_BITS == j;
          }
          used[w] := word;
          forall j: nat | j < used.Length * WORD_BITS && j / WORD_BITS == w ensures At(used[..], j) == (j in m || others(t, j)) {
            assert w * WORD_BITS + j % WORD_BITS == j;
          }
          w := w + 1;
        }
        ghost var t0 := now;
        now := now + 1;
        forall j | j in old(Clear()) ensures j in Clear() {
          assert !others(t0, j);
        }
      }
    }

    method Load(w: nat) returns (word: Word)
      requires Valid() && w < used.Length
      modifies used, this`now
      ensures Valid() && |word| == WORD_BITS && word == used[w] && (quiet ==> used[..] == old(used[..])) && old(Clear()) <= Clear()
    {
      Interfere();
      word := used[w];
    }

    /** `fetch_or`: this claim now holds the bits of the mask that were clear. */
    method FetchOr(w: nat, mask: Word) returns (prev: Word)
      requires Valid() && w < used.Length && |mask| == WORD_BITS
      modifies used, this`now, this`mine
      ensures Valid() && |prev| == WORD_BITS
      ensures mine == old(mine) + Held(w, mask, prev) && Held(w, mask, prev) !! old(mine)
      ensures quiet ==> prev == old(used[..])[w] && used[..] == old(used[..])[w := Or(prev, mask)]
      ensures old(Clear()) <= Clear()
      ensures forall b: nat | b < WORD_BITS && prev[b] :: w * WORD_BITS + b in old(Clear()) ==> w * WORD_BITS + b in old(mine)
    {
      Interfere();
      ghost var ws := used[..];
      prev := used[w];
      used[w] := Or(prev, mask);
      mine := mine + Held(w, mask, prev);
    }

    /** `fetch_and` of a complement: only bits this claim holds are ever cleared. */
    method FetchClear(w: nat, mask: Word)
      requires Valid() && w < used.Length && |mask| == WORD_BITS
      requires forall b | 0 <= b < WORD_BITS && mask[b] :: w * WORD_BITS + b in mine
      modifies used, this`now, this`mine
      ensures Valid() && mine == old(mine) - Held(w, mask, ZERO)
      ensures quiet ==> used[..] == old(used[..])[w := AndNot(old(used[..])[w], mask)]
      ensures old(Clear()) <= Clear()
    {
      Interfere();
      used[w] := AndNot(used[w], mask);
      mine := mine - Held(w, mask, ZERO);
    }

    /** A run inside one word: one `fetch_or`; on conflict, clear exactly what it set. */
    method ClaimWord(start: nat, n: nat) returns (conflict: Option<nat>)
      requires Valid() && 1 <= n && start + n <= used.Length * WORD_BITS && start / WORD_BITS == (start + n - 1) / WORD_BITS
      requires mine == {}
      modifies used, this`now, this`mine
      ensures Valid()
      ensures conflict.None? ==> mine == Range(start, start + n)
      ensures conflict.Some? ==> mine == {} && start <= conflict.value < start + n && conflict.value !in old(Clear())
      ensures old(Clear()) <= Clear()
      ensures quiet && Run(old(used[..]), false, start, n, start + n) ==>
                conflict.None? && Changed(old(used[..]), used[..], start, n, true)
    {
      var w, lo := start / WORD_BITS, start % WORD_BITS;
      var mask := Mask(lo, n);
      ghost var ws := used[..];
      var prev := FetchOr(w, mask);
      if quiet && Run(ws, false, start, n, start + n) {
        MaskSets(ws, start, n);
      }
      HeldMask(start, n, prev);
      var hit := And(prev, mask);
      if hit != ZERO {
        var i := FirstSet(hit);
        HeldClear(w, mask, prev);
        FetchClear(w, AndNot(mask, prev));
        conflict := Some(w * WORD_BITS + i);
      } else {
        conflict := None;
      }
    }

    /** `fetch_or` of one bit: taken, unless it was set. */
    method TakeBit(j: nat) returns (taken: bool)
      requires Valid() && j < used.Length * WORD_BITS && j !in mine
      modifies used, this`now, this`mine
      ensures Valid() && old(Clear()) <= Clear()
      ensures mine == old(mine) + if taken then {j as int} else {}
      ensures !taken ==> j !in old(Clear())
      ensures quiet ==> taken == !At(old(used[..]), j) && Changed(old(used[..]), used[..], j, 1, true)
    {
      hide Clear;
      assert j / WORD_BITS * WORD_BITS + j % WORD_BITS == j;
      ghost var ws := used[..];
      ChangedNone(ws, j);
      var prev := FetchOr(j / WORD_BITS, Bit(j % WORD_BITS));
      HeldBit(j, prev);
      taken := !prev[j % WORD_BITS];
      if quiet {
        SetOne(ws, j);
      }
    }

    /** The bits `start..end` are given back. */
    method GiveBack(start: nat, end: nat)
      requires Valid() && start <= end <= used.Length * WORD_BITS && mine == Range(start, end)
      modifies used, this`now, this`mine
      ensures Valid() && mine == {} && old(Clear()) <= Clear()
    {
      hide Clear;
      ghost var c := Clear();
      var k := start;
      while k < end
        invariant start <= k <= end && Valid() && mine == Range(k, end) && c <= Clear()
      {
        HeldBit(k, ZERO);
        FetchClear(k / WORD_BITS, Bit(k % WORD_BITS));
        k := k + 1;
      }
    }

    /** A run across words: bit by bit; on conflict, clear the bits set so far. */
    method ClaimBits(start: nat, n: nat) returns (conflict: Option<nat>)
      requires Valid() && 1 <= n && start + n <= used.Length * WORD_BITS && mine == {}
      modifies used, this`now, this`mine
      ensures Valid()
      ensures conflict.None? ==> mine == Range(start, start + n)
      ensures conflict.Some? ==> mine == {} && start <= conflict.value < start + n && conflict.value !in old(Clear())
      ensures old(Clear()) <= Clear()
      ensures quiet && Run(old(used[..]), false, start, n, start + n) ==>
                conflict.None? && Changed(old(used[..]), used[..], start, n, true)
    {
      hide Clear, Changed, Run;
      ghost var c, ws := Clear(), used[..];
      ChangedNone(ws, start);
      conflict := None;
      var j := start;
      while j < start + n && conflict.None?
        invariant start <= j <= start + n && Valid() && c <= Clear() && mine == Range(start, j)
        invariant conflict.Some? ==> conflict.value == j < start + n && j !in c
        invariant quiet && Run(ws, false, start, n, start + n) ==> conflict.None? && Changed(ws, used[..], start, j - start, true)
        decreases start + n - j, conflict.None?
      {
        ghost var mid := used[..];
        var taken := TakeBit(j);
        if quiet && Run(ws, false, start, n, start + n) {
          RunBit(ws, start, n, j);
          BitSets(ws, mid, used[..], start, j);
        }
        if taken {
          j := j + 1;
        } else {
          conflict := Some(j);
        }
      }
      if conflict.Some? {
        GiveBack(start, j);
      }
    }

    /** What the search may still rely on when nobody interferes. */
    ghost predicate Steady(ws: seq<Word>, chunks: nat, n: nat, idx: nat, run: nat, curW: int, usedW: Word)
      requires Words(ws) && chunks <= |ws| * WORD_BITS
      reads this, used
    {
      quiet ==>
        && used[..] == ws && Scanned(ws, false, n, chunks, idx, run)
        && (idx < chunks ==> if curW == idx / WORD_BITS then usedW == ws[curW] else idx % WORD_BITS == 0)
    }

    lemma ReadUnset(c: set<nat>, w: nat)
      requires Valid() && w < used.Length && mine == {} && c <= Clear()
      ensures Unset(c, w, used[w])
    {
      forall j: nat | j in c && j / WORD_BITS == w ensures !used[w][j % WORD_BITS] {
        assert j in Clear();
      }
    }

    /** `chunk_alloc_n_inner` on one arena: claims a run of `n` clear bits and holds exactly it, or
        holds nothing. Whatever the others do, no run they leave alone is passed by, and the search ends:
        each turn the candidate start grows, or it stays and the cursor advances, although a conflict
        moves the cursor back. */
    method Scan(chunks: nat, n: nat) returns (r: Option<nat>)
      requires Valid() && chunks <= used.Length * WORD_BITS && 1 <= n && mine == {}
      modifies used, this`now, this`mine
      ensures Valid()
      ensures r.Some? ==> r.value + n <= chunks && mine == Range(r.value, r.value + n)
      ensures r.None? ==> mine == {}
      ensures quiet && r.Some? ==> Lowest(old(used[..]), false, r.value, n, chunks)
                                   && Changed(old(used[..]), used[..], r.value, n, true)
      ensures quiet && r.None? ==> NoRun(old(used[..]), false, n, chunks) && used[..] == old(used[..])
      ensures forall s: nat :: s + n <= chunks && RunIn(old(Clear()), s, n) ==> r.Some? && r.value <= s
    {
      hide Lowest, NoRun, Changed, Range, Clear, Before, RunIn, Unset, Scanned;
      ghost var ws := used[..];
      ghost var c := Clear();
      r := None;
      var run, idx, curW, usedW := 0, 0, -1, ZERO;
      BeforeAll(c, n, chunks, 0);
      ScanStarts(ws, false, n, chunks);
      while idx < chunks && r.None?
        invariant Valid() && |usedW| == WORD_BITS && run < n && run <= idx
        invariant r.None? ==> mine == {} && Steady(ws, chunks, n, idx, run, curW, usedW)
        invariant r.Some? ==> r.value + n <= chunks && mine == Range(r.value, r.value + n)
        invariant quiet && r.Some? ==> Lowest(ws, false, r.value, n, chunks) && Changed(ws, used[..], r.value, n, true)
        invariant c <= Clear() && (r.None? ==> Before(c, n, chunks, idx - run)) && (r.Some? ==> Before(c, n, chunks, r.value))
        invariant r.None? && curW >= 0 ==> Unset(c, curW, usedW)
        decreases r.None?, chunks - (idx - run), chunks - idx
      {
        var w := idx / WORD_BITS;
        var loaded := w != curW;
        if loaded {
          curW := w;
          usedW := Load(w);
          ReadUnset(c, w);
        }
        if loaded && usedW == ONES {
          if quiet {
            ScanWord(ws, false, n, chunks, idx, run);
          }
          AllSet(c, w, usedW);
          BeforePast(c, n, chunks, idx - run, idx, (w + 1) * WORD_BITS);
          run, idx := 0, (w + 1) * WORD_BITS;
        } else {
          if quiet {
            ScanBit(ws, false, n, chunks, idx, run);
          }
          if usedW[idx % WORD_BITS] {
            UnsetAt(c, w, usedW, idx);
            BeforePast(c, n, chunks, idx - run, idx, idx + 1);
          }
          run := if usedW[idx % WORD_BITS] then 0 else run + 1;
          if run == n {
            var start := idx + 1 - n;
            if quiet {
              ScanFound(ws, false, n, chunks, idx + 1);
            }
            var conflict := ClaimRun(start, n);
            if conflict.None? {
              r, run := Some(start), 0;
            } else {
              BeforePast(c, n, chunks, start, conflict.value, conflict.value + 1);
              run, idx, curW := 0, conflict.value + 1, -1;
            }
          } else {
            idx := idx + 1;
          }
        }
      }
      if r.Some? {
        BeforeIs(c, n, chunks, r.value);
      } else {
        BeforeAll(c, n, chunks, idx - run);
      }
      if quiet && r.None? {
        ScanEnded(ws, false, n, chunks, idx, run);
      }
    }

    method ClaimRun(start: nat, n: nat) returns (conflict: Option<nat>)
      requires Valid() && 1 <= n && start + n <= used.Length * WORD_BITS && mine == {}
      modifies used, this`now, this`mine
      ensures Valid()
      ensures conflict.None? ==> mine == Range(start, start + n)
      ensures conflict.Some? ==> mine == {} && start <= conflict.value < start + n && conflict.value !in old(Clear())
      ensures old(Clear()) <= Clear()
      ensures quiet && Run(old(used[..]), false, start, n, start + n) ==>
                conflict.None? && Changed(old(used[..]), used[..], start, n, true)
    {
      if start / WORD_BITS == (start + n - 1) / WORD_BITS {
        conflict := ClaimWord(start, n);
      } else {
        conflict := ClaimBits(start, n);
      }
    }
  }

  /** No run of `n` bits of `c` starts below `start`. */
  ghost predicate Before(c: set<nat>, n: nat, chunks: nat, start: int) {
    forall s: nat :: s + n <= chunks && RunIn(c, s, n) ==> start <= s
  }

  ghost predicate RunIn(c: set<nat>, s: nat, n: nat) {
    forall j: nat | s <= j < s + n :: j in c
  }

  /** A candidate that meets bits outside `c` from `i` on gives way to what follows them. */
  lemma BeforePast(c: set<nat>, n: nat, chunks: nat, start: int, i: nat, e: nat)
    requires Before(c, n, chunks, start) && start <= i < start + n && i < e && forall j: nat | i <= j < e :: j !in c
    ensures Before(c, n, chunks, e)
  {
    forall s: nat | start <= s < e && s + n <= chunks ensures !RunIn(c, s, n) {
      var j := if s < i then i else s;
      assert s <= j < s + n && j !in c;
    }
  }

  lemma BeforeIs(c: set<nat>, n: nat, chunks: nat, start: int)
    requires Before(c, n, chunks, start)
    ensures forall s: nat | s + n <= chunks && RunIn(c, s, n) :: start <= s
  {
  }

  lemma BeforeAll(c: set<nat>, n: nat, chunks: nat, start: int)
    ensures start <= 0 ==> Before(c, n, chunks, start)
    ensures Before(c, n, chunks, start) && start + n > chunks ==> forall s: nat | s + n <= chunks :: !RunIn(c, s, n)
  {
  }

  /** Word `w` was read with no bit of `c` set. */
  ghost predicate Unset(c: set<nat>, w: int, word: Word) {
    |word| == WORD_BITS && forall j: nat | j in c && j / WORD_BITS == w :: !word[j % WORD_BITS]
  }

  lemma UnsetAt(c: set<nat>, w: int, word: Word, j: nat)
    requires Unset(c, w, word) && j / WORD_BITS == w && word[j % WORD_BITS]
    ensures j !in c
  {
  }

  lemma AllSet(c: set<nat>, w: nat, word: Word)
    requires Unset(c, w, word) && word == ONES
    ensures forall j: nat | w * WORD_BITS <= j < (w + 1) * WORD_BITS :: j !in c
  {
  }

  /** The bits of word `w` that are in the mask and were clear. */
  function Held(w: nat, mask: Word, prev: Word): (r: set<int>)
    requires |mask| == |prev| == WORD_BITS
    ensures forall j :: j in r <==> 0 <= j - w * WORD_BITS < WORD_BITS && mask[j - w * WORD_BITS] && !prev[j - w * WORD_BITS]
  {
    set b: int | 0 <= b < WORD_BITS && mask[b] && !prev[b] :: w * WORD_BITS + b
  }

  lemma HeldBit(j: nat, prev: Word)
    requires |prev| == WORD_BITS
    ensures Held(j / WORD_BITS, Bit(j % WORD_BITS), prev) == if prev[j % WORD_BITS] then {} else {j as int}
  {
    assert j == j / WORD_BITS * WORD_BITS + j % WORD_BITS;
  }

  /** A mask that met no set bit holds the whole run. */
  lemma HeldMask(start: nat, n: nat, prev: Word)
    requires |prev| == WORD_BITS && 1 <= n && start / WORD_BITS == (start + n - 1) / WORD_BITS
    ensures var w, mask := start / WORD_BITS, Mask(start % WORD_BITS, n);
            && (forall b | 0 <= b < WORD_BITS :: mask[b] <==> start <= w * WORD_BITS + b < start + n)
            && (And(prev, mask) == ZERO ==> Held(w, mask, prev) == Range(start, start + n))
  {
    var w, mask := start / WORD_BITS, Mask(start % WORD_BITS, n);
    if And(prev, mask) == ZERO {
      forall b | 0 <= b < WORD_BITS && mask[b] ensures !prev[b] {
        assert !And(prev, mask)[b];
      }
      forall j ensures j in Held(w, mask, prev) <==> j in Range(start, start + n) {
        assert start <= j < start + n ==> 0 <= j - w * WORD_BITS < WORD_BITS;
      }
    }
  }

  /** Clearing what the mask had newly set gives up exactly what was gained. */
  lemma HeldClear(w: nat, mask: Word, prev: Word)
    requires |mask| == |prev| == WORD_BITS
    ensures Held(w, AndNot(mask, prev), ZERO) == Held(w, mask, prev)
  {
  }

  lemma MaskSets(ws: seq<Word>, start: nat, n: nat)
    requires Words(ws) && 1 <= n && start + n <= |ws| * WORD_BITS && start / WORD_BITS == (start + n - 1) / WORD_BITS
    requires Run(ws, false, start, n, start + n)
    ensures var w, mask := start / WORD_BITS, Mask(start % WORD_BITS, n);
            And(ws[w], mask) == ZERO && Changed(ws, ws[w := Or(ws[w], mask)], start, n, true)
  {
    var w, mask := start / WORD_BITS, Mask(start % WORD_BITS, n);
    HeldMask(start, n, ws[w]);
    forall b | 0 <= b < WORD_BITS ensures And(ws[w], mask)[b] == false {
      assert mask[b] ==> !At(ws, w * WORD_BITS + b);
    }
    assert And(ws[w], mask) == ZERO;
    var now := ws[w := Or(ws[w], mask)];
    forall j: nat | j < |ws| * WORD_BITS ensures At(now, j) == if start <= j < start + n then true else At(ws, j) {
      if j / WORD_BITS == w {
        assert mask[j % WORD_BITS] <==> start <= w * WORD_BITS + j % WORD_BITS < start + n;
      }
    }
  }

  lemma ChangedNone(ws: seq<Word>, start: nat)
    requires Words(ws)
    ensures Changed(ws, ws, start, 0, true)
  {
  }

  lemma RunBit(ws: seq<Word>, start: nat, n: nat, j: nat)
    requires Words(ws) && start + n <= |ws| * WORD_BITS && Run(ws, false, start, n, start + n) && start <= j < start + n
    ensures !At(ws, j)
  {
  }

  /** One more bit of the run. */
  lemma BitSets(ws: seq<Word>, mid: seq<Word>, now: seq<Word>, start: nat, j: nat)
    requires Words(ws) && Words(mid) && Words(now) && |now| == |mid| == |ws| && start <= j < |ws| * WORD_BITS
    requires Changed(ws, mid, start, j - start, true) && Changed(mid, now, j, 1, true) && !At(ws, j)
    ensures !At(mid, j) && Changed(ws, now, start, j + 1 - start, true)
  {
  }

  lemma SetOne(ws: seq<Word>, j: nat)
    requires Words(ws) && j < |ws| * WORD_BITS
    ensures Changed(ws, ws[j / WORD_BITS := Or(ws[j / WORD_BITS], Bit(j % WORD_BITS))], j, 1, true)
  {
    var now := ws[j / WORD_BITS := Or(ws[j / WORD_BITS], Bit(j % WORD_BITS))];
    forall i: nat | i < |ws| * WORD_BITS ensures At(now, i) == if i == j then true else At(ws, i) {
      assert i / WORD_BITS == j / WORD_BITS && i % WORD_BITS == j % WORD_BITS ==> i == j;
    }
  }
}
