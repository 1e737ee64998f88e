/** The free-slice pool: a bitmap over the address space, set bits free. */
module SlicePools {
  import opened Common
  import opened RunSearch

  const SLOTS: nat := 65536
  const WORDS: nat := SLOTS / WORD_BITS

  class SlicePool {
    const free: array<Word>

    ghost predicate Valid()
      reads this, free
    {
      free.Length == WORDS && Words(free[..])
    }

    constructor ()
      ensures Valid() && fresh(free) && forall j: nat | j < SLOTS :: !At(free[..], j)
    {
      free := new Word[WORDS](i => seq(WORD_BITS, b => false));
    }

    method SetBit(j: nat, v: bool)
      requires Valid() && j < SLOTS
      modifies free
      ensures Valid() && Changed(old(free[..]), free[..], j, 1, v)
    {
      ghost var ws := free[..];
      free[j / WORD_BITS] := free[j / WORD_BITS][j % WORD_BITS := v];
      forall i: nat | i < SLOTS ensures At(free[..], i) == if i == j then v else At(ws, i) {
        assert i / WORD_BITS == j / WORD_BITS && i % WORD_BITS == j % WORD_BITS ==> i == j;
      }
    }

    /** `free_range`: refused, and nothing changed, unless whole slices above the first, in the map. */
    method FreeRange(base: nat, size: nat) returns (ok: bool)
      requires Valid()
      modifies free
      ensures Valid()
      ensures ok <==> base >= SLICE_SIZE && size > 0 && base % SLICE_SIZE == 0 && size % SLICE_SIZE == 0 && base + size <= SLOTS * SLICE_SIZE
      ensures if ok then Changed(old(free[..]), free[..], base / SLICE_SIZE, size / SLICE_SIZE, true) else free[..] == old(free[..])
    {
      ok := base >= SLICE_SIZE && size != 0 && base % SLICE_SIZE == 0 && size % SLICE_SIZE == 0
            && base / SLICE_SIZE + size / SLICE_SIZE <= SLOTS;
      if ok {
        ghost var ws := free[..];
        var start, end := base / SLICE_SIZE, base / SLICE_SIZE + size / SLICE_SIZE;
        var idx := start;
        while idx < end
          invariant start <= idx <= end && Valid()
          invariant Changed(ws, free[..], start, idx - start, true)
        {
          SetBit(idx, true);
          idx := idx + 1;
        }
      }
    }

    /** `alloc_run`: first fit, with empty words skipped. */
    method AllocRun(slices: nat) returns (base: Option<nat>)
      requires Valid()
      modifies free
      ensures Valid()
      ensures base.None? ==> free[..] == old(free[..]) && (slices == 0 || NoRun(old(free[..]), true, slices, SLOTS))
      ensures base.Some? ==> slices > 0 && base.value % SLICE_SIZE == 0
                             && Lowest(old(free[..]), true, base.value / SLICE_SIZE, slices, SLOTS)
                             && Changed(old(free[..]), free[..], base.value / SLICE_SIZE, slices, false)
    {
      if slices == 0 || slices > SLOTS {
        return None;
      }
      ghost var ws := free[..];
      var run, idx := 0, 0;
      while idx < SLOTS && run < slices
        invariant Valid() && free[..] == ws && run <= slices && idx <= SLOTS
        invariant Scanned(ws, true, slices, SLOTS, idx, run)
        decreases SLOTS - idx
      {
        var word := free[idx / WORD_BITS];
        if idx % WORD_BITS == 0 && word == seq(WORD_BITS, b => false) {
          ScanWord(ws, true, slices, SLOTS, idx, run);
          run, idx := 0, idx + WORD_BITS;
        } else {
          ScanBit(ws, true, slices, SLOTS, idx, run);
          run, idx := if word[idx % WORD_BITS] then run + 1 else 0, idx + 1;
        }
      }
      if run < slices {
        ScanEnded(ws, true, slices, SLOTS, idx, run);
        return None;
      }
      ScanFound(ws, true, slices, SLOTS, idx);
      var start := idx - slices;
      var j := start;
      while j < idx
        invariant start <= j <= idx && Valid()
        invariant Changed(ws, free[..], start, j - start, false)
      {
        SetBit(j, false);
        j := j + 1;
      }
      return Some(start * SLICE_SIZE);
    }
  }

  /** What is given back can be handed out again: a request no longer than it then succeeds. */
  method GivenBackServes(pool: SlicePool, base: nat, size: nat) returns (again: Option<nat>)
    requires pool.Valid()
    requires base >= SLICE_SIZE && size > 0 && base % SLICE_SIZE == 0 && size % SLICE_SIZE == 0 && base + size <= SLOTS * SLICE_SIZE
    modifies pool.free
    ensures pool.Valid() && again.Some? && again.value <= base
  {
    ghost var ws := pool.free[..];
    var ok := pool.FreeRange(base, size);
    FreedRunServes(ws, pool.free[..], base / SLICE_SIZE, size / SLICE_SIZE);
    again := pool.AllocRun(size / SLICE_SIZE);
  }

  lemma FreedRunServes(ws: seq<Word>, now: seq<Word>, s: nat, n: nat)
    requires Words(ws) && Words(now) && |ws| == |now| == WORDS && s + n <= SLOTS
    requires Changed(ws, now, s, n, true)
    ensures Run(now, true, s, n, SLOTS) && !NoRun(now, true, n, SLOTS)
  {
    assert Run(now, true, s, n, SLOTS);
  }
}
