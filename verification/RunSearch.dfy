/** Searching a bitmap of 32-bit words for a run of clear (or set) bits, against the naive scan. */
module RunSearch {
  import opened Common

  const WORD_BITS: nat := 32

  type Word = seq<bool>

  ghost predicate Words(ws: seq<Word>) {
    forall w | 0 <= w < |ws| :: |ws[w]| == WORD_BITS
  }

  /** Bit `j` of the map. */
  function At(ws: seq<Word>, j: nat): bool
    requires j < |ws| * WORD_BITS && (forall w | 0 <= w < |ws| :: |ws[w]| == WORD_BITS)
  {
    ws[j / WORD_BITS][j % WORD_BITS]
  }

  /** The run the naive scan looks for: `n` bits from `s`, all equal to `v`, below `limit`. */
  ghost predicate Run(ws: seq<Word>, v: bool, s: nat, n: nat, limit: nat)
    requires Words(ws) && limit <= |ws| * WORD_BITS
  {
    s + n <= limit && forall j | s <= j < s + n :: At(ws, j) == v
  }

  /** `s` is where the lowest such run starts. */
  ghost predicate Lowest(ws: seq<Word>, v: bool, s: nat, n: nat, limit: nat)
    requires Words(ws) && limit <= |ws| * WORD_BITS
  {
    Run(ws, v, s, n, limit) && forall r: nat | r < s :: !Run(ws, v, r, n, limit)
  }

  ghost predicate NoRun(ws: seq<Word>, v: bool, n: nat, limit: nat)
    requires Words(ws) && limit <= |ws| * WORD_BITS
  {
    forall r: nat :: !Run(ws, v, r, n, limit)
  }

  /** Exactly the bits `s..s+n` became `v`. */
  ghost predicate Changed(ws: seq<Word>, now: seq<Word>, s: nat, n: nat, v: bool)
    requires Words(ws) && Words(now) && |now| == |ws|
  {
    forall j: nat | j < |ws| * WORD_BITS :: At(now, j) == if s <= j < s + n then v else At(ws, j)
  }

  /** A bit of the wrong value at `j` rules out every run that would cover it. */
  lemma Blocked(ws: seq<Word>, v: bool, s: nat, n: nat, limit: nat, j: nat)
    requires Words(ws) && limit <= |ws| * WORD_BITS && s <= j < s + n && j < limit && At(ws, j) != v
    ensures !Run(ws, v, s, n, limit)
  {
  }

  /** What the scan knows: no run starts below `idx - run`, and the last `run` bits are `v`. */
  ghost predicate Scanned(ws: seq<Word>, v: bool, n: nat, limit: nat, idx: nat, run: nat)
    requires Words(ws) && limit <= |ws| * WORD_BITS
  {
    && run <= idx
    && (forall r: nat | r < idx - run :: !Run(ws, v, r, n, limit))
    && (forall j: nat | idx - run <= j < idx && j < limit :: At(ws, j) == v)
  }

  lemma ScanStarts(ws: seq<Word>, v: bool, n: nat, limit: nat)
    requires Words(ws) && limit <= |ws| * WORD_BITS
    ensures Scanned(ws, v, n, limit, 0, 0)
  {
  }

  lemma ScanBit(ws: seq<Word>, v: bool, n: nat, limit: nat, idx: nat, run: nat)
    requires Words(ws) && limit <= |ws| * WORD_BITS && Scanned(ws, v, n, limit, idx, run)
    requires idx < limit && run < n
    ensures Scanned(ws, v, n, limit, idx + 1, if At(ws, idx) == v then run + 1 else 0)
  {
    if At(ws, idx) != v {
      forall r: nat | r < idx + 1 ensures !Run(ws, v, r, n, limit) {
        if r >= idx - run {
          Blocked(ws, v, r, n, limit, idx);
        }
      }
    }
  }

  /** A whole word of the wrong value can be skipped. */
  lemma ScanWord(ws: seq<Word>, v: bool, n: nat, limit: nat, idx: nat, run: nat)
    requires Words(ws) && limit <= |ws| * WORD_BITS && Scanned(ws, v, n, limit, idx, run)
    requires idx < limit && run < n && idx % WORD_BITS == 0
    requires forall b | 0 <= b < WORD_BITS :: ws[idx / WORD_BITS][b] != v
    ensures Scanned(ws, v, n, limit, idx + WORD_BITS, 0)
  {
    forall r: nat | r < idx + WORD_BITS ensures !Run(ws, v, r, n, limit) {
      if r >= idx - run {
        var j := if r < idx then idx else r;
        assert j / WORD_BITS == idx / WORD_BITS;
        if j < limit {
          Blocked(ws, v, r, n, limit, j);
        }
      }
    }
  }

  lemma ScanFound(ws: seq<Word>, v: bool, n: nat, limit: nat, idx: nat)
    requires Words(ws) && limit <= |ws| * WORD_BITS && Scanned(ws, v, n, limit, idx, n) && idx <= limit
    ensures idx >= n && Lowest(ws, v, idx - n, n, limit)
  {
  }

  lemma ScanEnded(ws: seq<Word>, v: bool, n: nat, limit: nat, idx: nat, run: nat)
    requires Words(ws) && limit <= |ws| * WORD_BITS && Scanned(ws, v, n, limit, idx, run)
    requires limit <= idx && run < n
    ensures NoRun(ws, v, n, limit)
  {
  }
}
