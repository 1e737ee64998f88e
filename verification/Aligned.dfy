/** Aligned allocation: every way of placing a block satisfies the request, and free finds the
    block again. Addresses are 64-bit words. */
module Aligned {
  import opened Common
  import opened Bits
  import opened Bins
  import opened Division

  const SEGMENT_SIZE: nat := 0x200_0000
  const LARGE_OBJ_SIZE_MAX: nat := 511 * SLICE_SIZE
  const MEDIUM_PAGE_BYTES: nat := 8 * SLICE_SIZE

  // ------------------------------------------------------------- the primitives

  function IsPowerOfTwo(a: nat): bool {
    a != 0 && And(a, a - 1) == 0
  }

  /** `is_aligned_to`: two masks; the subtraction wraps for 0, which is refused anyway. */
  function IsAlignedTo(x: nat, align: nat): bool {
    var m := (align + WORD - 1) % WORD;
    align != 0 && And(align, m) == 0 && And(x, m) == 0
  }

  /** `aligned_at_from`: the first address at or above `base` whose sum with `offset` is aligned. */
  function AlignedAtFrom(base: nat, offset: nat, align: nat): Option<nat>
    requires 0 < align < WORD
  {
    if base + offset >= WORD || base + offset + (align - 1) >= WORD then None
    else
      var rounded := And(base + offset + (align - 1), WORD - 1 - (align - 1));
      if rounded < offset then None else Some(rounded - offset)
  }

  lemma AlignedIsMultiple(x: nat, align: nat)
    requires x < WORD && align < WORD
    ensures IsAlignedTo(x, align) <==> align > 0 && IsPow2(align) && x % align == 0
  {
    if align > 0 {
      DivModIs(align + WORD - 1, WORD, 1, align - 1);
      AndPred(align);
      if IsPow2(align) {
        var k: nat :| align == Pow2(k);
        AndMask(x, k);
      }
    }
  }

  lemma PowerTest(a: nat)
    ensures IsPowerOfTwo(a) <==> IsPow2(a)
  {
    if a > 0 {
      AndPred(a);
    }
  }

  lemma RoundUp(s: nat, a: nat)
    requires a > 0
    ensures var r := (s + a - 1) - (s + a - 1) % a; s <= r < s + a && r % a == 0
  {
    var x := s + a - 1;
    assert x == (x / a) * a + x % a;
    DivModIs((x / a) * a, a, x / a, 0);
  }

  lemma RoundsTo(base: nat, offset: nat, align: nat, k: nat)
    requires align == Pow2(k) < WORD && base + offset + align - 1 < WORD
    ensures var x := base + offset + align - 1;
            AlignedAtFrom(base, offset, align) == if x - x % align < offset then None else Some(x - x % align - offset)
  {
    RoundDown(base + offset + align - 1, k);
    hide Pow2, And;
  }

  /** It answers exactly when the sums fit a word. */
  lemma FirstAligned(base: nat, offset: nat, align: nat)
    requires align < WORD && IsPow2(align) && align > 0
    ensures AlignedAtFrom(base, offset, align).None? <==> base + offset + align - 1 >= WORD
    ensures AlignedAtFrom(base, offset, align).Some? ==>
              var p := AlignedAtFrom(base, offset, align).value;
              base <= p < base + align && (p + offset) % align == 0
  {
    var k: nat :| align == Pow2(k);
    if base + offset + align - 1 < WORD {
      RoundsTo(base, offset, align, k);
      hide Pow2, IsPow2, AlignedAtFrom;
      RoundUp(base + offset, align);
    }
  }

  /** And then no lower address would do. */
  lemma LeastAligned(base: nat, offset: nat, align: nat, q: nat)
    requires align < WORD && IsPow2(align) && align > 0 && AlignedAtFrom(base, offset, align).Some?
    requires base <= q && (q + offset) % align == 0
    ensures AlignedAtFrom(base, offset, align).value <= q
  {
    FirstAligned(base, offset, align);
    var p := AlignedAtFrom(base, offset, align).value;
    if q < p {
      MultiplesApart(q + offset, p + offset, align);
    }
  }

  lemma MultiplesApart(x: nat, y: nat, a: nat)
    requires a > 0 && x % a == 0 && y % a == 0 && x < y
    ensures x + a <= y
  {
    var e := y / a - x / a;
    assert x == (x / a) * a && y == (y / a) * a;
    assert e * a == y - x;
    MulAtLeast(e, a);
  }

  lemma MultipleSum(x: nat, y: nat, a: nat)
    requires a > 0 && x % a == 0 && y % a == 0
    ensures (x + y) % a == 0
  {
    assert x + y == (x / a) * a + (y / a) * a == (x / a + y / a) * a;
    DivModIs(x + y, a, x / a + y / a, 0);
  }

  lemma MultipleTimes(x: nat, i: nat, a: nat)
    requires a > 0 && x % a == 0
    ensures (i * x) % a == 0
  {
    assert i * x == i * ((x / a) * a) == (i * (x / a)) * a;
    DivModIs(i * x, a, i * (x / a), 0);
  }

  lemma MultipleChain(x: nat, b: nat, a: nat)
    requires a > 0 && b > 0 && x % b == 0 && b % a == 0
    ensures x % a == 0
  {
    MultipleTimes(b, x / b, a);
    assert x == (x / b) * b;
  }

  /** A power of two up to `Pow2(m)` divides every multiple of `Pow2(m)`. */
  lemma PowerDivides(x: nat, align: nat, m: nat)
    requires IsPow2(align) && 0 < align <= Pow2(m) && x % Pow2(m) == 0
    ensures x % align == 0
  {
    var k: nat :| align == Pow2(k);
    if k > m {
      Pow2Grows(m, k);
    } else {
      Pow2Add(m - k, k);
      DivModIs(Pow2(m), align, Pow2(m - k), 0);
      MultipleChain(x, Pow2(m), align);
    }
  }

  lemma SlicePower()
    ensures Pow2(16) == SLICE_SIZE
  {
    assert Pow2(8) == 256;
    Pow2Add(8, 8);
  }

  // ---------------------------------------------------------------- the blocks

  /** A block the allocator can hand out: the `i`-th of a binned page, or the one block of a span. */
  datatype Block =
    | Binned(area: nat, c: nat, i: nat)
    | Single(area: nat, size: nat)

  function Size(b: Block): nat {
    match b
    case Binned(_, c, _) => BinSize(c)
    case Single(_, size) => size
  }

  function Start(b: Block): nat {
    match b
    case Binned(area, c, i) => area + i * BinSize(c)
    case Single(area, _) => area
  }

  /** Spans start on slices, blocks of a binned page lie in its area, everything fits a word. */
  predicate Placed(b: Block) {
    && b.area % SLICE_SIZE == 0 && b.area > 0 && Size(b) > 0 && Start(b) + Size(b) < WORD
    && match b
       case Binned(area, c, i) => IsClass(c) && c < BIN_HUGE && (i + 1) * BinSize(c) <= MEDIUM_PAGE_BYTES
       case Single(_, size) => size % SLICE_SIZE == 0 && size > 0
  }

  predicate Covers(b: Block, p: nat) {
    b.area <= Start(b) <= p < Start(b) + Size(b)
  }

  /** What a request of `n` bytes is served from, up to the large limit. */
  predicate Serves(b: Block, n: nat) {
    if n <= MEDIUM_OBJ_SIZE_MAX then b.Binned? && b.c == Bin(n)
    else b.Single? && b.size == (n + SLICE_SIZE - 1) / SLICE_SIZE * SLICE_SIZE
  }

  lemma ServesHolds(b: Block, n: nat)
    requires Placed(b) && Serves(b, n)
    ensures n <= Size(b)
  {
    if n <= MEDIUM_OBJ_SIZE_MAX {
      GoodSize(n, 1);
    }
  }

  // ---------------------------------------------------------- which tier serves

  datatype Plan =
    | Refuse
    | Plain(n: nat)                 // an ordinary allocation, taken as it comes
    | InBin(c: nat)                 // a class whose blocks are all aligned
    | Adjust(n: nat)                // a larger block, an interior position
    | Dedicated                     // a segment of its own

  function Max1(n: nat): nat {
    if n == 0 then 1 else n
  }

  /** `malloc_aligned_at_slow`, up to the allocation it decides on. */
  function Choose(size: nat, align: nat, offset: nat): Plan {
    if !IsPowerOfTwo(align) || align > SEGMENT_SIZE / 2 then Refuse
    else if align <= 8 && offset == 0 then Plain(size)
    else
      var fits := IsAlignedTo(offset, align) && size <= MEDIUM_OBJ_SIZE_MAX && align <= SLICE_SIZE;
      var asize := And(Max1(size) + align - 1, WORD - 1 - (align - 1));
      if fits && IsAlignedTo(BinSize(Bin(size)), align) then InBin(Bin(size))
      else if fits && IsAlignedTo(BinSize(Bin(asize)), align) then InBin(Bin(asize))
      else if size > LARGE_OBJ_SIZE_MAX then Dedicated
      else if Max1(size) + align - 1 > LARGE_OBJ_SIZE_MAX then Dedicated
      else Adjust(Max1(size) + align - 1)
  }

  /** The pointer handed out from block `b`, or none when the sums do not fit a word. */
  function Handed(plan: Plan, b: Block, align: nat, offset: nat): Option<nat>
    requires 0 < align < WORD
  {
    if plan.Adjust? then AlignedAtFrom(Start(b), offset, align) else Some(Start(b))
  }

  /** Block `b` is one the chosen plan may be served from. */
  predicate From(plan: Plan, b: Block) {
    match plan
    case Plain(n) => n <= LARGE_OBJ_SIZE_MAX && Serves(b, n)
    case Adjust(n) => Serves(b, n)
    case InBin(c) => b.Binned? && b.c == c
    case _ => false
  }

  // ------------------------------------------------- finding the block again

  /** `unalign`: `flagged` is the page's HAS_ALIGNED. */
  function Unalign(b: Block, flagged: bool, p: nat): int
    requires Size(b) > 0 && p >= b.area
  {
    if b.Single? then b.area
    else if !flagged then p
    else b.area + DivByBlockSize(p - b.area, Size(b)) * Size(b)
  }

  /** `usable_size` of a pointer into `b`. */
  function UsableSize(b: Block, flagged: bool, p: nat): int
    requires Size(b) > 0 && p >= b.area
  {
    if b.Binned? && !flagged then Size(b) else Size(b) - (p - Unalign(b, flagged, p))
  }

  // --------------------------------------------------------------- the proofs

  lemma ClassPositive(c: nat)
    requires IsClass(c) && c < BIN_HUGE
    ensures BinSize(c) > 0 && BinSize(c) == ClassWords(c) * INTPTR_SIZE && BinSize(c) % 8 == 0
  {
    BinSizeExact(c);
    ClassesGrow(1, c);
  }

  /** Block starts inherit every alignment that divides the slice and the block size. */
  lemma StartAligned(b: Block, align: nat)
    requires Placed(b) && IsPow2(align) && 0 < align <= SLICE_SIZE && (b.Binned? ==> BinSize(b.c) % align == 0)
    ensures Start(b) % align == 0
  {
    hide Pow2, BinSize;
    SlicePower();
    PowerDivides(b.area, align, 16);
    if b.Binned? {
      MultipleTimes(BinSize(b.c), b.i, align);
      MultipleSum(b.area, b.i * BinSize(b.c), align);
    }
  }

  lemma QuotientSmaller(x: nat, d: nat)
    requires d > 0
    ensures x / d <= x
  {
    MulAtLeast(d, x + 1);
    QuotientBetween(x, d, 0, x + 1);
  }

  lemma StartInArea(b: Block)
    ensures b.area <= Start(b)
  {
    if b.Binned? {
      assert b.i * BinSize(b.c) >= 0;
    }
  }

  lemma BinnedUnalign(area: nat, c: nat, i: nat, p: nat)
    requires IsClass(c) && c < BIN_HUGE && (i + 1) * BinSize(c) <= MEDIUM_PAGE_BYTES
    requires area + i * BinSize(c) <= p < area + i * BinSize(c) + BinSize(c) && i * BinSize(c) >= 0
    ensures BinSize(c) > 0 && DivByBlockSize(p - area, BinSize(c)) == i
  {
    var bs, off := BinSize(c), p - area;
    ClassPositive(c);
    assert off < (i + 1) * bs by {
      assert (i + 1) * bs == i * bs + bs;
    }
    QuotientSmaller(off, Pow2(TrailingZeros(bs)));
    DivisionExact(off, bs, c);
    DivModIs(off, bs, i, off - i * bs);
  }

  /** Any pointer into the block, once the page is flagged, leads back to its start. */
  lemma UnalignRecovers(b: Block, flagged: bool, p: nat)
    requires Placed(b) && Covers(b, p) && (flagged || b.Single? || p == Start(b))
    ensures Unalign(b, flagged, p) == Start(b)
    ensures p + UsableSize(b, flagged, p) == Start(b) + Size(b)
  {
    if b.Binned? {
      BinnedUnalign(b.area, b.c, b.i, p);
    }
  }

  lemma AdjustedFits(size: nat, align: nat, offset: nat, b: Block, p: nat)
    requires IsPow2(align) && 0 < align < WORD && Placed(b) && Serves(b, Max1(size) + align - 1)
    requires AlignedAtFrom(Start(b), offset, align) == Some(p)
    ensures Start(b) <= p && p + Max1(size) <= Start(b) + Size(b) && (p + offset) % align == 0
  {
    FirstAligned(Start(b), offset, align);
    ServesHolds(b, Max1(size) + align - 1);
  }

  /** The class chosen in the second natural-fit try still holds the request. */
  lemma RoundedRequest(size: nat, align: nat)
    requires IsPow2(align) && 0 < align <= SLICE_SIZE && size <= MEDIUM_OBJ_SIZE_MAX
    ensures var asize := And(Max1(size) + align - 1, WORD - 1 - (align - 1));
            Max1(size) <= asize <= MEDIUM_OBJ_SIZE_MAX && asize % align == 0
  {
    var k: nat :| align == Pow2(k);
    RoundDown(Max1(size) + align - 1, k);
    SlicePower();
    PowerDivides(SLICE_SIZE, align, 16);
    hide Pow2, IsPow2, And;
    UpToSlice(Max1(size), align);
  }

  lemma UpToSlice(s: nat, a: nat)
    requires 0 < a <= SLICE_SIZE && SLICE_SIZE % a == 0 && s <= SLICE_SIZE
    ensures var r := (s + a - 1) - (s + a - 1) % a; s <= r <= SLICE_SIZE && r % a == 0
  {
    RoundUp(s, a);
    var r := (s + a - 1) - (s + a - 1) % a;
    if r > SLICE_SIZE {
      MultiplesApart(SLICE_SIZE, r, a);
    }
  }

  lemma NaturalFit(size: nat, align: nat, offset: nat, b: Block)
    requires offset < WORD && Placed(b) && Choose(size, align, offset).InBin? && From(Choose(size, align, offset), b)
    ensures IsPow2(align) && 0 < align && size <= Size(b) && (Start(b) + offset) % align == 0
  {
    PowerTest(align);
    AlignedIsMultiple(offset, align);
    RoundedRequest(size, align);
    var asize := And(Max1(size) + align - 1, WORD - 1 - (align - 1));
    GoodSize(size, 1);
    GoodSize(asize, 1);
    AlignedIsMultiple(BinSize(Bin(size)), align);
    AlignedIsMultiple(BinSize(Bin(asize)), align);
    StartAligned(b, align);
    MultipleSum(Start(b), offset, align);
  }

  lemma PlainFit(size: nat, align: nat, b: Block)
    requires IsPow2(align) && 0 < align <= 8 && Placed(b) && Serves(b, size)
    ensures size <= Size(b) && Start(b) % align == 0
  {
    ServesHolds(b, size);
    if b.Binned? {
      ClassPositive(b.c);
      assert Pow2(3) == 8;
      PowerDivides(BinSize(b.c), align, 3);
    }
    StartAligned(b, align);
  }

  lemma TierFits(size: nat, align: nat, offset: nat, b: Block, p: nat)
    requires align < WORD && offset < WORD && Placed(b) && align > 0
    requires From(Choose(size, align, offset), b)
    requires Handed(Choose(size, align, offset), b, align, offset) == Some(p)
    ensures (p + offset) % align == 0
    ensures Start(b) <= p < Start(b) + Size(b) && p + size <= Start(b) + Size(b)
  {
    hide Pow2, BinSize, Bin, IsPowerOfTwo, IsAlignedTo;
    PowerTest(align);
    match Choose(size, align, offset)
    case Plain(n) => PlainFit(size, align, b);
    case InBin(c) => NaturalFit(size, align, offset, b);
    case Adjust(n) => AdjustedFits(size, align, offset, b, p);
  }

  /** Whatever tier serves an aligned request, from whatever block: the pointer meets the
      alignment, the requested bytes lie inside one block, `usable_size` covers them, and
      free recovers exactly that block's start. */
  lemma RoundTrip(size: nat, align: nat, offset: nat, b: Block, flagged: bool, p: nat)
    requires align < WORD && offset < WORD && Placed(b)
    requires From(Choose(size, align, offset), b) && align > 0
    requires Handed(Choose(size, align, offset), b, align, offset) == Some(p)
    requires p != Start(b) ==> flagged
    ensures (p + offset) % align == 0
    ensures Covers(b, p) && p + size <= Start(b) + Size(b)
    ensures UsableSize(b, flagged, p) >= size
    ensures Unalign(b, flagged, p) == Start(b)
  {
    TierFits(size, align, offset, b, p);
    StartInArea(b);
    UnalignRecovers(b, flagged, p);
  }

  /** A request is refused outright exactly for an alignment that is no power of two or too large. */
  lemma RefusedWhen(size: nat, align: nat, offset: nat)
    ensures Choose(size, align, offset) == Refuse <==> !IsPow2(align) || align > SEGMENT_SIZE / 2
  {
    PowerTest(align);
  }

  /** A request that some tier must serve, and that is not served as it comes. */
  ghost predicate Special(align: nat, offset: nat) {
    IsPow2(align) && align <= SEGMENT_SIZE / 2 && !(align <= 8 && offset == 0)
  }

  /** The least multiple of `align` that holds the request. */
  function Rounded(size: nat, align: nat): nat
    requires align > 0
  {
    (Max1(size) + align - 1) / align * align
  }

  lemma RoundedIs(size: nat, align: nat)
    requires IsPow2(align) && 0 < align <= SLICE_SIZE && size <= MEDIUM_OBJ_SIZE_MAX
    ensures And(Max1(size) + align - 1, WORD - 1 - (align - 1)) == Rounded(size, align)
  {
    var k: nat :| align == Pow2(k);
    var x := Max1(size) + align - 1;
    RoundDown(x, k);
    Below(x, align);
  }

  lemma Below(x: nat, a: nat)
    requires a > 0
    ensures x / a * a == x - x % a <= x
  {
  }

  /** A class of which every block is aligned, and the slice is. */
  predicate Natural(c: nat, size: nat, align: nat, offset: nat)
    requires align > 0
  {
    offset % align == 0 && size <= MEDIUM_OBJ_SIZE_MAX && align <= SLICE_SIZE && BinSize(c) % align == 0
  }

  /** Small sizes and sums are words. */
  lemma NaturalIs(c: nat, size: nat, align: nat, offset: nat)
    requires 0 < align <= SEGMENT_SIZE / 2 && IsPow2(align) && offset < WORD && BinSize(c) < WORD
    ensures Natural(c, size, align, offset) <==>
              IsAlignedTo(offset, align) && size <= MEDIUM_OBJ_SIZE_MAX && align <= SLICE_SIZE && IsAlignedTo(BinSize(c), align)
  {
    AlignedIsMultiple(offset, align);
    AlignedIsMultiple(BinSize(c), align);
  }

  lemma BinSizeWord(c: nat)
    ensures BinSize(c) < WORD
  {
  }

  /** Which tier serves: its own class if all its blocks are aligned, else that of the size rounded up if
      they are, else a segment of its own if a larger block does not do, else a larger block. */
  lemma TierIs(size: nat, align: nat, offset: nat)
    requires Special(align, offset) && 0 < align && offset < WORD
    ensures Natural(Bin(size), size, align, offset) ==> Choose(size, align, offset) == InBin(Bin(size))
    ensures !Natural(Bin(size), size, align, offset) && Natural(Bin(Rounded(size, align)), size, align, offset) ==>
              Choose(size, align, offset) == InBin(Bin(Rounded(size, align)))
    ensures !Natural(Bin(size), size, align, offset) && !Natural(Bin(Rounded(size, align)), size, align, offset) ==>
              Choose(size, align, offset) == if Max1(size) + align - 1 > LARGE_OBJ_SIZE_MAX then Dedicated
                                             else Adjust(Max1(size) + align - 1)
  {
    PowerTest(align);
    BinSizeWord(Bin(size));
    NaturalIs(Bin(size), size, align, offset);
    BinSizeWord(Bin(Rounded(size, align)));
    NaturalIs(Bin(Rounded(size, align)), size, align, offset);
    if size <= MEDIUM_OBJ_SIZE_MAX && align <= SLICE_SIZE {
      RoundedIs(size, align);
    }
  }

  /** A request as it comes is served as it comes. */
  lemma PlainWhen(size: nat, align: nat, offset: nat)
    ensures Choose(size, align, offset) == Plain(size) <==> IsPow2(align) && align <= 8 && offset == 0
    ensures Choose(size, align, offset).Plain? ==> Choose(size, align, offset) == Plain(size)
  {
    PowerTest(align);
    assert SEGMENT_SIZE / 2 > 8;
  }

  /** An aligned request gets a segment of its own exactly when it fits no large block with its slack. */
  lemma DedicatedWhen(size: nat, align: nat, offset: nat)
    requires offset < WORD
    ensures Choose(size, align, offset) == Dedicated <==>
              Special(align, offset) && Max1(size) + align - 1 > LARGE_OBJ_SIZE_MAX
  {
    PowerTest(align);
    if Special(align, offset) && align > 0 {
      TierIs(size, align, offset);
    }
  }

  /** A naturally aligned class is never larger than that of the block with slack. */
  lemma NaturalIsSmall(size: nat, align: nat, offset: nat)
    requires Special(align, offset) && 0 < align && offset < WORD && Choose(size, align, offset).InBin?
    ensures ClassWords(Choose(size, align, offset).c) <= ClassWords(WordBin(WSize(Max1(size) + align - 1)))
  {
    TierIs(size, align, offset);
    var x := Max1(size) + align - 1;
    Below(x, align);
    hide Pow2, IsPow2, Choose, Bin, And, WSize;
    SmallerClass(size, x);
    if size <= MEDIUM_OBJ_SIZE_MAX && align <= SLICE_SIZE {
      RoundedRequest(size, align);
      RoundedIs(size, align);
      SmallerClass(Rounded(size, align), x);
    }
  }

  lemma SmallerClass(a: nat, b: nat)
    requires a <= b && a <= MEDIUM_OBJ_SIZE_MAX
    ensures ClassWords(Bin(a)) <= ClassWords(WordBin(WSize(b)))
  {
    BinMonotone(WSize(a), WSize(b));
    ClassesGrow(WordBin(WSize(a)), WordBin(WSize(b)));
  }

  // -------------------------------------------------------------- huge blocks

  /** Slack reserved beyond header and size. */
  function Slack(align: nat, offset: nat): nat {
    if align > SLICE_SIZE || !IsAlignedTo(offset, align) then align else 0
  }

  /** None where the area's own alignment serves, else enough to move the block to its alignment. */
  lemma SlackIs(align: nat, offset: nat)
    requires IsPow2(align) && 0 < align < WORD && offset < WORD
    ensures Slack(align, offset) == if align <= SLICE_SIZE && offset % align == 0 then 0 else align
  {
    AlignedIsMultiple(offset, align);
  }

  function AlignUp(x: nat, a: nat): nat
    requires a > 0
  {
    (x + a - 1) / a * a
  }

  /** `huge_alloc`: the pointer and block size in a reservation of `total` bytes at `seg`. */
  function HugePlace(seg: nat, total: nat, size: nat, align: nat, offset: nat): Option<(nat, nat)>
    requires 0 < align < WORD && total <= WORD
  {
    match AlignedAtFrom(seg + SLICE_SIZE, offset, align)
    case None => None
    case Some(p) =>
      var capacity := if seg <= p <= seg + total then total - (p - seg) else 0;
      Some((p, if AlignUp(Max1(size), SLICE_SIZE) < capacity then AlignUp(Max1(size), SLICE_SIZE) else capacity))
  }

  /** A dedicated segment with the slack reserved: the block is aligned, inside the reservation,
      large enough, and starts where the segment mask still finds the header. */
  lemma HugeRoundTrip(seg: nat, total: nat, size: nat, align: nat, offset: nat, p: nat, bsize: nat)
    requires IsPow2(align) && 0 < align <= SEGMENT_SIZE / 2 && offset < WORD && total <= WORD
    requires seg % SEGMENT_SIZE == 0 && SLICE_SIZE + size + Slack(align, offset) <= total
    requires HugePlace(seg, total, size, align, offset) == Some((p, bsize))
    ensures (p + offset) % align == 0
    ensures seg + SLICE_SIZE <= p && p + size <= p + bsize <= seg + total && bsize < Max1(size) + SLICE_SIZE
    ensures bsize % SLICE_SIZE == 0 || p + bsize == seg + total
    ensures p / SEGMENT_SIZE * SEGMENT_SIZE == seg
  {
    FirstAligned(seg + SLICE_SIZE, offset, align);
    AlignedIsMultiple(offset, align);
    if Slack(align, offset) == 0 {
      NoSlackNeeded(seg, align, offset);
      LeastAligned(seg + SLICE_SIZE, offset, align, seg + SLICE_SIZE);
    }
    DivModIs(p, SEGMENT_SIZE, seg / SEGMENT_SIZE, p - seg);
    AlignUpIs(Max1(size), SLICE_SIZE);
    hide AlignUp, Pow2, IsPow2, Slack, AlignedAtFrom;
  }

  lemma AlignUpIs(x: nat, a: nat)
    requires a > 0
    ensures x <= AlignUp(x, a) < x + a && AlignUp(x, a) % a == 0
  {
    RoundUp(x, a);
    Below(x + a - 1, a);
  }

  /** The requests that get a segment of their own. */
  predicate GetsSegment(size: nat, align: nat, offset: nat) {
    Choose(size, align, offset).Dedicated? || (Choose(size, align, offset).Plain? && size > LARGE_OBJ_SIZE_MAX)
  }

  /** The alignment such a segment is asked for: a plain request asks for a word's. */
  function SegmentAlign(size: nat, align: nat, offset: nat): nat {
    if Choose(size, align, offset).Plain? then 8 else align
  }

  /** Whatever request gets a segment of its own, plain or aligned, is served as `RoundTrip` says of the others. */
  lemma HugeTier(size: nat, align: nat, offset: nat, seg: nat, total: nat, p: nat, bsize: nat)
    requires offset < WORD && total <= WORD && GetsSegment(size, align, offset) && seg % SEGMENT_SIZE == 0
    requires SLICE_SIZE + size + Slack(SegmentAlign(size, align, offset), offset) <= total
    requires HugePlace(seg, total, size, SegmentAlign(size, align, offset), offset) == Some((p, bsize))
    ensures (p + offset) % align == 0
    ensures seg + SLICE_SIZE <= p && p + size <= p + bsize <= seg + total
    ensures p / SEGMENT_SIZE * SEGMENT_SIZE == seg
  {
    PowerTest(align);
    var a := SegmentAlign(size, align, offset);
    EightIsPower();
    hide Pow2, IsPow2, HugePlace, Slack;
    HugeRoundTrip(seg, total, size, a, offset, p, bsize);
    if Choose(size, align, offset).Plain? {
      PowerDivides(p, align, 3);
    }
  }

  lemma EightIsPower()
    ensures Pow2(3) == 8 && IsPow2(8)
  {
  }

  /** Every request is refused, gets a segment, or is served from a block. */
  lemma EveryTier(size: nat, align: nat, offset: nat)
    ensures Choose(size, align, offset) == Refuse || GetsSegment(size, align, offset)
            || exists b :: From(Choose(size, align, offset), b)
  {
    var plan := Choose(size, align, offset);
    match plan
    case Refuse =>
    case Dedicated =>
    case InBin(c) => assert From(plan, Binned(0, c, 0));
    case Plain(n) => if n <= LARGE_OBJ_SIZE_MAX { assert From(plan, Serving(n)); }
    case Adjust(n) => assert From(plan, Serving(n));
  }

  function Serving(n: nat): (b: Block)
    ensures Serves(b, n)
  {
    if n <= MEDIUM_OBJ_SIZE_MAX then Binned(0, Bin(n), 0) else Single(0, (n + SLICE_SIZE - 1) / SLICE_SIZE * SLICE_SIZE)
  }

  /** Up to a slice, the area's own alignment serves. */
  lemma NoSlackNeeded(seg: nat, align: nat, offset: nat)
    requires IsPow2(align) && 0 < align <= SLICE_SIZE && seg % SEGMENT_SIZE == 0 && offset % align == 0
    ensures (seg + SLICE_SIZE + offset) % align == 0
  {
    SlicePower();
    PowerDivides(SLICE_SIZE, align, 16);
    MultipleChain(seg, SEGMENT_SIZE, SLICE_SIZE);
    PowerDivides(seg, align, 16);
    MultipleSum(seg, SLICE_SIZE, align);
    MultipleSum(seg + SLICE_SIZE, offset, align);
  }
}
