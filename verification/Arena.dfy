/** The bump arena of one thread: sizes and addresses as 64-bit words. */
module Arena {
  import opened Bits
  import opened Options

  const CACHE_LINE_SIZE: nat := 64
  const ARENA_ALIGNMENT: nat := 64
  const DEFAULT_BLOCK_SIZE: nat := 2 * 1024 * 1024
  const HUGEPAGE_SIZE: nat := 2 * 1024 * 1024

  // ---- Alignment ----

  /** `(size + alignment - 1) & ~(alignment - 1)` on words. */
  function AlignSize(size: word, alignment: word): (r: nat)
    requires alignment > 0
  {
    And((size + alignment - 1) % U64, U64 - 1 - (alignment - 1))
  }

  predicate LeastMultiple(r: nat, size: nat, a: nat)
    requires a > 0
  {
    r % a == 0 && size <= r < size + a
  }

  lemma Positive(a: nat)
    requires IsPow2(a)
    ensures a > 0
  {
  }

  lemma AlignClears(size: word, a: word)
    requires IsPow2(a)
    ensures var x := (size + a - 1) % U64; AlignSize(size, a) == x - x % a
  {
    hide And, IsPow2;
    Pow2U64();
    AndClearLow((size + a - 1) % U64, a, U64);
  }

  lemma RoundsUp(size: nat, a: nat)
    requires a > 0
    ensures var x := size + a - 1; LeastMultiple(x - x % a, size, a)
  {
    var x := size + a - 1;
    ModUnique(x - x % a, a, x / a, 0);
  }

  /**
   Up to the last multiple of the alignment the result is the least multiple not below the size; beyond it is zero.
   */
  lemma AlignExact(size: word, a: word)
    requires IsPow2(a)
    ensures size <= U64 - a ==> LeastMultiple(AlignSize(size, a), size, a)
    ensures size > U64 - a ==> AlignSize(size, a) == 0
    ensures AlignSize(size, a) < U64
  {
    hide AlignSize, IsPow2;
    Positive(a);
    AlignClears(size, a);
    if size <= U64 - a {
      RoundsUp(size, a);
    } else {
      var x := size + a - 1 - U64;
      ModUnique(size + a - 1, U64, 1, x);
      ModUnique(x, a, 0, x);
    }
  }

  lemma MultiplesBelow(r: nat, m: nat, a: nat)
    requires a > 0 && r % a == 0 && m % a == 0 && r < m + a
    ensures r <= m
  {
    var k := r / a - m / a;
    assert k * a == r - m by {
      assert r == (r / a) * a && m == (m / a) * a;
    }
    if k >= 1 {
      MultipleGrows(k, a);
    }
  }

  // ---- Blocks ----

  /** The size mapped for a block: at least the default, whole cache lines, and then whole pages or huge pages. */
  function BlockSize(minSize: word, boundary: word): nat
    requires boundary > 0
  {
    var lines := if minSize > DEFAULT_BLOCK_SIZE then AlignSize(minSize, ARENA_ALIGNMENT) else DEFAULT_BLOCK_SIZE;
    AlignSize(lines % U64, boundary)
  }

  /** Cache lines do not push a size that fits over the last multiple of a larger boundary. */
  lemma LinesFit(size: word, boundary: word)
    requires IsPow2(boundary) && 64 <= boundary
    ensures var lines := AlignSize(size, 64);
      lines < U64 && (size <= U64 - boundary ==> size <= lines <= U64 - boundary)
      && (size > U64 - boundary ==> lines == 0 || lines > U64 - boundary)
  {
    hide AlignSize, IsPow2;
    SixtyFour();
    AlignExact(size, 64);
    if size <= U64 - boundary {
      Pow2U64();
      Pow2Divides(64, boundary);
      BoundaryMultiple(boundary);
      MultiplesBelow(AlignSize(size, 64), U64 - boundary, 64);
    }
  }

  /** A block is never too small: it holds the size asked for, or its size is zero and cannot be mapped. */
  lemma BlockHolds(minSize: word, boundary: word)
    requires IsPow2(boundary) && 64 <= boundary <= HUGEPAGE_SIZE
    ensures var size := BlockSize(minSize, boundary);
      size < U64 &&
      if minSize <= U64 - boundary then size >= minSize && size >= DEFAULT_BLOCK_SIZE && size % boundary == 0 else size == 0
  {
    hide AlignSize, IsPow2;
    var lines := if minSize > DEFAULT_BLOCK_SIZE then AlignSize(minSize, 64) else DEFAULT_BLOCK_SIZE;
    LinesFit(minSize, boundary);
    assert lines < U64;
    AlignExact(lines, boundary);
    ZeroAligned(boundary);
  }

  lemma LinesOf(x: nat, b: nat)
    requires b > 0 && x % b == 0 && b % 64 == 0
    ensures x % 64 == 0
  {
    assert x == (x / b) * b && b == (b / 64) * 64;
    MulAssoc(x / b, b / 64, 64);
    assert x == ((x / b) * (b / 64)) * 64;
  }

  /** Blocks are whole cache lines. */
  lemma BlockLines(minSize: word, boundary: word)
    requires IsPow2(boundary) && 64 <= boundary <= HUGEPAGE_SIZE
    ensures BlockSize(minSize, boundary) % 64 == 0
  {
    hide IsPow2, BlockSize;
    BlockHolds(minSize, boundary);
    SixtyFour();
    Pow2Divides(64, boundary);
    LinesOf(BlockSize(minSize, boundary), boundary);
  }

  lemma ZeroAligned(a: word)
    requires IsPow2(a)
    ensures AlignSize(0, a) == 0
  {
    hide AlignSize, IsPow2;
    Positive(a);
    AlignExact(0, a);
    if AlignSize(0, a) != 0 {
      ModUnique(AlignSize(0, a), a, 0, AlignSize(0, a));
    }
  }

  lemma SixtyFour()
    ensures IsPow2(64)
  {
    assert IsPow2(8);
  }

  lemma BoundaryMultiple(b: nat)
    requires 0 < b <= U64 && b % 64 == 0
    ensures (U64 - b) % 64 == 0
  {
  }

  // ---- Bump allocation ----

  datatype Range = Range(start: nat, end: nat)

  predicate Disjoint(r: Range, s: Range) {
    r.end <= s.start || s.end <= r.start
  }

  predicate Inside(r: Range, block: Range) {
    block.start <= r.start <= r.end <= block.end
  }

  /** The new bump pointer when `size` bytes are granted at `ptr`; pointer arithmetic wraps. */
  function Bump(ptr: word, end: word, size: word): Option<word> {
    var next := (ptr + AlignSize(size, CACHE_LINE_SIZE)) % U64;
    if next <= end then Some(next) else None
  }

  /** Whole cache lines of a size that leaves room below the end of the address space. */
  lemma LinesRoom(ptr: word, size: word)
    requires ptr % 64 == 0 && size <= U64 - 64 - ptr
    ensures LeastMultiple(AlignSize(size, 64), size, 64) && ptr + AlignSize(size, 64) <= U64 - 64
  {
    hide AlignSize, IsPow2;
    SixtyFour();
    AlignExact(size, 64);
    MultiplesBelow(AlignSize(size, 64), U64 - 64 - ptr, 64);
  }

  /** Whole cache lines of a larger size: none at all, or up to the end of the address space and beyond. */
  lemma LinesWrap(ptr: word, size: word)
    requires ptr % 64 == 0 && size > U64 - 64 - ptr
    ensures AlignSize(size, 64) == 0 || U64 <= ptr + AlignSize(size, 64) < U64 + ptr
  {
    hide AlignSize, IsPow2;
    SixtyFour();
    AlignExact(size, 64);
    if size <= U64 - 64 {
      MultiplesBelow(U64 - ptr, AlignSize(size, 64), 64);
    }
  }

  /** The bump is right for sizes up to the last cache line of the address space; beyond, it grants without room. */
  lemma BumpExact(ptr: word, end: word, size: word)
    requires ptr % 64 == 0 && ptr <= end && size > 0
    ensures var next := Bump(ptr, end, size);
      if size <= U64 - 64 - ptr then
        LeastMultiple(AlignSize(size, 64), size, 64) && (next.Some? <==> ptr + AlignSize(size, 64) <= end)
        && (next.Some? ==> next.value == ptr + AlignSize(size, 64) && next.value % 64 == 0)
      else next.Some? && next.value <= ptr
  {
    hide AlignSize;
    if size <= U64 - 64 - ptr {
      LinesRoom(ptr, size);
      ModUnique(ptr + AlignSize(size, 64), U64, 0, ptr + AlignSize(size, 64));
    } else {
      LinesWrap(ptr, size);
      if AlignSize(size, 64) != 0 {
        ModUnique(ptr + AlignSize(size, 64), U64, 1, ptr + AlignSize(size, 64) - U64);
      }
    }
  }

  /** An aligned range inside one block, none of it still free. */
  ghost predicate Granted(r: Range, blocks: seq<Range>, free: Range) {
    r.start % 64 == 0 && Disjoint(r, free) && exists b :: b in blocks && Inside(r, b)
  }

  lemma StillGranted(r: Range, blocks: seq<Range>, free: Range, less: Range)
    requires Granted(r, blocks, free) && free.start <= less.start <= less.end <= free.end
    ensures Granted(r, blocks, less)
  {
  }

  /** A new block leaves what is granted apart from it and granted. */
  lemma GrantedBesideNew(r: Range, blocks: seq<Range>, free: Range, block: Range, front: Range, less: Range)
    requires Granted(r, blocks, free) && (forall b :: b in blocks ==> Disjoint(block, b))
    requires Inside(less, block) && Inside(front, block)
    ensures Granted(r, [block] + blocks, less) && Disjoint(r, front)
  {
    var b :| b in blocks && Inside(r, b);
    assert ([block] + blocks)[1..] == blocks;
    assert b in [block] + blocks && Disjoint(block, b);
  }

  lemma ApartWhenGranted(r: Range, blocks: seq<Range>, free: Range)
    requires Granted(r, blocks, free)
    ensures Disjoint(r, free)
  {
  }

  lemma NewlyGranted(r: Range, blocks: seq<Range>, free: Range)
    requires blocks != [] && Inside(r, blocks[0]) && r.start % 64 == 0 && r.end <= free.start
    ensures Granted(r, blocks, free)
  {
  }

  function Max(a: nat, b: nat): nat {
    if a > b then a else b
  }

  lemma BlockRoom(lines: word, blockSize: word, boundary: word)
    requires IsPow2(boundary) && 64 <= boundary <= HUGEPAGE_SIZE
    ensures var length := BlockSize(Max(lines, blockSize), boundary); length < U64 && (length > 0 ==> lines <= length)
  {
    hide IsPow2, BlockSize;
    BlockHolds(Max(lines, blockSize), boundary);
  }

  class ThreadArena {
    const blockSize: word
    const boundary: word
    var blocks: seq<Range>
    var allocationPtr: word
    var allocationEnd: word
    ghost var grants: seq<Range>

    ghost predicate Valid()
      reads this
    {
      && IsPow2(boundary) && 64 <= boundary <= HUGEPAGE_SIZE
      && blocks != [] && allocationEnd == blocks[0].end && blocks[0].start <= allocationPtr <= allocationEnd
      && allocationPtr % 64 == 0 && allocationEnd % 64 == 0
      && (forall i :: 0 <= i < |grants| ==> Granted(grants[i], blocks, Range(allocationPtr, allocationEnd)))
      && (forall i, j :: 0 <= i < j < |grants| ==> Disjoint(grants[i], grants[j]))
    }

    /** What mapping a block of `size` bytes gives: nothing, or an aligned stretch apart from every block so far. */
    predicate Maps(mapped: Option<word>, size: nat)
      reads this
    {
      mapped.Some? ==>
        size > 0 && mapped.value % 64 == 0 && mapped.value + size < U64
        && forall b :: b in blocks ==> Disjoint(Range(mapped.value, mapped.value + size), b)
    }

    /** The size ends at least a cache line below the end of the address space. */
    predicate HasRoom(size: word)
      reads this
    {
      size <= U64 - 64 - allocationPtr
    }

    constructor (blockSize: word, boundary: word, start: word)
      requires IsPow2(boundary) && 64 <= boundary <= HUGEPAGE_SIZE && start % 64 == 0
      requires var size := BlockSize(if blockSize > 0 then blockSize else DEFAULT_BLOCK_SIZE, boundary);
        0 < size && start + size < U64
      ensures Valid() && grants == [] && this.boundary == boundary
      ensures this.blockSize == if blockSize > 0 then blockSize else DEFAULT_BLOCK_SIZE
    {
      var own := if blockSize > 0 then blockSize else DEFAULT_BLOCK_SIZE;
      this.blockSize, this.boundary := own, boundary;
      BlockLines(own, boundary);
      var end := start + BlockSize(own, boundary);
      blocks := [Range(start, end)];
      allocationPtr, allocationEnd := start, end;
      grants := [];
    }

    /**
     A fresh aligned range of whole cache lines from the current block, or from a new one, if the size leaves room
     below the end of the address space. A larger size wraps around: it gets what is left of the block, however
     little, and the bump pointer does not advance.
     */
    method AllocFast(size: word, mapped: Option<word>) returns (r: Option<word>)
      requires Valid()
      requires Maps(mapped, BlockSize(Max(AlignSize(size, CACHE_LINE_SIZE) % U64, blockSize), boundary))
      modifies this
      ensures old(HasRoom(size)) ==>
        && Valid()
        && (r.None? ==> grants == old(grants) && blocks == old(blocks))
        && (r.None? <==> size == 0 || (mapped.None? && old(allocationPtr) + AlignSize(size, 64) > old(allocationEnd)))
        && (r.Some? ==> grants == old(grants) + [Range(r.value, r.value + AlignSize(size, 64))])
        && (r.Some? ==> r.value % 64 == 0 && AlignSize(size, 64) >= size)
      ensures !old(HasRoom(size)) ==>
        && r == Some(old(allocationPtr)) && allocationPtr <= old(allocationPtr)
        && r.value + size > allocationEnd && blocks == old(blocks) && grants == old(grants)
    {
      hide AlignSize, IsPow2, BlockSize;
      if size == 0 {
        return None;
      }
      BumpExact(allocationPtr, allocationEnd, size);
      SixtyFour();
      AlignExact(size, 64);
      var next := Bump(allocationPtr, allocationEnd, size);
      var lines := AlignSize(size, CACHE_LINE_SIZE);
      if next.Some? {
        r := Some(allocationPtr);
        if HasRoom(size) {
          GrantFront(next.value);
        } else {
          allocationPtr := next.value;
        }
        return;
      }
      if mapped.None? {
        return None;
      }
      r := mapped;
      NewBlock(lines, mapped.value);
    }

    method GrantFront(next: word)
      requires Valid() && allocationPtr <= next <= allocationEnd && next % 64 == 0
      modifies `allocationPtr, `grants
      ensures Valid() && grants == old(grants) + [Range(old(allocationPtr), next)]
    {
      hide IsPow2, Granted;
      var free, less := Range(allocationPtr, allocationEnd), Range(next, allocationEnd);
      ghost var front := Range(allocationPtr, next);
      forall i | 0 <= i < |grants|
        ensures Granted(grants[i], blocks, less) && Disjoint(grants[i], front)
      {
        StillGranted(grants[i], blocks, free, less);
        StillGranted(grants[i], blocks, free, front);
        ApartWhenGranted(grants[i], blocks, front);
      }
      NewlyGranted(front, blocks, less);
      allocationPtr := next;
      grants := grants + [front];
    }

    /** A block of its own for `lines` bytes, which become the first of it. */
    method NewBlock(lines: word, start: word)
      requires Valid() && 0 < lines && lines % 64 == 0
      requires Maps(Some(start), BlockSize(Max(lines, blockSize), boundary))
      modifies this
      ensures Valid() && grants == old(grants) + [Range(start, start + lines)]
    {
      hide AlignSize, IsPow2, BlockSize, Granted;
      var length := BlockSize(Max(lines, blockSize), boundary);
      BlockRoom(lines, blockSize, boundary);
      BlockLines(Max(lines, blockSize), boundary);
      var block, free, less := Range(start, start + length), Range(allocationPtr, allocationEnd), Range(start + lines, start + length);
      ghost var front, more := Range(start, start + lines), [block] + blocks;
      forall i | 0 <= i < |grants|
        ensures Granted(grants[i], more, less) && Disjoint(grants[i], front)
      {
        GrantedBesideNew(grants[i], blocks, free, block, front, less);
      }
      NewlyGranted(front, more, less);
      blocks := [block] + blocks;
      allocationPtr, allocationEnd := start + lines, start + length;
      grants := grants + [front];
    }
  }

  // ---- Aligned allocation ----

  /** The address handed out inside an allocation at `base`. */
  function AlignedAddress(base: word, alignment: word): nat
    requires alignment > 0
  {
    AlignSize(base, alignment)
  }

  /**
   With the size the original asks for, the aligned range lies inside the underlying allocation exactly when
   size and alignment do not overflow together.
   */
  lemma AlignedInside(base: word, size: word, a: word)
    requires IsPow2(a) && size > 0
    requires var total := (size + a - 1) % U64; 0 < total && base + total < U64
    ensures var total := (size + a - 1) % U64;
      var at := AlignedAddress(base, a);
      Inside(Range(at, at + size), Range(base, base + total)) && at % a == 0 <==> size <= U64 - a
  {
    hide AlignSize, IsPow2;
    Positive(a);
    var total := (size + a - 1) % U64;
    if size <= U64 - a {
      AlignExact(base, a);
    } else {
      ModUnique(size + a - 1, U64, 1, size + a - 1 - U64);
    }
  }

  /**
   Nothing for a zero size or an alignment that is not a power of two; otherwise from an allocation with room to
   align.
   */
  method AllocAligned(size: word, alignment: word, underlying: Option<word>) returns (r: Option<word>)
    ensures r.Some? ==> size > 0 && alignment > 0 && IsPow2(alignment) && underlying.Some?
    ensures r.Some? ==> r.value == AlignedAddress(underlying.value, alignment)
    ensures r.None? <==> size == 0 || alignment == 0 || !IsPow2(alignment) || underlying.None?
  {
    if size == 0 || alignment == 0 {
      return None;
    }
    Pow2Test(alignment);
    if And(alignment, alignment - 1) != 0 {
      return None;
    }
    if underlying.None? {
      return None;
    }
    AlignExact(underlying.value, alignment);
    return Some(AlignSize(underlying.value, alignment));
  }
}
