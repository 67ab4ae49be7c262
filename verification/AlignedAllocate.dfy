/**
 Over-aligned allocation, header/actors-framework/detail/aligned_allocate.hpp and
 header/actors-framework/impl/detail/aligned_allocate.ipp.  Words are 64 bits wide and wrap around;
 sizeof(ptrdiff_t) is 8; memory is a map from byte addresses to bytes.
 */
module AlignedAllocate {

  const WORD_SPAN: nat := 0x1_0000_0000_0000_0000
  const WORD_BYTES: nat := 8

  type Word = n: nat | n < WORD_SPAN

  function Wrap(n: int): Word { n % WORD_SPAN }

  /** Unary minus on a word. */
  function Negate(n: Word): Word { Wrap(WORD_SPAN - n) }

  /** Bitwise and. */
  function And(x: nat, y: nat): nat {
    if x == 0 || y == 0 then 0 else 2 * And(x / 2, y / 2) + (x % 2) * (y % 2)
  }

  function Pow2(k: nat): (p: nat)
    ensures p > 0
  {
    if k == 0 then 1 else 2 * Pow2(k - 1)
  }

  predicate IsPower(n: nat, k: nat) { n == Pow2(k) }

  // ---------- is_pow2 ----------

  predicate IsPow2(n: Word) { And(n, Wrap(n - 1)) == 0 }

  lemma {:induction false} AndSelf(n: nat)
    ensures And(n, n) == n
  {
    if n != 0 {
      AndSelf(n / 2);
    }
  }

  lemma {:induction false} AndPredecessor(n: nat)
    requires n > 0
    ensures And(n, n - 1) == 0 <==> exists k: nat :: IsPower(n, k)
  {
    var m := n / 2;
    if n == 1 {
      assert IsPower(n, 0);
    } else if n % 2 == 1 {
      assert (n - 1) / 2 == m && (n - 1) % 2 == 0;
      AndSelf(m);
      forall k: nat
        ensures !IsPower(n, k)
      {
        assert k == 0 || Pow2(k) % 2 == 0;
      }
    } else {
      assert (n - 1) / 2 == m - 1 && n % 2 == 0;
      AndPredecessor(m);
      assert And(n, n - 1) == 2 * And(m, m - 1);
      DoublePow2(n);
    }
  }

  lemma DoublePow2(n: nat)
    requires n > 0 && n % 2 == 0
    ensures (exists k: nat :: IsPower(n, k)) <==> (exists k: nat :: IsPower(n / 2, k))
  {
    if k: nat :| IsPower(n / 2, k) {
      assert IsPower(n, k + 1);
    }
    if k: nat :| IsPower(n, k) {
      assert k > 0 && IsPower(n / 2, k - 1);
    }
  }

  /** is_pow2 answers true exactly for zero and the powers of two. */
  lemma IsPow2Iff(n: Word)
    ensures IsPow2(n) <==> n == 0 || exists k: nat :: IsPower(n, k)
  {
    if n > 0 {
      assert Wrap(n - 1) == n - 1;
      AndPredecessor(n);
    }
  }

  // ---------- rounding up with a mask ----------

  lemma {:induction false} AndOnes(x: nat, w: nat)
    requires x < Pow2(w)
    ensures And(x, Pow2(w) - 1) == x
  {
    if x != 0 {
      var y := Pow2(w) - 1;
      assert y / 2 == Pow2(w - 1) - 1 && y % 2 == 1;
      AndOnes(x / 2, w - 1);
    }
  }

  lemma ModDouble(x: nat, b: nat)
    requires b > 0
    ensures x % (2 * b) == 2 * ((x / 2) % b) + x % 2
  {
    var q, r := (x / 2) / b, (x / 2) % b;
    assert x == 2 * (q * b + r) + x % 2;
    assert x == q * (2 * b) + (2 * r + x % 2);
    Remainder(x, 2 * b, q, 2 * r + x % 2);
  }

  lemma AtLeast(d: int, b: nat)
    requires d >= 1
    ensures d * b >= b
  {}

  lemma NextMultiple(q: nat, q': nat, b: nat)
    requires q > q'
    ensures q * b >= q' * b + b
  {
    AtLeast(q - q', b);
    assert (q - q') * b == q * b - q' * b;
  }

  lemma Remainder(x: nat, b: nat, q: nat, r: nat)
    requires b > 0 && x == q * b + r && r < b
    ensures x % b == r
  {
    var q', r' := x / b, x % b;
    assert x == b * q' + r';
    Apart(b, q, r, q', r');
  }

  lemma Apart(b: nat, q: nat, r: nat, q': nat, r': nat)
    requires r < b && r' < b && q * b + r == b * q' + r'
    ensures r == r'
  {
    assert b * q' == q' * b;
    if q > q' {
      NextMultiple(q, q', b);
    } else if q < q' {
      NextMultiple(q', q, b);
    }
  }

  /** Masking with the two's complement of a power of two clears the remainder. */
  lemma {:induction false} AndHighMask(x: nat, k: nat, w: nat)
    requires k <= w && x < Pow2(w)
    ensures Pow2(k) <= Pow2(w)
    ensures And(x, Pow2(w) - Pow2(k)) == x - x % Pow2(k)
  {
    if k == 0 {
      AndOnes(x, w);
    } else {
      var b := Pow2(k - 1);
      AndHighMask(x / 2, k - 1, w - 1);
      var y := Pow2(w) - Pow2(k);
      assert y == 2 * (Pow2(w - 1) - b);
      ModDouble(x, b);
    }
  }

  lemma {:induction false} WordIsPow2()
    ensures Pow2(64) == WORD_SPAN
  {
    assert Pow2(4) == 16;
    PowAdd(4, 4);
    PowAdd(8, 8);
    PowAdd(16, 16);
    PowAdd(32, 32);
  }

  lemma {:induction false} PowAdd(i: nat, j: nat)
    ensures Pow2(i + j) == Pow2(i) * Pow2(j)
  {
    if i > 0 {
      PowAdd(i - 1, j);
      assert Pow2(i) * Pow2(j) == 2 * (Pow2(i - 1) * Pow2(j));
    }
  }

  lemma {:induction false} PowMonotone(i: nat, j: nat)
    requires i <= j
    ensures Pow2(i) <= Pow2(j)
  {
    if i < j {
      PowMonotone(i, j - 1);
    }
  }

  /** (p + a - 1) & -a, with the wrap-around of 64-bit words. */
  function RoundUp(p: Word, a: Word): Word { AndWord(Wrap(p + a - 1), Negate(a)) }

  function AndWord(x: Word, y: Word): (r: Word) {
    AndBelow(x, y);
    And(x, y)
  }

  lemma {:induction false} AndBelow(x: nat, y: nat)
    ensures And(x, y) <= x
  {
    if x != 0 && y != 0 {
      AndBelow(x / 2, y / 2);
    }
  }

  predicate Multiple(m: nat, a: nat)
    requires a > 0
  {
    m % a == 0
  }

  /** The mask form is subtraction of the remainder. */
  lemma RoundUpClearsRemainder(p: Word, a: Word)
    requires a != 0 && IsPow2(a) && p + a - 1 < WORD_SPAN
    ensures RoundUp(p, a) == (p + a - 1) - (p + a - 1) % a
  {
    IsPow2Iff(a);
    var k: nat :| IsPower(a, k);
    assert Wrap(p + a - 1) == p + a - 1 && Negate(a) == WORD_SPAN - a;
    WordIsPow2();
    MaskClearsRemainder(p + a - 1, k, 64);
  }

  lemma MaskClearsRemainder(x: nat, k: nat, w: nat)
    requires x < Pow2(w) && Pow2(k) < Pow2(w)
    ensures And(x, Pow2(w) - Pow2(k)) == x - x % Pow2(k)
  {
    if k > w { PowMonotone(w, k); }
    AndHighMask(x, k, w);
  }

  /** For a power of two and no wrap-around, RoundUp is the least multiple of a that is not below p. */
  lemma RoundUpIsLeastMultiple(p: Word, a: Word)
    requires a != 0 && IsPow2(a) && p + a - 1 < WORD_SPAN
    ensures var q := RoundUp(p, a);
      Multiple(q, a) && p <= q < p + a && forall m: nat | Multiple(m, a) && p <= m :: q <= m
  {
    RoundUpClearsRemainder(p, a);
    LeastMultiple(p, a);
  }

  lemma LeastMultiple(p: nat, a: nat)
    requires a > 0
    ensures var x := p + a - 1;
      var q := x - x % a;
      Multiple(q, a) && p <= q < p + a && forall m: nat | Multiple(m, a) && p <= m :: q <= m
  {
    var x := p + a - 1;
    var q := x - x % a;
    MultipleBelow(x, a);
    forall m: nat | Multiple(m, a) && p <= m
      ensures q <= m
    {
      if m < q { MultiplesApart(m, q, a); }
    }
  }

  /** Zero passes the is_pow2 assertion, but rounding up by it always yields the null address. */
  lemma ZeroSlipsThrough(p: Word)
    ensures IsPow2(0) && RoundUp(p, 0) == 0
  {}

  lemma MultipleBelow(x: nat, a: nat)
    requires a > 0
    ensures (x - x % a) % a == 0
  {
    var q := x / a;
    assert x - x % a == q * a + 0;
    Remainder(x - x % a, a, q, 0);
  }

  lemma MultiplesApart(m: nat, n: nat, a: nat)
    requires a > 0 && m % a == 0 && n % a == 0 && m < n
    ensures m + a <= n
  {
    var i, j := m / a, n / a;
    assert m == i * a && n == j * a;
    if i >= j {
      if i > j { NextMultiple(i, j, a); }
    } else {
      NextMultiple(j, i, a);
    }
  }

  // ---------- align ----------

  /** What align returns and leaves in its two reference parameters; result 0 is the null pointer. */
  datatype Aligned = Aligned(result: Word, ptr: Word, space: Word)

  /** The hand-written branch.  For a power of two and an address that does not wrap around: it answers as std::align
      does whenever the padding fits into the space; when it does not fit it ought to answer null and change nothing,
      and does so exactly when the remainder, wrapped around, is too small for the request as well. */
  method Align(alignment: Word, size: Word, ptr: Word, space: Word) returns (r: Aligned)
    ensures r == HandAlign(alignment, size, ptr, space)
    ensures r.result == 0 || r.result == r.ptr
    ensures alignment != 0 && IsPow2(alignment) && ptr + alignment - 1 < WORD_SPAN ==>
      ptr + Padding(ptr, alignment) < WORD_SPAN &&
      if Padding(ptr, alignment) <= space || space + WORD_SPAN - Padding(ptr, alignment) < size
      then r == StdAlign(alignment, size, ptr, space)
      else r == Aligned(ptr + Padding(ptr, alignment), ptr + Padding(ptr, alignment), space + WORD_SPAN - Padding(ptr, alignment))
  {
    if alignment != 0 && IsPow2(alignment) && ptr + alignment - 1 < WORD_SPAN {
      AlignAgreesWithStandardIff(alignment, size, ptr, space);
      if space < Padding(ptr, alignment) && space + WORD_SPAN - Padding(ptr, alignment) >= size {
        HandAlignWrapsAround(alignment, size, ptr, space);
      }
    }
    var aligned := RoundUp(ptr, alignment);
    var newSpace := Wrap(space - Wrap(aligned - ptr));
    if newSpace < size {
      return Aligned(0, ptr, space);
    }
    return Aligned(aligned, aligned, newSpace);
  }

  lemma HandAlignWrapsAround(a: Word, size: Word, ptr: Word, space: Word)
    requires a != 0 && IsPow2(a) && ptr + a - 1 < WORD_SPAN
    requires space < Padding(ptr, a) && space + WORD_SPAN - Padding(ptr, a) >= size
    ensures ptr + Padding(ptr, a) < WORD_SPAN
    ensures var q := ptr + Padding(ptr, a);
      HandAlign(a, size, ptr, space) == Aligned(q, q, space + WORD_SPAN - Padding(ptr, a))
  {
    PaddingIsRoundUp(ptr, a);
    WrapDifference(RoundUp(ptr, a), ptr);
    WrapDifference(space, Padding(ptr, a));
  }

  function HandAlign(alignment: Word, size: Word, ptr: Word, space: Word): Aligned {
    var newSpace := Wrap(space - Wrap(RoundUp(ptr, alignment) - ptr));
    if newSpace < size then Aligned(0, ptr, space)
    else Aligned(RoundUp(ptr, alignment), RoundUp(ptr, alignment), newSpace)
  }

  /** How many bytes lie between p and the next multiple of a. */
  function Padding(p: nat, a: nat): nat
    requires a > 0
  {
    if p % a == 0 then 0 else a - p % a
  }

  /** std::align, section 23.10.5 of ISO/IEC 14882:2017: if size bytes aligned by a fit into the space bytes at
      ptr, advance to the first such address and subtract what was skipped; otherwise change nothing. */
  function StdAlign(a: Word, size: Word, ptr: Word, space: Word): Aligned
    requires a > 0 && ptr + Padding(ptr, a) < WORD_SPAN
  {
    var skip := Padding(ptr, a);
    if skip + size <= space then Aligned(ptr + skip, ptr + skip, space - skip) else Aligned(0, ptr, space)
  }

  lemma PaddingIsRoundUp(p: Word, a: Word)
    requires a != 0 && IsPow2(a) && p + a - 1 < WORD_SPAN
    ensures RoundUp(p, a) == p + Padding(p, a) && Padding(p, a) < a
  {
    RoundUpIsLeastMultiple(p, a);
    var q := RoundUp(p, a);
    var m := p + Padding(p, a);
    PaddingReachesMultiple(p, a);
    assert Multiple(m, a);
    if q != m { MultiplesApart(q, m, a); }
  }

  lemma PaddingReachesMultiple(p: nat, a: nat)
    requires a > 0
    ensures (p + Padding(p, a)) % a == 0
  {
    if p % a != 0 {
      var q := p / a;
      assert p + Padding(p, a) == (q + 1) * a + 0 by { assert p == q * a + p % a; assert (q + 1) * a == q * a + a; }
      Remainder(p + Padding(p, a), a, q + 1, 0);
    }
  }

  /** The hand-written branch does what std::align does exactly when the padding fits into the space, or it does not
      and the wrapped-around remainder is still too small for the request. */
  lemma AlignAgreesWithStandardIff(a: Word, size: Word, ptr: Word, space: Word)
    requires a != 0 && IsPow2(a) && ptr + a - 1 < WORD_SPAN
    ensures ptr + Padding(ptr, a) < WORD_SPAN
    ensures HandAlign(a, size, ptr, space) == StdAlign(a, size, ptr, space)
      <==> Padding(ptr, a) <= space || space + WORD_SPAN - Padding(ptr, a) < size
  {
    PaddingIsRoundUp(ptr, a);
    WrapDifference(RoundUp(ptr, a), ptr);
    WrapDifference(space, Padding(ptr, a));
  }

  /** A request that does not fit: one byte aligned by eight at address one, with no space at all.  It is granted, and
      the space left is claimed to be almost the whole address range. */
  lemma AlignGrantsWhatDoesNotFit()
    ensures StdAlign(8, 1, 1, 0) == Aligned(0, 1, 0)
    ensures HandAlign(8, 1, 1, 0) == Aligned(8, 8, WORD_SPAN - 7)
  {
    assert Pow2(3) == 8 && IsPower(8, 3);
    IsPow2Iff(8);
    HandAlignWrapsAround(8, 1, 1, 0);
  }

  lemma WrapDifference(x: Word, y: Word)
    ensures Wrap(x - y) == if y <= x then x - y else x + WORD_SPAN - y
  {}

  // ---------- memory ----------

  type Memory = map<nat, nat>

  /** Outside lo..hi the two memories agree. */
  ghost predicate SameExcept(mem: Memory, mem': Memory, lo: nat, hi: nat) {
    forall b: nat | b < lo || hi <= b :: SameByte(mem, mem', b)
  }

  ghost predicate SameByte(mem: Memory, mem': Memory, b: nat) {
    (b in mem <==> b in mem') && (b in mem ==> mem[b] == mem'[b])
  }

  /** The bytes lo..hi hold v, least significant byte first. */
  function Stored(mem: Memory, lo: nat, hi: nat, v: nat): Memory
    requires lo <= hi
    decreases hi - lo
  {
    if lo == hi then mem else Stored(mem[lo := v % 256], lo + 1, hi, v / 256)
  }

  function Loaded(mem: Memory, lo: nat, hi: nat): nat
    requires lo <= hi
    decreases hi - lo
  {
    if lo == hi then 0 else (if lo in mem then mem[lo] else 0) + 256 * Loaded(mem, lo + 1, hi)
  }

  lemma {:induction false} StoredElsewhere(mem: Memory, lo: nat, hi: nat, v: nat)
    requires lo <= hi
    ensures SameExcept(mem, Stored(mem, lo, hi, v), lo, hi)
    decreases hi - lo
  {
    if lo < hi {
      var m := mem[lo := v % 256];
      StoredElsewhere(m, lo + 1, hi, v / 256);
      var m' := Stored(m, lo + 1, hi, v / 256);
      forall b: nat | b < lo || hi <= b
        ensures SameByte(mem, m', b)
      {
        assert SameByte(m, m', b);
      }
    }
  }

  lemma {:induction false} LoadedFrame(mem: Memory, mem': Memory, lo: nat, hi: nat)
    requires lo <= hi && forall b: nat | lo <= b < hi :: SameByte(mem, mem', b)
    ensures Loaded(mem, lo, hi) == Loaded(mem', lo, hi)
    decreases hi - lo
  {
    if lo < hi {
      assert SameByte(mem, mem', lo);
      LoadedFrame(mem, mem', lo + 1, hi);
    }
  }

  /** Values of n bytes. */
  function Span(n: nat): nat { if n == 0 then 1 else 256 * Span(n - 1) }

  lemma SpanOfWord()
    ensures Span(WORD_BYTES) == WORD_SPAN
  {
    assert Span(4) == 0x1_0000_0000;
  }

  lemma {:induction false} LoadStored(mem: Memory, lo: nat, hi: nat, v: nat)
    requires lo <= hi && v < Span(hi - lo)
    ensures Loaded(Stored(mem, lo, hi, v), lo, hi) == v
    decreases hi - lo
  {
    if lo < hi {
      var m := mem[lo := v % 256];
      LoadStored(m, lo + 1, hi, v / 256);
      StoredElsewhere(m, lo + 1, hi, v / 256);
      assert SameByte(m, Stored(m, lo + 1, hi, v / 256), lo);
    }
  }

  /** Although align is told a space larger by one word than what is left behind the offset word, its answer leaves
      room for the word in front and for the user's bytes behind, inside the raw block. */
  lemma AllocationFits(size: Word, alignment: Word, original: Word)
    requires alignment != 0 && IsPow2(alignment)
    requires size + alignment + WORD_BYTES < WORD_SPAN && original + size + alignment + WORD_BYTES <= WORD_SPAN
    ensures original + WORD_BYTES < WORD_SPAN
    ensures var p := HandAlign(alignment, size, original + WORD_BYTES, size + alignment + WORD_BYTES).ptr;
      p % alignment == 0 && original + WORD_BYTES <= p && p + size <= original + size + alignment + WORD_BYTES
  {
    var ptr := original + WORD_BYTES;
    PaddingIsRoundUp(ptr, alignment);
    RoundUpIsLeastMultiple(ptr, alignment);
    AlignAgreesWithStandardIff(alignment, size, ptr, size + alignment + WORD_BYTES);
  }

  class Heap {
    var bytes: Memory

    /** aligned_allocate; `original` is the address alloc answered with. */
    method Allocate(size: Word, alignment: Word, original: Word) returns (aligned: Word)
      requires alignment != 0 && IsPow2(alignment)
      requires size + alignment + WORD_BYTES < WORD_SPAN && original + size + alignment + WORD_BYTES <= WORD_SPAN
      modifies this
      ensures aligned % alignment == 0
      ensures original + WORD_BYTES <= aligned && aligned + size <= original + size + alignment + WORD_BYTES
      ensures Loaded(bytes, aligned - WORD_BYTES, aligned) == aligned - original
      ensures SameExcept(old(bytes), bytes, aligned - WORD_BYTES, aligned)
    {
      var padded := size + alignment + WORD_BYTES;
      var r := Align(alignment, size, original + WORD_BYTES, padded);
      AllocationFits(size, alignment, original);
      aligned := r.ptr;
      var offset := aligned - original;
      SpanOfWord();
      StoredElsewhere(bytes, aligned - WORD_BYTES, aligned, offset);
      LoadStored(bytes, aligned - WORD_BYTES, aligned, offset);
      bytes := Stored(bytes, aligned - WORD_BYTES, aligned, offset);
    }

    /** aligned_deallocate: the address handed to dealloc. */
    method Deallocate(p: Word) returns (original: Word)
      requires p >= WORD_BYTES && Loaded(bytes, p - WORD_BYTES, p) <= p
      ensures original == p - Loaded(bytes, p - WORD_BYTES, p)
    {
      var offset := Loaded(bytes, p - WORD_BYTES, p);
      original := p - offset;
    }
  }

  /** Whatever the user writes to the bytes of the allocation, the offset word in front of them is still there, so
      deallocation finds the original address. */
  lemma UserWritesKeepOffset(mem: Memory, mem': Memory, aligned: Word, size: Word, original: Word)
    requires aligned >= WORD_BYTES && original <= aligned
    requires Loaded(mem, aligned - WORD_BYTES, aligned) == aligned - original
    requires SameExcept(mem, mem', aligned, aligned + size)
    ensures aligned - Loaded(mem', aligned - WORD_BYTES, aligned) == original
  {
    LoadedFrame(mem, mem', aligned - WORD_BYTES, aligned);
  }

  /** The round trip through both methods with arbitrary user writes in between. */
  method RoundTrip(heap: Heap, size: Word, alignment: Word, original: Word, userBytes: seq<nat>) returns (back: Word)
    requires alignment != 0 && IsPow2(alignment) && |userBytes| <= size
    requires size + alignment + WORD_BYTES < WORD_SPAN && original + size + alignment + WORD_BYTES <= WORD_SPAN
    modifies heap
    ensures back == original
  {
    var p := heap.Allocate(size, alignment, original);
    ghost var mem := heap.bytes;
    var i := 0;
    while i < |userBytes|
      invariant 0 <= i <= |userBytes|
      invariant SameExcept(mem, heap.bytes, p, p + size)
    {
      ghost var before := heap.bytes;
      heap.bytes := heap.bytes[p + i := userBytes[i]];
      forall b: nat | b < p || p + size <= b
        ensures SameByte(mem, heap.bytes, b)
      {
        assert SameByte(mem, before, b);
      }
      i := i + 1;
    }
    UserWritesKeepOffset(mem, heap.bytes, p, size, original);
    back := heap.Deallocate(p);
  }
}
