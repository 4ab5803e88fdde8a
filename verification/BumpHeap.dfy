/** The guest's bump allocator on 32-bit linear memory: headers and data live in the same bytes, and
    address arithmetic wraps. */
module BumpHeap {
  import opened Common
  import opened GuestMemory

  const WORD: nat := 0x1_0000_0000
  const PAGE: nat := 65536
  const HEADER: nat := 16

  /** An allocation: where its header and its data are. The list of blocks exists only in the model. */
  datatype Block = Block(hdr: nat, data: nat, size: nat, align: nat)

  /** heapTop is 0 until the first allocation; heapEnd is the memory's size cut to 32 bits. */
  datatype Heap = Heap(mem: seq<byte>, base: nat, top: nat, end: nat, blocks: seq<Block>)

  function Wrap(n: nat): (r: nat)
    ensures r < WORD && (n < WORD ==> r == n)
  {
    n % WORD
  }

  lemma AtLeast(k: int, m: nat)
    requires m > 0
    ensures k >= 1 ==> k * m >= m
    ensures k <= -1 ==> k * m <= 0 - m
  {
  }

  /** Quotient and remainder are unique. */
  lemma Euclid(x: nat, m: nat, q: int, r: int)
    requires m > 0 && x == q * m + r && 0 <= r < m
    ensures x / m == q && x % m == r
  {
    var k := x / m - q;
    assert k * m == x / m * m - q * m;
    AtLeast(k, m);
  }

  lemma NextMultiple(x: nat, m: nat)
    requires m > 0 && x % m == 0
    ensures (x + m) % m == 0
  {
    Euclid(x + m, m, x / m + 1, 0);
  }

  /** The largest multiple of m not above w. */
  function Floor(w: nat, m: nat): (r: nat)
    requires m > 0
    ensures r <= w < r + m && r % m == 0
    decreases w
  {
    if w < m then
      Euclid(0, m, 0, 0);
      0
    else
      NextMultiple(Floor(w - m, m), m);
      Floor(w - m, m) + m
  }

  /** `(v + (a-1)) & ~(a-1)` on 32 bits, for a power of two a; from 2 to the 32 up the mask is all ones. */
  function AlignUp(v: nat, a: nat): (r: nat)
    requires a > 0
    ensures r < WORD && r % Min(a, WORD) == 0
  {
    Floor(Wrap(v + (Min(a, WORD) - 1)), Min(a, WORD))
  }

  /** The same on unbounded integers. */
  function AlignExact(v: nat, a: nat): (r: nat)
    requires a > 0
    ensures v <= r < v + a && r % a == 0
  {
    Floor(v + (a - 1), a)
  }

  lemma {:induction false} FloorReaches(w: nat, m: nat, q: nat)
    requires m > 0 && q * m <= w
    ensures Floor(w, m) >= q * m
    decreases q
  {
    if q > 0 {
      assert q * m == (q - 1) * m + m;
      FloorReaches(w - m, m, q - 1);
    }
  }

  function Two(k: nat): (n: nat)
    ensures n > 0
  {
    if k == 0 then 1 else 2 * Two(k - 1)
  }

  ghost predicate PowerOfTwo(a: nat) { exists k: nat :: a == Two(k) }

  lemma {:induction false} TwoSum(j: nat, k: nat)
    ensures Two(j + k) == Two(j) * Two(k)
    decreases j
  {
    if j > 0 { TwoSum(j - 1, k); }
  }

  lemma TwoPowers()
    ensures Two(3) == 8 && Two(32) == WORD
  {
    assert Two(8) == 256;
    TwoSum(8, 8);
    TwoSum(16, 16);
  }

  /** A power of two up to 2 to the 32 divides it. */
  lemma Divides(a: nat) returns (q: nat)
    requires PowerOfTwo(a)
    ensures a <= WORD ==> q * a == WORD
  {
    var k: nat :| a == Two(k);
    TwoPowers();
    if k <= 32 {
      TwoSum(32 - k, k);
      q := Two(32 - k);
    } else {
      TwoSum(k - 32, 32);
      AtLeast(Two(k - 32) - 1, WORD);
      q := 0;
    }
  }

  /** A sum past 32 bits rounds to at least 2 to the 32, which is itself a multiple. */
  lemma AlignPasses(v: nat, a: nat)
    requires PowerOfTwo(a) && a <= WORD && v + (a - 1) >= WORD
    ensures AlignExact(v, a) >= WORD
  {
    var q := Divides(a);
    FloorReaches(v + (a - 1), a, q);
  }

  /** Rounding up agrees with unbounded integers unless the result passes 32 bits, when it is 0. */
  lemma AlignWraps(v: nat, a: nat)
    requires v < WORD && PowerOfTwo(a)
    ensures AlignExact(v, a) < WORD ==> AlignUp(v, a) == AlignExact(v, a)
    ensures AlignExact(v, a) >= WORD ==> AlignUp(v, a) == 0
  {
    if v + (a - 1) >= WORD && a <= WORD { AlignPasses(v, a); }
  }

  // ---- the operations ------------------------------------------------------------

  /** ensure_init. */
  function Ready(h: Heap): Heap {
    if h.top != 0 then h else h.(top := h.base, end := Wrap(|h.mem|))
  }

  function PagesFor(h: Heap, newTop: nat): nat
    requires newTop > h.end
  {
    Wrap(newTop - h.end + (PAGE - 1)) / PAGE
  }

  /** memory.grow by some pages: the host may refuse, and must past 65536 pages. */
  predicate Granted(h: Heap, pages: nat, grant: bool) { grant && |h.mem| + pages * PAGE <= WORD }

  /** grow_to; None when the host refuses. */
  function GrowTo(h: Heap, newTop: nat, grant: bool): (Heap, bool) {
    if newTop <= h.end then (h, true)
    else
      var pages := PagesFor(h, newTop);
      if Granted(h, pages, grant) then
        var mem := h.mem + Zeros(pages * PAGE);
        (h.(mem := mem, end := Wrap(|mem|)), true)
      else (h, false)
  }

  function Effective(align: nat): (a: nat)
    ensures a >= 8
  {
    if align < 8 then 8 else align
  }

  /** What a caller may ask for: any alignment below 8, or a power of two. */
  ghost predicate Askable(align: nat) { align < 8 || PowerOfTwo(align) }

  lemma EffectivePower(align: nat)
    requires Askable(align)
    ensures PowerOfTwo(Effective(align)) && PowerOfTwo(8)
  {
    TwoPowers();
  }

  /** Where the next allocation would go, on 32-bit arithmetic. */
  function Placed(top: nat, size: nat, align: nat): Block {
    var hdr := AlignUp(top, 8);
    Block(hdr, AlignUp(Wrap(hdr + HEADER), Effective(align)), size, Effective(align))
  }

  function HeaderBytes(b: Block): (bs: seq<byte>)
    ensures |bs| == HEADER
  {
    LittleEndian(b.size, 8) + LittleEndian(b.align, 8)
  }

  /** bump_alloc: the new heap and the pointer, 0 when growth was refused. */
  function Alloc(h: Heap, size: nat, align: nat, grant: bool): (Heap, nat) {
    var ready := Ready(h);
    var b := Placed(ready.top, size, align);
    var newTop := Wrap(b.data + size);
    var (grown, ok) := GrowTo(ready, newTop, grant);
    if !ok then (grown, 0)
    else (grown.(mem := Store(grown.mem, b.hdr, HeaderBytes(b)), top := newTop, blocks := grown.blocks + [b]), b.data)
  }

  predicate Refused(h: Heap, size: nat, align: nat, grant: bool) {
    var ready := Ready(h);
    !GrowTo(ready, Wrap(Placed(ready.top, size, align).data + size), grant).1
  }

  /** The loop of bump_realloc: n bytes in ascending order, one at a time. An access outside memory
      would trap; ReallocInBounds shows that none occurs. */
  function CopyUp(mem: seq<byte>, src: nat, dst: nat, n: nat): (r: seq<byte>)
    ensures |r| == |mem|
  {
    if n == 0 then mem
    else
      var was := CopyUp(mem, src, dst, n - 1);
      if src + n <= |mem| && dst + n <= |mem| then was[dst + n - 1 := was[src + n - 1]] else was
  }

  /** The size field of the header bump_realloc looks for, sixteen bytes below the pointer. */
  function SizeAt(mem: seq<byte>, ptr: nat): nat
    requires HEADER <= ptr <= |mem|
  {
    FromLittleEndian(mem[ptr - HEADER..ptr - HEADER + 8])
  }

  /** bump_realloc of a block: a new block, and as many bytes as the smaller of the sizes. */
  function Realloc(h: Heap, ptr: nat, newSize: nat, align: nat, grant: bool): (Heap, nat)
    requires HEADER <= ptr <= |h.mem|
  {
    var oldSize := SizeAt(h.mem, ptr);
    var (n, np) := Alloc(h, newSize, align, grant);
    if np == 0 then (n, 0) else (n.(mem := CopyUp(n.mem, ptr, np, Min(oldSize, newSize))), np)
  }

  // ---- the invariant -----------------------------------------------------------------

  /** Header and data lie, aligned and in order, between two bounds. */
  predicate InPlace(b: Block, lo: nat, hi: nat) {
    && lo <= b.hdr && b.hdr % 8 == 0 && b.hdr + HEADER <= b.data
    && b.align >= 8 && b.data % b.align == 0 && b.data + b.size <= hi
  }

  predicate AllInPlace(blocks: seq<Block>, lo: nat, hi: nat) {
    forall i :: 0 <= i < |blocks| ==> InPlace(blocks[i], lo, hi)
  }

  predicate Ordered(blocks: seq<Block>) {
    forall i, j :: 0 <= i < j < |blocks| ==> blocks[i].data + blocks[i].size <= blocks[j].hdr
  }

  predicate Headed(mem: seq<byte>, b: Block) {
    b.hdr + HEADER <= |mem| && mem[b.hdr..b.hdr + HEADER] == HeaderBytes(b)
  }

  predicate AllHeaded(mem: seq<byte>, blocks: seq<Block>) {
    forall i :: 0 <= i < |blocks| ==> Headed(mem, blocks[i])
  }

  predicate Bounds(h: Heap) {
    && PAGE <= |h.mem| <= WORD && 0 < h.base <= |h.mem| && h.base < WORD
    && (h.top == 0 ==> h.blocks == [])
    && (h.top > 0 ==> h.base <= h.top <= |h.mem| && h.top < WORD && h.end == Wrap(|h.mem|))
  }

  predicate Inv(h: Heap) {
    Bounds(h) && AllInPlace(h.blocks, h.base, h.top) && Ordered(h.blocks) && AllHeaded(h.mem, h.blocks)
  }

  // ---- allocation -----------------------------------------------------------------------

  /** Where the allocation ends on unbounded integers: what a caller can compute beforehand. */
  function EndExact(top: nat, size: nat, align: nat): nat {
    AlignExact(AlignExact(top, 8) + HEADER, Effective(align)) + size
  }

  predicate Fits(h: Heap, size: nat, align: nat) { EndExact(Ready(h).top, size, align) < WORD }

  lemma PlacedFits(top: nat, size: nat, align: nat)
    requires 0 < top < WORD && Askable(align) && EndExact(top, size, align) < WORD
    ensures var b := Placed(top, size, align);
      b.hdr == AlignExact(top, 8) && InPlace(b, top, b.data + size) && b.data + size == EndExact(top, size, align)
  {
    EffectivePower(align);
    AlignWraps(top, 8);
    AlignWraps(AlignExact(top, 8) + HEADER, Effective(align));
  }

  /** When the exact end does not fit in 32 bits, the machine's placement is out of order somewhere. */
  lemma PlacedWraps(top: nat, size: nat, align: nat)
    requires 0 < top < WORD && Askable(align) && EndExact(top, size, align) >= WORD
    ensures var b := Placed(top, size, align);
      !(top <= b.hdr && b.hdr + HEADER <= b.data && b.data + size <= Wrap(b.data + size))
  {
    EffectivePower(align);
    AlignWraps(top, 8);
    var hdr := AlignExact(top, 8);
    if hdr + HEADER < WORD { AlignWraps(hdr + HEADER, Effective(align)); }
  }

  /** The memory is at least as large as the new top afterwards, and never shrinks. */
  lemma GrowReaches(h: Heap, newTop: nat, grant: bool)
    requires Bounds(h) && h.top > 0 && 0 < newTop < WORD && GrowTo(h, newTop, grant).1
    ensures var g := GrowTo(h, newTop, grant).0;
      && |h.mem| <= |g.mem| <= WORD && newTop <= |g.mem| && g.end == Wrap(|g.mem|)
      && g.mem[..|h.mem|] == h.mem
      && g == h.(mem := g.mem, end := g.end)
  {
  }

  lemma ReadyBounds(h: Heap)
    requires Bounds(h)
    ensures Bounds(Ready(h)) && Ready(h).top > 0 && Ready(h).end == Wrap(|h.mem|)
    ensures h.top > 0 ==> Ready(h) == h
    ensures Ready(h) == h.(top := Ready(h).top, end := Ready(h).end)
  {
  }

  /** A new block that is aligned, above everything allocated before, and below a top within memory. */
  predicate Sound(h: Heap, r: Heap) {
    && r.top <= |r.mem| && |r.blocks| == |h.blocks| + 1
    && InPlace(r.blocks[|h.blocks|], Ready(h).top, r.top)
  }

  lemma FittingIsSound(h: Heap, size: nat, align: nat, grant: bool)
    requires Inv(h) && Askable(align) && !Refused(h, size, align, grant) && Fits(h, size, align)
    ensures Sound(h, Alloc(h, size, align, grant).0)
  {
    ReadyBounds(h);
    PlacedFits(Ready(h).top, size, align);
    GrowReaches(Ready(h), EndExact(Ready(h).top, size, align), grant);
  }

  lemma WrappingIsUnsound(h: Heap, size: nat, align: nat, grant: bool)
    requires Inv(h) && Askable(align) && !Refused(h, size, align, grant) && !Fits(h, size, align)
    ensures !Sound(h, Alloc(h, size, align, grant).0)
  {
    ReadyBounds(h);
    PlacedWraps(Ready(h).top, size, align);
  }

  /** An allocation the host does not refuse is sound exactly when its end fits in 32 bits; a caller can
      tell from the heap's top, the size and the alignment. A larger one wraps and corrupts the heap. */
  lemma SoundExactlyWhenItFits(h: Heap, size: nat, align: nat, grant: bool)
    requires Inv(h) && Askable(align) && !Refused(h, size, align, grant)
    ensures Sound(h, Alloc(h, size, align, grant).0) <==> Fits(h, size, align)
  {
    if Fits(h, size, align) {
      FittingIsSound(h, size, align, grant);
    } else {
      WrappingIsUnsound(h, size, align, grant);
    }
  }

  /** An 8-aligned block on an aligned top: its header there, its data right behind. */
  lemma TightPlaced(top: nat, size: nat, align: nat)
    requires align == 8 && 0 < top && top % 8 == 0 && top + HEADER < WORD
    ensures Askable(align) && EndExact(top, size, align) == top + HEADER + size
    ensures Placed(top, size, align) == Block(top, top + HEADER, size, align)
  {
    assert PowerOfTwo(align) by { TwoPowers(); assert align == Two(3); }
    EightAlready(top);
    SixteenMore(top);
    EightAlready(top + HEADER);
    PlacedAt(top, align);
  }

  lemma WrapsOnce(n: nat, size: nat)
    requires n < WORD && size == WORD
    ensures Wrap(n + size) == n
  {
  }

  /** Such a request need not be refused: on any heap with room for one more header, 4 GiB are granted
      without growth, and the pointer is returned with not one byte reserved behind it. */
  lemma HugeRequestIsGranted(h: Heap, size: nat, align: nat)
    requires Inv(h) && h.top > 0 && h.top % 8 == 0 && h.top + HEADER <= h.end && size == WORD && align == 8
    ensures Askable(align) && !Refused(h, size, align, false) && !Fits(h, size, align)
    ensures var (r, p) := Alloc(h, size, align, false); p == h.top + HEADER == r.top && !Sound(h, r)
  {
    ReadyBounds(h);
    TightPlaced(h.top, size, align);
    WrapsOnce(h.top + HEADER, size);
    SoundExactlyWhenItFits(h, size, align, false);
  }

  lemma EightAlready(top: nat)
    requires top % 8 == 0
    ensures AlignExact(top, 8) == top
  {
    var r := AlignExact(top, 8);
    assert top <= r < top + 8 && r % 8 == 0;
  }

  /** A refusal leaves memory, blocks and heap bounds as they were. */
  lemma RefusalChangesNothing(h: Heap, size: nat, align: nat, grant: bool)
    requires Refused(h, size, align, grant)
    ensures Alloc(h, size, align, grant) == (Ready(h), 0)
    ensures h.top > 0 ==> Alloc(h, size, align, grant) == (h, 0)
  {
  }

  /** The memory an allocation that fits is placed in. */
  lemma AllocGrows(h: Heap, size: nat, align: nat, grant: bool)
    requires Inv(h) && Askable(align) && Fits(h, size, align) && !Refused(h, size, align, grant)
    ensures var b := Placed(Ready(h).top, size, align);
      var g := GrowTo(Ready(h), b.data + size, grant).0;
      && InPlace(b, Ready(h).top, b.data + size) && b.data + size < WORD
      && b.data + size <= |g.mem| <= WORD && |h.mem| <= |g.mem|
      && g.end == Wrap(|g.mem|) && g.mem[..|h.mem|] == h.mem && g.base == h.base && g.blocks == h.blocks
  {
    ReadyBounds(h);
    PlacedFits(Ready(h).top, size, align);
    GrowReaches(Ready(h), EndExact(Ready(h).top, size, align), grant);
  }

  lemma AllocIs(h: Heap, size: nat, align: nat, grant: bool)
    requires Inv(h) && Askable(align) && Fits(h, size, align) && !Refused(h, size, align, grant)
    ensures var b := Placed(Ready(h).top, size, align);
      var g := GrowTo(Ready(h), b.data + size, grant).0;
      Alloc(h, size, align, grant)
      == (Heap(Store(g.mem, b.hdr, HeaderBytes(b)), h.base, b.data + size, g.end, h.blocks + [b]), b.data)
  {
    AllocGrows(h, size, align, grant);
  }

  /** Every byte of memory after an allocation that fits: the new header's, the old ones, zeros where it grew. */
  lemma AllocBytes(h: Heap, size: nat, align: nat, grant: bool, k: nat)
    requires Inv(h) && Askable(align) && Fits(h, size, align) && !Refused(h, size, align, grant)
    ensures var r, b := Alloc(h, size, align, grant).0, Placed(Ready(h).top, size, align);
      k < |r.mem| ==> r.mem[k] == if b.hdr <= k < b.hdr + HEADER then HeaderBytes(b)[k - b.hdr]
                                  else if k < |h.mem| then h.mem[k] else 0
  {
    AllocGrows(h, size, align, grant);
    AllocIs(h, size, align, grant);
    var b := Placed(Ready(h).top, size, align);
    var g := GrowTo(Ready(h), b.data + size, grant).0;
    if k < |g.mem| { StoreEffect(g.mem, b.hdr, HeaderBytes(b), k); }
    if k < |h.mem| { assert g.mem[k] == g.mem[..|h.mem|][k]; }
  }

  /** An allocation that fits: where its block is, and that no byte below the old top changes. */
  lemma AllocEffect(h: Heap, size: nat, align: nat, grant: bool)
    requires Inv(h) && Askable(align) && Fits(h, size, align) && !Refused(h, size, align, grant)
    ensures var (r, p) := Alloc(h, size, align, grant);
      var b := Placed(Ready(h).top, size, align);
      && r.blocks == h.blocks + [b] && p == b.data && InPlace(b, Ready(h).top, r.top)
      && r.top == b.data + size && r.top <= |r.mem| && |h.mem| <= |r.mem|
      && Headed(r.mem, b) && Bounds(r)
      && forall k :: 0 <= k < Ready(h).top ==> r.mem[k] == h.mem[k]
  {
    ReadyBounds(h);
    AllocGrows(h, size, align, grant);
    AllocIs(h, size, align, grant);
    var r, b := Alloc(h, size, align, grant).0, Placed(Ready(h).top, size, align);
    forall k | 0 <= k < Ready(h).top ensures r.mem[k] == h.mem[k] { AllocBytes(h, size, align, grant, k); }
    forall k | b.hdr <= k < b.hdr + HEADER ensures r.mem[k] == HeaderBytes(b)[k - b.hdr] {
      AllocBytes(h, size, align, grant, k);
    }
  }

  /** Bytes below the old top that stay the same keep every old header. */
  lemma HeadersKept(mem: seq<byte>, after: seq<byte>, blocks: seq<Block>, lo: nat, top: nat)
    requires AllInPlace(blocks, lo, top) && AllHeaded(mem, blocks) && top <= |mem| && top <= |after|
    requires forall k :: 0 <= k < top ==> after[k] == mem[k]
    ensures AllHeaded(after, blocks)
  {
  }

  lemma BlocksExtend(blocks: seq<Block>, b: Block, lo: nat, top: nat, hi: nat)
    requires AllInPlace(blocks, lo, top) && Ordered(blocks) && InPlace(b, top, hi) && lo <= top <= hi
    ensures AllInPlace(blocks + [b], lo, hi) && Ordered(blocks + [b])
  {
  }

  lemma AllocInv(h: Heap, size: nat, align: nat, grant: bool)
    requires Inv(h) && Askable(align) && Fits(h, size, align)
    ensures Inv(Alloc(h, size, align, grant).0)
  {
    ReadyBounds(h);
    if Refused(h, size, align, grant) {
      RefusalChangesNothing(h, size, align, grant);
    } else {
      AllocEffect(h, size, align, grant);
      var r, ready := Alloc(h, size, align, grant).0, Ready(h);
      var b := Placed(ready.top, size, align);
      BlocksExtend(h.blocks, b, h.base, ready.top, r.top);
      HeadersKept(h.mem, r.mem, h.blocks, h.base, ready.top);
    }
  }

  // ---- reallocation ------------------------------------------------------------------------

  function Contents(mem: seq<byte>, b: Block): seq<byte>
    requires b.data + b.size <= |mem|
  {
    mem[b.data..b.data + b.size]
  }

  /** The copy writes its own range only, whatever its source. */
  lemma {:induction false} CopyStaysPut(mem: seq<byte>, src: nat, dst: nat, n: nat)
    requires dst + n <= |mem|
    ensures forall k :: 0 <= k < |mem| && !(dst <= k < dst + n) ==> CopyUp(mem, src, dst, n)[k] == mem[k]
  {
    if n > 0 { CopyStaysPut(mem, src, dst, n - 1); }
  }

  /** The header is right below the data. */
  predicate Adjacent(b: Block) { b.data == b.hdr + HEADER }

  /** A new block's header touches its data exactly when the address after the header is aligned already,
      which it always is for alignments up to 8. */
  lemma AdjacentExactly(top: nat, size: nat, align: nat)
    requires 0 < top < WORD && Askable(align) && EndExact(top, size, align) < WORD
    ensures Adjacent(Placed(top, size, align)) <==> (AlignExact(top, 8) + HEADER) % Effective(align) == 0
    ensures align <= 8 ==> Adjacent(Placed(top, size, align))
  {
    EffectivePower(align);
    PlacedAt(top, align);
    var hdr, a := AlignExact(top, 8), Effective(align);
    AlignedAlready(hdr + HEADER, a);
    assert a == 8 ==> (hdr + HEADER) % a == 0 by { SixteenMore(hdr); }
    assert Placed(top, size, align) == Block(hdr, AlignExact(hdr + HEADER, a), size, a);
  }

  lemma SixteenMore(x: nat)
    requires x % 8 == 0
    ensures (x + HEADER) % 8 == 0
  {
  }

  lemma PlacedAt(top: nat, align: nat)
    requires 0 < top < WORD && PowerOfTwo(Effective(align)) && PowerOfTwo(8)
    requires AlignExact(AlignExact(top, 8) + HEADER, Effective(align)) < WORD
    ensures AlignUp(top, 8) == AlignExact(top, 8)
    ensures AlignUp(Wrap(AlignUp(top, 8) + HEADER), Effective(align))
         == AlignExact(AlignExact(top, 8) + HEADER, Effective(align))
  {
    AlignWraps(top, 8);
    AlignWraps(AlignExact(top, 8) + HEADER, Effective(align));
  }

  lemma AlignedAlready(x: nat, a: nat)
    requires a > 0
    ensures AlignExact(x, a) == x <==> x % a == 0
  {
    var r := AlignExact(x, a);
    if x % a == 0 {
      var k := r / a - x / a;
      assert r == r / a * a && x == x / a * a && k * a == r - x;
      AtLeast(k, a);
    }
  }

  lemma Pow256Is()
    ensures Pow256(8) == 0x1_0000_0000_0000_0000
  {
  }

  lemma SizeFieldReadsBack(mem: seq<byte>, b: Block)
    requires Headed(mem, b) && b.size < 0x1_0000_0000_0000_0000 && b.align < 0x1_0000_0000_0000_0000
    ensures FromLittleEndian(mem[b.hdr..b.hdr + 8]) == b.size
    ensures FromLittleEndian(mem[b.hdr + 8..b.hdr + 16]) == b.align
  {
    Pow256Is();
    LittleEndianRoundTrip(b.size, 8);
    LittleEndianRoundTrip(b.align, 8);
    var hb := mem[b.hdr..b.hdr + HEADER];
    assert mem[b.hdr..b.hdr + 8] == hb[..8] == LittleEndian(b.size, 8);
    assert mem[b.hdr + 8..b.hdr + 16] == hb[8..] == LittleEndian(b.align, 8);
  }

  lemma HalfwayToSixteen(hdr: nat)
    requires hdr % 16 == 8
    ensures AlignExact(hdr + HEADER, 16) == hdr + HEADER + 8
  {
  }

  lemma SixteenPlaced(top: nat, size: nat)
    requires 0 < top < WORD && EndExact(top, size, 16) < WORD && AlignExact(top, 8) % 16 == 8
    ensures PowerOfTwo(16) && Placed(top, size, 16).data == Placed(top, size, 16).hdr + HEADER + 8
  {
    assert PowerOfTwo(16) by { assert Two(4) == 16; }
    EffectivePower(16);
    PlacedAt(top, 16);
    HalfwayToSixteen(AlignExact(top, 8));
  }

  /** The copy of a reallocation, of any block, reads and writes inside memory: it cannot trap. */
  lemma ReallocInBounds(h: Heap, i: nat, newSize: nat, align: nat, grant: bool)
    requires Inv(h) && i < |h.blocks| && Askable(align) && Fits(h, newSize, align)
    requires !Refused(h, newSize, align, grant)
    ensures var p := h.blocks[i].data;
      var (n, np) := Alloc(h, newSize, align, grant);
      HEADER <= p < np && p + newSize <= np + newSize <= |n.mem|
  {
    AllocEffect(h, newSize, align, grant);
    assert InPlace(h.blocks[i], h.base, h.top);
  }

  /** A reallocation that fits keeps the invariant, for any block and alignment, and leaves every block
      that existed, the reallocated one included, byte for byte as it was. */
  lemma ReallocKeeps(h: Heap, i: nat, newSize: nat, align: nat, grant: bool)
    requires Inv(h) && i < |h.blocks| && Askable(align) && Fits(h, newSize, align)
    ensures HEADER <= h.blocks[i].data <= |h.mem|
    ensures var r := Realloc(h, h.blocks[i].data, newSize, align, grant).0;
      && Inv(r) && h.blocks <= r.blocks && |h.mem| <= |r.mem|
      && forall k :: 0 <= k < h.top ==> r.mem[k] == h.mem[k]
  {
    var b := h.blocks[i];
    assert InPlace(b, h.base, h.top);
    AllocInv(h, newSize, align, grant);
    if Refused(h, newSize, align, grant) {
      RefusalChangesNothing(h, newSize, align, grant);
    } else {
      AllocEffect(h, newSize, align, grant);
      var (n, np) := Alloc(h, newSize, align, grant);
      var count := Min(SizeAt(h.mem, b.data), newSize);
      CopyStaysPut(n.mem, b.data, np, count);
      CopyKeepsInv(n, b.data, np, count);
    }
  }

  /** Writing inside the last block disturbs no header. */
  lemma CopyKeepsInv(h: Heap, src: nat, dst: nat, n: nat)
    requires Inv(h) && |h.blocks| > 0
    requires var b := h.blocks[|h.blocks| - 1]; dst == b.data && n <= b.size
    ensures Inv(h.(mem := CopyUp(h.mem, src, dst, n)))
  {
  }

  // ---- any sequence of calls and client writes ------------------------------------------------

  datatype Step =
    | New(size: nat, align: nat, grant: bool)
    | Resize(block: nat, size: nat, align: nat, grant: bool)
    | Free(block: nat)
    | Write(block: nat, offset: nat, bytes: seq<byte>)

  /** What clients keep to: blocks they were given, writes inside them, requests that fit in 32 bits. */
  ghost predicate Legal(h: Heap, s: Step) {
    match s
    case New(size, align, _) => Askable(align) && Fits(h, size, align)
    case Resize(i, size, align, _) => i < |h.blocks| && Askable(align) && Fits(h, size, align)
    case Free(i) => i < |h.blocks|
    case Write(i, offset, bytes) => i < |h.blocks| && offset + |bytes| <= h.blocks[i].size
  }

  ghost function Next(h: Heap, s: Step): Heap
    requires Inv(h) && Legal(h, s)
  {
    match s
    case New(size, align, grant) => Alloc(h, size, align, grant).0
    case Resize(i, size, align, grant) =>
      assert InPlace(h.blocks[i], h.base, h.top);
      Realloc(h, h.blocks[i].data, size, align, grant).0
    case Free(_) => h
    case Write(i, offset, bytes) => h.(mem := Store(h.mem, h.blocks[i].data + offset, bytes))
  }

  /** Blocks come one after another: neither a header nor data of one meets the other. */
  lemma Disjoint(h: Heap, i: nat, j: nat)
    requires Inv(h) && i < |h.blocks| && j < |h.blocks| && i != j
    ensures var b, c := h.blocks[i], h.blocks[j];
      b.hdr < b.data && c.hdr < c.data && (b.data + b.size <= c.hdr || c.data + c.size <= b.hdr)
  {
  }

  lemma StoreSpares(mem: seq<byte>, at: nat, bs: seq<byte>, lo: nat, hi: nat)
    requires at + |bs| <= |mem| && lo <= hi <= |mem| && (hi <= at || at + |bs| <= lo)
    ensures Store(mem, at, bs)[lo..hi] == mem[lo..hi]
  {
  }

  /** A client's write inside one block changes no header and no other block. */
  lemma WriteSpares(h: Heap, i: nat, offset: nat, bytes: seq<byte>, j: nat)
    requires Inv(h) && i < |h.blocks| && offset + |bytes| <= h.blocks[i].size && j < |h.blocks|
    ensures Headed(Store(h.mem, h.blocks[i].data + offset, bytes), h.blocks[j])
    ensures InPlace(h.blocks[j], 0, |h.mem|)
    ensures j != i ==>
      Contents(Store(h.mem, h.blocks[i].data + offset, bytes), h.blocks[j]) == Contents(h.mem, h.blocks[j])
  {
    var b, c := h.blocks[i], h.blocks[j];
    assert InPlace(b, h.base, h.top) && InPlace(c, h.base, h.top) && Headed(h.mem, c);
    if j != i {
      Disjoint(h, i, j);
      StoreSpares(h.mem, b.data + offset, bytes, c.data, c.data + c.size);
    }
    StoreSpares(h.mem, b.data + offset, bytes, c.hdr, c.hdr + HEADER);
  }

  lemma WriteKeeps(h: Heap, i: nat, offset: nat, bytes: seq<byte>)
    requires Inv(h) && i < |h.blocks| && offset + |bytes| <= h.blocks[i].size
    ensures Inv(h.(mem := Store(h.mem, h.blocks[i].data + offset, bytes)))
  {
    forall j | 0 <= j < |h.blocks| ensures Headed(Store(h.mem, h.blocks[i].data + offset, bytes), h.blocks[j]) {
      WriteSpares(h, i, offset, bytes, j);
    }
  }

  lemma NewKeeps(h: Heap, size: nat, align: nat, grant: bool)
    requires Inv(h) && Askable(align) && Fits(h, size, align)
    ensures Inv(Alloc(h, size, align, grant).0) && h.blocks <= Alloc(h, size, align, grant).0.blocks
  {
    AllocInv(h, size, align, grant);
    if Refused(h, size, align, grant) {
      RefusalChangesNothing(h, size, align, grant);
    } else {
      AllocEffect(h, size, align, grant);
    }
  }

  /** The invariant is a matter of the heap's parts; what a step does to them is the step's own lemma. */
  lemma NextInv(h: Heap, s: Step)
    requires Inv(h) && Legal(h, s)
    ensures Inv(Next(h, s)) && h.blocks <= Next(h, s).blocks
  {
    match s {
      case New(size, align, grant) => NewKeeps(h, size, align, grant);
      case Resize(i, size, align, grant) => ReallocKeeps(h, i, size, align, grant);
      case Free(_) => assert Next(h, s) == h;
      case Write(i, offset, bytes) =>
        WriteKeeps(h, i, offset, bytes);
        assert Next(h, s) == h.(mem := Store(h.mem, h.blocks[i].data + offset, bytes));
    }
  }

  ghost predicate LegalRun(h: Heap, ss: seq<Step>)
    requires Inv(h)
    decreases |ss|
  {
    |ss| == 0 || (Legal(h, ss[0]) && (NextInv(h, ss[0]); LegalRun(Next(h, ss[0]), ss[1..])))
  }

  ghost function Run(h: Heap, ss: seq<Step>): (r: Heap)
    requires Inv(h) && LegalRun(h, ss)
    ensures Inv(r) && h.blocks <= r.blocks
    decreases |ss|
  {
    if |ss| == 0 then h
    else
      NextInv(h, ss[0]);
      Run(Next(h, ss[0]), ss[1..])
  }

  /** What the first call finds. */
  predicate Fresh(h: Heap) {
    && PAGE <= |h.mem| <= WORD && 0 < h.base <= |h.mem| && h.base < WORD
    && h.top == 0 && h.blocks == []
  }

  /** One block among the others: aligned, in memory, headed by its size and alignment, and apart from
      every other header and data. */
  predicate Apart(r: Heap, i: nat)
    requires i < |r.blocks|
  {
    var b := r.blocks[i];
    && b.hdr % 8 == 0 && b.align > 0 && b.data % b.align == 0
    && b.hdr + HEADER <= b.data && b.data + b.size <= r.top <= |r.mem|
    && r.mem[b.hdr..b.hdr + HEADER] == LittleEndian(b.size, 8) + LittleEndian(b.align, 8)
    && forall j :: 0 <= j < |r.blocks| && j != i ==>
         b.data + b.size <= r.blocks[j].hdr || r.blocks[j].data + r.blocks[j].size <= b.hdr
  }

  lemma InvApart(r: Heap, i: nat)
    requires Inv(r) && i < |r.blocks|
    ensures Apart(r, i)
  {
    assert InPlace(r.blocks[i], r.base, r.top) && Headed(r.mem, r.blocks[i]);
    var b := r.blocks[i];
    forall j | 0 <= j < |r.blocks| && j != i
      ensures b.data + b.size <= r.blocks[j].hdr || r.blocks[j].data + r.blocks[j].size <= b.hdr
    {
      Disjoint(r, i, j);
    }
  }

  /** After any legal sequence of allocations, reallocations, frees and client writes, every block is
      aligned and inside memory, its header holds its size and alignment, and no two blocks meet. */
  lemma EveryRunKeepsBlocksApart(h: Heap, ss: seq<Step>, i: nat)
    requires Fresh(h) && LegalRun(h, ss) && i < |Run(h, ss).blocks|
    ensures Apart(Run(h, ss), i)
  {
    InvApart(Run(h, ss), i);
  }
}
