/** When the allocator refuses and how far it grows memory, in the caller's terms, and where every block of a
    run lies: back to back from the heap's base. */
module BumpLayout {
  import opened Common
  import opened GuestMemory
  import opened BumpHeap
  import opened BumpRealloc

  // ---- growth -------------------------------------------------------------------------------------

  /** Memory of this size, grown by p pages, reaches the end without passing 4 GiB. */
  predicate Reaches(size: nat, end: nat, p: nat) { end <= size + p * PAGE <= WORD }

  /** The least number of whole pages that does: one fewer falls short. */
  predicate LeastPages(size: nat, end: nat, p: nat) { Reaches(size, end, p) && (p > 0 ==> size + (p - 1) * PAGE < end) }

  lemma CeilingPages(need: nat, p: nat)
    requires need > 0 && p == (need + (PAGE - 1)) / PAGE
    ensures p > 0 && (p - 1) * PAGE < need <= p * PAGE
  {
  }

  lemma FewerPages(a: nat, b: nat)
    requires a <= b
    ensures a * PAGE <= b * PAGE
  {
  }

  /** Growth asks for the least number of pages, and fails only when the host refuses or none is enough. */
  lemma GrowsByLeast(h: Heap, newTop: nat, grant: bool)
    requires Bounds(h) && h.top > 0 && h.end == |h.mem| < newTop < WORD
    ensures var (g, ok) := GrowTo(h, newTop, grant);
      && (ok <==> grant && exists p :: Reaches(|h.mem|, newTop, p))
      && (ok ==> exists p: nat :: LeastPages(|h.mem|, newTop, p) && |g.mem| == |h.mem| + p * PAGE)
  {
    var p := PagesFor(h, newTop);
    CeilingPages(newTop - h.end, p);
    assert Reaches(|h.mem|, newTop, p) <==> |h.mem| + p * PAGE <= WORD;
    if q: nat :| Reaches(|h.mem|, newTop, q) {
      FewerPages(p - 1, q);
      FewerPages(p, if q < p then p else q);
    }
    if GrowTo(h, newTop, grant).1 { assert LeastPages(|h.mem|, newTop, p); }
  }

  /** What becomes of a memory of this size when an allocation has to reach end. */
  ghost predicate GrowthAnswer(size: nat, end: nat, grant: bool, ptr: nat, after: nat) {
    && (ptr == 0 <==> end > size && !(grant && exists p :: Reaches(size, end, p)))
    && (ptr != 0 && end <= size ==> after == size)
    && (ptr != 0 && end > size ==> exists p: nat :: LeastPages(size, end, p) && after == size + p * PAGE)
  }

  /** An allocation that fits is refused exactly when it ends beyond memory and the host does not grow memory,
      or could not by whole pages without passing 4 GiB; otherwise memory grows by the least number of pages. */
  lemma RefusedExactly(h: Heap, size: nat, align: nat, grant: bool)
    requires Inv(h) && Askable(align) && Fits(h, size, align) && |h.mem| < WORD
    ensures var (r, ptr) := Alloc(h, size, align, grant);
      GrowthAnswer(|h.mem|, EndExact(Ready(h).top, size, align), grant, ptr, |r.mem|)
  {
    var ready, end := AllocGrowsTo(h, size, align, grant);
    if end > |h.mem| { GrowsByLeast(ready, end, grant); }
  }

  lemma AllocGrowsTo(h: Heap, size: nat, align: nat, grant: bool) returns (ready: Heap, end: nat)
    requires Inv(h) && Askable(align) && Fits(h, size, align) && |h.mem| < WORD
    ensures Bounds(ready) && ready.top > 0 && ready.end == |h.mem| == |ready.mem|
    ensures end == EndExact(Ready(h).top, size, align) && 0 < end < WORD
    ensures Alloc(h, size, align, grant).1 == 0 <==> !GrowTo(ready, end, grant).1
    ensures |Alloc(h, size, align, grant).0.mem| == |GrowTo(ready, end, grant).0.mem|
  {
    ReadyBounds(h);
    ready, end := Ready(h), EndExact(Ready(h).top, size, align);
    PlacedFits(ready.top, size, align);
  }

  lemma PagesSuffice(size: nat, end: nat)
    requires size % PAGE == 0 && size < end < WORD
    ensures exists p :: Reaches(size, end, p)
  {
    var p := (end - size + (PAGE - 1)) / PAGE;
    CeilingPages(end - size, p);
    assert Reaches(size, end, p);
  }

  /** Memory comes in whole pages, and then the host's refusal is the only reason left. */
  lemma RefusedByTheHostAlone(h: Heap, size: nat, align: nat, grant: bool)
    requires Inv(h) && Askable(align) && Fits(h, size, align) && |h.mem| < WORD && |h.mem| % PAGE == 0
    ensures Alloc(h, size, align, grant).1 == 0 <==> EndExact(Ready(h).top, size, align) > |h.mem| && !grant
  {
    RefusedExactly(h, size, align, grant);
    HostAlone(|h.mem|, EndExact(Ready(h).top, size, align), grant, Alloc(h, size, align, grant).1,
              |Alloc(h, size, align, grant).0.mem|);
  }

  lemma HostAlone(size: nat, end: nat, grant: bool, ptr: nat, after: nat)
    requires GrowthAnswer(size, end, grant, ptr, after) && size % PAGE == 0 && end < WORD
    ensures ptr == 0 <==> end > size && !grant
  {
    if end > size { PagesSuffice(size, end); }
  }

  /** A memory of 4 GiB reads as empty in 32 bits: every allocation is refused but one that ends in the last
      page, for which the number of pages wraps to none. */
  lemma FullMemoryRefuses(h: Heap, size: nat, align: nat, grant: bool)
    requires Inv(h) && Askable(align) && Fits(h, size, align) && |h.mem| == WORD
    ensures Alloc(h, size, align, grant).1 == 0 <==> !grant || EndExact(Ready(h).top, size, align) + PAGE <= WORD
  {
    ReadyBounds(h);
    PlacedFits(Ready(h).top, size, align);
  }

  // ---- where the blocks of a run lie ----------------------------------------------------------------

  /** The first multiple of 8 from an address. */
  predicate NextEight(start: nat, hdr: nat) { start <= hdr < start + 8 && hdr % 8 == 0 }

  /** Where block i may start: at the heap's base, or where the block before it ends. */
  function StartOf(blocks: seq<Block>, base: nat, i: nat): nat
    requires i <= |blocks|
  {
    if i == 0 then base else blocks[i - 1].data + blocks[i - 1].size
  }

  /** Back to back, up to the top, which is where the last block ends. */
  predicate Packed(blocks: seq<Block>, base: nat, top: nat) {
    && (forall i :: 0 <= i < |blocks| ==> NextEight(StartOf(blocks, base, i), blocks[i].hdr))
    && (top > 0 ==> top == StartOf(blocks, base, |blocks|))
  }

  lemma PackedMore(blocks: seq<Block>, base: nat, b: Block)
    requires Packed(blocks, base, 0) && NextEight(StartOf(blocks, base, |blocks|), b.hdr)
    ensures Packed(blocks + [b], base, b.data + b.size)
  {
  }

  /** The block an allocation makes is the one asked for, at the next place. */
  predicate Asked(h: Heap, r: Heap, ptr: nat, size: nat, align: nat) {
    && |r.blocks| == |h.blocks| + 1 && r.blocks == h.blocks + [r.blocks[|h.blocks|]] && r.base == h.base
    && var b := r.blocks[|h.blocks|];
       && b.size == size && b.align == (if align < 8 then 8 else align) && b.data == ptr != 0
       && NextEight(if h.top == 0 then h.base else h.top, b.hdr) && r.top == b.data + size
  }

  lemma BlockIsAsAsked(h: Heap, size: nat, align: nat, grant: bool)
    requires Inv(h) && Askable(align) && Fits(h, size, align) && !Refused(h, size, align, grant)
    ensures Asked(h, Alloc(h, size, align, grant).0, Alloc(h, size, align, grant).1, size, align)
  {
    ReadyBounds(h);
    AllocEffect(h, size, align, grant);
    PlacedFits(Ready(h).top, size, align);
    AllocIs(h, size, align, grant);
  }

  lemma AllocPacked(h: Heap, size: nat, align: nat, grant: bool)
    requires Inv(h) && Packed(h.blocks, h.base, h.top) && Askable(align) && Fits(h, size, align)
    ensures var r := Alloc(h, size, align, grant).0; Packed(r.blocks, r.base, r.top) && r.base == h.base
  {
    if Refused(h, size, align, grant) {
      RefusalChangesNothing(h, size, align, grant);
    } else {
      BlockIsAsAsked(h, size, align, grant);
      AskedPacked(h, Alloc(h, size, align, grant).0, Alloc(h, size, align, grant).1, size, align);
    }
  }

  lemma AskedPacked(h: Heap, r: Heap, ptr: nat, size: nat, align: nat)
    requires Asked(h, r, ptr, size, align) && Packed(h.blocks, h.base, h.top) && (h.top == 0 ==> h.blocks == [])
    ensures Packed(r.blocks, r.base, r.top)
  {
    PackedMore(h.blocks, h.base, r.blocks[|h.blocks|]);
  }

  lemma ResizePacked(h: Heap, i: nat, size: nat, align: nat, grant: bool)
    requires Inv(h) && Packed(h.blocks, h.base, h.top) && i < |h.blocks| && Askable(align) && Fits(h, size, align)
    ensures HEADER <= h.blocks[i].data <= |h.mem|
    ensures var r := Realloc(h, h.blocks[i].data, size, align, grant).0;
      Packed(r.blocks, r.base, r.top) && r.base == h.base
  {
    assert InPlace(h.blocks[i], h.base, h.top);
    AllocPacked(h, size, align, grant);
    ReallocMoves(h, h.blocks[i].data, size, align, grant);
  }

  /** Beside the copy a reallocation does what an allocation does. */
  lemma ReallocMoves(h: Heap, ptr: nat, size: nat, align: nat, grant: bool)
    requires HEADER <= ptr <= |h.mem|
    ensures var (r, p), (n, q) := Realloc(h, ptr, size, align, grant), Alloc(h, size, align, grant);
      p == q && r == n.(mem := r.mem)
  {
  }

  lemma NextPacked(h: Heap, s: Step)
    requires Inv(h) && Packed(h.blocks, h.base, h.top) && Legal(h, s)
    ensures var r := Next(h, s); Packed(r.blocks, r.base, r.top) && r.base == h.base
  {
    match s {
      case New(size, align, grant) => AllocPacked(h, size, align, grant);
      case Resize(i, size, align, grant) => ResizePacked(h, i, size, align, grant);
      case Free(_) => assert Next(h, s) == h;
      case Write(i, offset, bytes) => assert Next(h, s) == h.(mem := Next(h, s).mem);
    }
  }

  lemma {:induction false} RunPacked(h: Heap, ss: seq<Step>)
    requires Inv(h) && Packed(h.blocks, h.base, h.top) && LegalRun(h, ss)
    ensures var r := Run(h, ss); Packed(r.blocks, r.base, r.top) && r.base == h.base
    decreases |ss|
  {
    if |ss| > 0 {
      NextInv(h, ss[0]);
      NextPacked(h, ss[0]);
      RunPacked(Next(h, ss[0]), ss[1..]);
    }
  }

  /** Block i starts less than 8 bytes behind the block before it, and its data less than its alignment
      behind its header; the top is where the last block ends. */
  predicate BackToBack(blocks: seq<Block>, base: nat, top: nat, i: nat)
    requires i < |blocks|
  {
    var start, b := if i == 0 then base else blocks[i - 1].data + blocks[i - 1].size, blocks[i];
    && start <= b.hdr < start + 8 && b.hdr + HEADER <= b.data < b.hdr + HEADER + b.align
    && (i == |blocks| - 1 ==> top == b.data + b.size)
  }

  /** On every legal run the blocks lie so, from the heap's base on: nothing is wasted but what alignment needs. */
  lemma BlocksAreBackToBack(h: Heap, ss: seq<Step>, i: nat)
    requires Fresh(h) && LegalRun(h, ss) && i < |Run(h, ss).blocks|
    ensures BackToBack(Run(h, ss).blocks, h.base, Run(h, ss).top, i)
  {
    RunPacked(h, ss);
    RunFitted(h, ss);
    FittedIsClose(Run(h, ss).blocks[i]);
    PackedBackToBack(Run(h, ss).blocks, h.base, Run(h, ss).top, i);
  }

  lemma FittedIsClose(b: Block)
    requires Fitted(b)
    ensures b.hdr + HEADER <= b.data < b.hdr + HEADER + b.align
  {
  }

  lemma PackedBackToBack(blocks: seq<Block>, base: nat, top: nat, i: nat)
    requires Packed(blocks, base, top) && top > 0 && i < |blocks|
    requires blocks[i].hdr + HEADER <= blocks[i].data < blocks[i].hdr + HEADER + blocks[i].align
    ensures BackToBack(blocks, base, top, i)
  {
    assert NextEight(StartOf(blocks, base, i), blocks[i].hdr);
  }
}
