/** What bump_realloc preserves, for every block: the size it reads depends on the padding between a block's
    header and its data, and so does the number of bytes it copies. */
module BumpRealloc {
  import opened Common
  import opened GuestMemory
  import opened BumpHeap

  // ---- padding stays zero -------------------------------------------------------------

  /** Data on an 8-byte boundary, with nothing but zeros between header and data. */
  predicate Padded(mem: seq<byte>, b: Block) {
    b.data % 8 == 0 && b.data <= |mem| && forall k :: b.hdr + HEADER <= k < b.data ==> mem[k] == 0
  }

  predicate ZeroFrom(mem: seq<byte>, lo: nat) { forall k :: lo <= k < |mem| ==> mem[k] == 0 }

  /** Memory that no block covers yet is zero, as instantiation and memory.grow leave it, and so is padding. */
  predicate Blank(h: Heap) {
    ZeroFrom(h.mem, Ready(h).top) && forall i :: 0 <= i < |h.blocks| ==> Padded(h.mem, h.blocks[i])
  }

  lemma EightTimes(p: nat, n: nat, m: nat)
    requires p == n * (8 * m)
    ensures p % 8 == 0
  {
    assert p == 8 * (n * m);
  }

  lemma MultipleOfEight(p: nat, a: nat)
    requires PowerOfTwo(a) && a >= 8 && p % a == 0
    ensures p % 8 == 0
  {
    var k: nat :| a == Two(k);
    if k < 3 {
      SmallPowers(k);
    } else {
      TwoPowers();
      TwoSum(3, k - 3);
      EightTimes(p, p / a, Two(k - 3));
    }
  }

  lemma SmallPowers(k: nat)
    requires k < 3
    ensures Two(k) < 8
  {
  }

  lemma AllocPadded(h: Heap, size: nat, align: nat, grant: bool)
    requires Inv(h) && Blank(h) && Askable(align) && Fits(h, size, align) && !Refused(h, size, align, grant)
    ensures var r := Alloc(h, size, align, grant).0;
      ZeroFrom(r.mem, r.top) && Padded(r.mem, Placed(Ready(h).top, size, align))
  {
    ReadyBounds(h);
    AllocEffect(h, size, align, grant);
    EffectivePower(align);
    var r, b := Alloc(h, size, align, grant).0, Placed(Ready(h).top, size, align);
    MultipleOfEight(b.data, b.align);
    forall k | b.hdr + HEADER <= k < |r.mem| ensures r.mem[k] == 0 { AllocBytes(h, size, align, grant, k); }
  }

  /** Padding below the old top that stays the same stays zero. */
  lemma PaddingKept(h: Heap, after: seq<byte>)
    requires Inv(h) && Blank(h) && h.top <= |after| && forall k :: 0 <= k < h.top ==> after[k] == h.mem[k]
    ensures forall i :: 0 <= i < |h.blocks| ==> Padded(after, h.blocks[i])
  {
    forall i | 0 <= i < |h.blocks| ensures Padded(after, h.blocks[i]) {
      assert InPlace(h.blocks[i], h.base, h.top) && Padded(h.mem, h.blocks[i]);
    }
  }

  lemma AllocBlank(h: Heap, size: nat, align: nat, grant: bool)
    requires Inv(h) && Blank(h) && Askable(align) && Fits(h, size, align)
    ensures Blank(Alloc(h, size, align, grant).0)
  {
    ReadyBounds(h);
    if Refused(h, size, align, grant) {
      RefusalChangesNothing(h, size, align, grant);
    } else {
      AllocEffect(h, size, align, grant);
      AllocPadded(h, size, align, grant);
      PaddingKept(h, Alloc(h, size, align, grant).0.mem);
    }
  }

  /** A write inside one block touches no padding and nothing above the top. */
  lemma InsideBlank(h: Heap, after: seq<byte>, i: nat)
    requires Inv(h) && Blank(h) && i < |h.blocks| && |after| == |h.mem|
    requires forall k :: 0 <= k < |after| && !(h.blocks[i].data <= k < h.blocks[i].data + h.blocks[i].size) ==>
      after[k] == h.mem[k]
    ensures Blank(h.(mem := after))
  {
    assert InPlace(h.blocks[i], h.base, h.top);
    forall j | 0 <= j < |h.blocks| ensures Padded(after, h.blocks[j]) {
      assert Padded(h.mem, h.blocks[j]) && InPlace(h.blocks[j], h.base, h.top);
      if j != i { Disjoint(h, i, j); }
    }
  }

  lemma ReallocBlank(h: Heap, i: nat, newSize: nat, align: nat, grant: bool)
    requires Inv(h) && Blank(h) && i < |h.blocks| && Askable(align) && Fits(h, newSize, align)
    ensures HEADER <= h.blocks[i].data <= |h.mem|
    ensures Blank(Realloc(h, h.blocks[i].data, newSize, align, grant).0)
  {
    assert InPlace(h.blocks[i], h.base, h.top);
    AllocInv(h, newSize, align, grant);
    AllocBlank(h, newSize, align, grant);
    if !Refused(h, newSize, align, grant) {
      AllocEffect(h, newSize, align, grant);
      var (n, np) := Alloc(h, newSize, align, grant);
      var count := Min(SizeAt(h.mem, h.blocks[i].data), newSize);
      CopyStaysPut(n.mem, h.blocks[i].data, np, count);
      InsideBlank(n, CopyUp(n.mem, h.blocks[i].data, np, count), |h.blocks|);
    } else {
      RefusalChangesNothing(h, newSize, align, grant);
    }
  }

  lemma WriteBlank(h: Heap, i: nat, offset: nat, bytes: seq<byte>)
    requires Inv(h) && Blank(h) && i < |h.blocks| && offset + |bytes| <= h.blocks[i].size
    ensures Blank(h.(mem := Store(h.mem, h.blocks[i].data + offset, bytes)))
  {
    var after := Store(h.mem, h.blocks[i].data + offset, bytes);
    assert InPlace(h.blocks[i], h.base, h.top);
    forall k | 0 <= k < |after| && !(h.blocks[i].data <= k < h.blocks[i].data + h.blocks[i].size)
      ensures after[k] == h.mem[k]
    {
      StoreEffect(h.mem, h.blocks[i].data + offset, bytes, k);
    }
    InsideBlank(h, after, i);
  }

  lemma NextBlank(h: Heap, s: Step)
    requires Inv(h) && Blank(h) && Legal(h, s)
    ensures Blank(Next(h, s))
  {
    match s {
      case New(size, align, grant) => AllocBlank(h, size, align, grant);
      case Resize(i, size, align, grant) => ReallocBlank(h, i, size, align, grant);
      case Free(_) => assert Next(h, s) == h;
      case Write(i, offset, bytes) => WriteBlank(h, i, offset, bytes);
    }
  }

  /** On every legal run that starts on zeroed memory above the heap's base. */
  lemma {:induction false} RunBlank(h: Heap, ss: seq<Step>)
    requires Inv(h) && Blank(h) && LegalRun(h, ss)
    ensures Blank(Run(h, ss))
    decreases |ss|
  {
    if |ss| > 0 {
      NextInv(h, ss[0]);
      NextBlank(h, ss[0]);
      RunBlank(Next(h, ss[0]), ss[1..]);
    }
  }

  // ---- the size that is found ------------------------------------------------------------

  function Gap(b: Block): int { b.data - b.hdr - HEADER }

  /** What bump_realloc takes for the old size: the size of a block without padding, the alignment of one
      with eight bytes of it, and 0 from the padding itself of all others. */
  function Found(b: Block): nat {
    if Gap(b) == 0 then b.size else if Gap(b) == 8 then b.align else 0
  }

  lemma {:induction false} ZeroNumber(bs: seq<byte>)
    requires forall k :: 0 <= k < |bs| ==> bs[k] == 0
    ensures FromLittleEndian(bs) == 0
  {
    if |bs| > 0 { ZeroNumber(bs[1..]); }
  }

  lemma AlignSmall(p: nat, a: nat)
    requires p > 0 && a > 0 && p % a == 0
    ensures a <= p
  {
    if p < a { Euclid(p, a, 0, p); }
  }

  lemma SizeFoundIn(mem: seq<byte>, b: Block)
    requires Headed(mem, b) && b.hdr + HEADER <= b.data <= |mem|
    requires Gap(b) == 0 || Gap(b) == 8 || (Gap(b) >= HEADER && Padded(mem, b))
    requires b.size < 0x1_0000_0000_0000_0000 && b.align < 0x1_0000_0000_0000_0000
    ensures SizeAt(mem, b.data) == Found(b)
  {
    var p := b.data - HEADER;
    if Gap(b) == 0 || Gap(b) == 8 {
      SizeFieldReadsBack(mem, b);
    } else {
      ZeroNumber(mem[p..p + 8]);
    }
  }

  /** The size bump_realloc reads, for any block of a blank heap, and for one with at most eight bytes of
      padding whatever memory holds. */
  lemma SizeFound(h: Heap, i: nat)
    requires Inv(h) && i < |h.blocks| && (Blank(h) || Adjacent(h.blocks[i]) || Gap(h.blocks[i]) == 8)
    ensures HEADER <= h.blocks[i].data <= |h.mem| && SizeAt(h.mem, h.blocks[i].data) == Found(h.blocks[i])
  {
    var b := h.blocks[i];
    assert InPlace(b, h.base, h.top) && Headed(h.mem, b);
    AlignSmall(b.data, b.align);
    if Blank(h) {
      assert Padded(h.mem, b);
      GapCases(b);
    }
    SizeFoundIn(h.mem, b);
  }

  lemma GapCases(b: Block)
    requires b.hdr % 8 == 0 && b.data % 8 == 0 && b.hdr + HEADER <= b.data
    ensures Gap(b) == 0 || Gap(b) == 8 || Gap(b) >= HEADER
  {
  }

  /** On a heap whose top rounds to an odd multiple of 8, a 16-aligned block of any size reads as 16 bytes long. */
  lemma SixteenAlignedIsMisread(h: Heap, size: nat, grant: bool)
    requires Inv(h) && Fits(h, size, 16) && !Refused(h, size, 16, grant) && AlignExact(Ready(h).top, 8) % 16 == 8
    ensures var (r, p) := Alloc(h, size, 16, grant); HEADER <= p <= |r.mem| && SizeAt(r.mem, p) == 16
  {
    ReadyBounds(h);
    SixteenPlaced(Ready(h).top, size);
    AllocEffect(h, size, 16, grant);
    SizeFieldReadsBack(Alloc(h, size, 16, grant).0.mem, Placed(Ready(h).top, size, 16));
  }

  // ---- the bytes that are copied -------------------------------------------------------------

  /** A byte of the copy whose source lies below the destination. */
  lemma {:induction false} CopyAt(mem: seq<byte>, src: nat, dst: nat, n: nat, k: nat)
    requires src + n <= |mem| && dst + n <= |mem| && k < n && src + k < dst
    ensures CopyUp(mem, src, dst, n)[dst + k] == mem[src + k]
    decreases n
  {
    if k == n - 1 {
      CopyStaysPut(mem, src, dst, n - 1);
    } else {
      CopyAt(mem, src, dst, n - 1, k);
    }
  }

  /** How many bytes a reallocation copies. */
  function Copied(b: Block, newSize: nat): nat { Min(Found(b), newSize) }

  function DataAt(mem: seq<byte>, at: nat, n: nat): (bs: seq<byte>)
    requires at + n <= |mem|
    ensures |bs| == n
  {
    mem[at..at + n]
  }

  /** What the copy puts at its destination, as far as the source block goes. */
  lemma CopiedFront(mem: seq<byte>, src: nat, size: nat, dst: nat, n: nat, count: nat)
    requires src + size <= dst && dst + n <= |mem| && count <= n && src + count <= |mem|
    ensures var now, was := DataAt(CopyUp(mem, src, dst, count), dst, n), DataAt(mem, src, size);
      forall k :: 0 <= k < Min(count, size) ==> now[k] == was[k]
  {
    var now, was := DataAt(CopyUp(mem, src, dst, count), dst, n), DataAt(mem, src, size);
    forall k | 0 <= k < Min(count, size) ensures now[k] == was[k] { CopyAt(mem, src, dst, count, k); }
  }

  /** Behind the copy a destination that was zero stays so. */
  lemma CopiedRest(mem: seq<byte>, src: nat, dst: nat, n: nat, count: nat)
    requires dst + n <= |mem| && count <= n && forall k :: dst <= k < dst + n ==> mem[k] == 0
    ensures var now := DataAt(CopyUp(mem, src, dst, count), dst, n); forall k :: count <= k < n ==> now[k] == 0
  {
    var after := CopyUp(mem, src, dst, count);
    CopyStaysPut(mem, src, dst, count);
    forall k | count <= k < n ensures DataAt(after, dst, n)[k] == 0 { assert after[dst + k] == mem[dst + k]; }
  }

  /** A new block's data is zero, whether it lies in old memory or in memory just grown. */
  lemma NewDataIsZero(h: Heap, size: nat, align: nat, grant: bool)
    requires Inv(h) && Blank(h) && Askable(align) && Fits(h, size, align) && !Refused(h, size, align, grant)
    ensures var (n, np) := Alloc(h, size, align, grant);
      np + size <= |n.mem| && forall k :: np <= k < np + size ==> n.mem[k] == 0
  {
    ReadyBounds(h);
    AllocEffect(h, size, align, grant);
    var (n, np) := Alloc(h, size, align, grant);
    forall k | np <= k < np + size ensures n.mem[k] == 0 { AllocBytes(h, size, align, grant, k); }
  }

  /** The old block's bytes and what is found in the new one after a reallocation. */
  function Before(h: Heap, i: nat): seq<byte>
    requires Inv(h) && i < |h.blocks|
  {
    assert InPlace(h.blocks[i], h.base, h.top);
    DataAt(h.mem, h.blocks[i].data, h.blocks[i].size)
  }

  ghost function After(h: Heap, i: nat, newSize: nat, align: nat, grant: bool): (now: seq<byte>)
    requires Inv(h) && i < |h.blocks| && Askable(align) && Fits(h, newSize, align) && !Refused(h, newSize, align, grant)
    ensures |now| == newSize
  {
    ReallocInBounds(h, i, newSize, align, grant);
    var (r, np) := Realloc(h, h.blocks[i].data, newSize, align, grant);
    DataAt(r.mem, np, newSize)
  }

  lemma AfterIs(h: Heap, i: nat, newSize: nat, align: nat, grant: bool)
    requires Inv(h) && i < |h.blocks| && HEADER <= h.blocks[i].data <= |h.mem|
    requires SizeAt(h.mem, h.blocks[i].data) == Found(h.blocks[i])
    requires Askable(align) && Fits(h, newSize, align) && !Refused(h, newSize, align, grant)
    ensures var b, (n, np) := h.blocks[i], Alloc(h, newSize, align, grant);
      && b.data + b.size <= np && np + newSize <= |n.mem|
      && After(h, i, newSize, align, grant) == DataAt(CopyUp(n.mem, b.data, np, Copied(b, newSize)), np, newSize)
      && DataAt(n.mem, b.data, b.size) == Before(h, i)
  {
    var b := h.blocks[i];
    assert InPlace(b, h.base, h.top);
    ReallocInBounds(h, i, newSize, align, grant);
    AllocEffect(h, newSize, align, grant);
  }

  /** The first min(old, new) bytes survive. */
  predicate Preserves(was: seq<byte>, now: seq<byte>) {
    forall k :: 0 <= k < Min(|was|, |now|) ==> now[k] == was[k]
  }

  /** A reallocation's new block starts with the old block's bytes, as many as are copied. */
  lemma ReallocCopies(h: Heap, i: nat, newSize: nat, align: nat, grant: bool)
    requires Inv(h) && i < |h.blocks| && (Blank(h) || Adjacent(h.blocks[i]) || Gap(h.blocks[i]) == 8)
    requires Askable(align) && Fits(h, newSize, align) && !Refused(h, newSize, align, grant)
    ensures var was, now, b := Before(h, i), After(h, i, newSize, align, grant), h.blocks[i];
      && (forall k :: 0 <= k < Min(Copied(b, newSize), b.size) ==> now[k] == was[k])
      && (Adjacent(b) ==> Preserves(was, now))
  {
    var b := h.blocks[i];
    SizeFound(h, i);
    AfterIs(h, i, newSize, align, grant);
    var (n, np) := Alloc(h, newSize, align, grant);
    CopiedFront(n.mem, b.data, b.size, np, newSize, Copied(b, newSize));
  }

  /** On a blank heap the new block is zero behind the copy. */
  lemma ReallocBytes(h: Heap, i: nat, newSize: nat, align: nat, grant: bool)
    requires Inv(h) && Blank(h) && i < |h.blocks| && Askable(align) && Fits(h, newSize, align)
    requires !Refused(h, newSize, align, grant)
    ensures var now, b := After(h, i, newSize, align, grant), h.blocks[i];
      forall k :: Copied(b, newSize) <= k < newSize ==> now[k] == 0
  {
    var b := h.blocks[i];
    SizeFound(h, i);
    AfterIs(h, i, newSize, align, grant);
    NewDataIsZero(h, newSize, align, grant);
    var (n, np) := Alloc(h, newSize, align, grant);
    CopiedRest(n.mem, b.data, np, newSize, Copied(b, newSize));
  }

  /** The number of bytes copied is min(old, new) exactly for blocks without padding, for blocks with eight
      bytes of it whose alignment happens to give the same number, and otherwise when there is nothing to copy. */
  lemma CopiesEnoughExactly(h: Heap, i: nat, newSize: nat)
    requires Inv(h) && Blank(h) && i < |h.blocks|
    ensures var b := h.blocks[i];
      && (Gap(b) == 0 || Gap(b) == 8 || Gap(b) >= HEADER)
      && (Copied(b, newSize) == Min(b.size, newSize) <==>
            || Adjacent(b)
            || (Gap(b) == 8 && Min(b.align, newSize) == Min(b.size, newSize))
            || (Gap(b) >= HEADER && Min(b.size, newSize) == 0))
  {
    var b := h.blocks[i];
    assert InPlace(b, h.base, h.top) && Padded(h.mem, b);
    GapCases(b);
    EnoughExactly(b, newSize);
  }

  lemma EnoughExactly(b: Block, newSize: nat)
    requires Gap(b) == 0 || Gap(b) == 8 || Gap(b) >= HEADER
    ensures Copied(b, newSize) == Min(b.size, newSize) <==>
      || Adjacent(b)
      || (Gap(b) == 8 && Min(b.align, newSize) == Min(b.size, newSize))
      || (Gap(b) >= HEADER && Min(b.size, newSize) == 0)
  {
  }

  /** A reallocation preserves a block's data exactly when all of it that is not copied is zero. */
  lemma ReallocPreservesExactly(h: Heap, i: nat, newSize: nat, align: nat, grant: bool)
    requires Inv(h) && Blank(h) && i < |h.blocks| && Askable(align) && Fits(h, newSize, align)
    requires !Refused(h, newSize, align, grant)
    ensures Preserves(Before(h, i), After(h, i, newSize, align, grant)) <==>
      forall k :: Copied(h.blocks[i], newSize) <= k < Min(h.blocks[i].size, newSize) ==> Before(h, i)[k] == 0
  {
    ReallocCopies(h, i, newSize, align, grant);
    ReallocBytes(h, i, newSize, align, grant);
    PreservesWhenRestIsZero(Before(h, i), After(h, i, newSize, align, grant), Copied(h.blocks[i], newSize));
  }

  lemma PreservesWhenRestIsZero(was: seq<byte>, now: seq<byte>, count: nat)
    requires count <= |now|
    requires forall k :: 0 <= k < Min(count, |was|) ==> now[k] == was[k]
    requires forall k :: count <= k < |now| ==> now[k] == 0
    ensures Preserves(was, now) <==> forall k :: count <= k < Min(|was|, |now|) ==> was[k] == 0
  {
  }

  /** Every state of a legal run that starts on memory zeroed from the heap's base is one of these. */
  lemma EveryRunIsBlank(h: Heap, ss: seq<Step>)
    requires Fresh(h) && ZeroFrom(h.mem, h.base) && LegalRun(h, ss)
    ensures Inv(Run(h, ss)) && Blank(Run(h, ss))
  {
    RunBlank(h, ss);
  }

  // ---- the padding of blocks on reachable heaps ------------------------------------------------

  /** The data starts at the first address after the header that the alignment allows. */
  predicate Fitted(b: Block) { b.align > 0 && b.data == AlignExact(b.hdr + HEADER, b.align) }

  predicate AllFitted(blocks: seq<Block>) { forall i :: 0 <= i < |blocks| ==> Fitted(blocks[i]) }

  lemma PlacedFitted(top: nat, size: nat, align: nat)
    requires 0 < top < WORD && Askable(align) && EndExact(top, size, align) < WORD
    ensures Fitted(Placed(top, size, align))
  {
    EffectivePower(align);
    PlacedAt(top, align);
  }

  lemma AllocFitted(h: Heap, size: nat, align: nat, grant: bool)
    requires Inv(h) && AllFitted(h.blocks) && Askable(align) && Fits(h, size, align)
    ensures AllFitted(Alloc(h, size, align, grant).0.blocks)
  {
    ReadyBounds(h);
    if Refused(h, size, align, grant) {
      RefusalChangesNothing(h, size, align, grant);
    } else {
      AllocEffect(h, size, align, grant);
      PlacedFitted(Ready(h).top, size, align);
    }
  }

  lemma NextFitted(h: Heap, s: Step)
    requires Inv(h) && AllFitted(h.blocks) && Legal(h, s)
    ensures AllFitted(Next(h, s).blocks)
  {
    match s {
      case New(size, align, grant) => AllocFitted(h, size, align, grant);
      case Resize(i, size, align, grant) => AllocFitted(h, size, align, grant);
      case Free(_) => assert Next(h, s) == h;
      case Write(i, offset, bytes) => assert Next(h, s).blocks == h.blocks;
    }
  }

  lemma {:induction false} RunFitted(h: Heap, ss: seq<Step>)
    requires Inv(h) && AllFitted(h.blocks) && LegalRun(h, ss)
    ensures AllFitted(Run(h, ss).blocks)
    decreases |ss|
  {
    if |ss| > 0 {
      NextInv(h, ss[0]);
      NextFitted(h, ss[0]);
      RunFitted(Next(h, ss[0]), ss[1..]);
    }
  }

  predicate PaddedAsNeeded(b: Block) {
    && b.align >= 8 && b.data == AlignExact(b.hdr + HEADER, b.align)
    && (Adjacent(b) <==> (b.hdr + HEADER) % b.align == 0)
    && (b.align == 8 ==> Adjacent(b))
  }

  /** On every legal run a block's padding is fixed by its address and alignment: it has none exactly when
      the header ends on a multiple of the alignment, and never any when that is 8. */
  lemma PaddingOnRuns(h: Heap, ss: seq<Step>, i: nat)
    requires Fresh(h) && LegalRun(h, ss) && i < |Run(h, ss).blocks|
    ensures PaddedAsNeeded(Run(h, ss).blocks[i])
  {
    RunFitted(h, ss);
    BlockPadding(Run(h, ss), i);
  }

  lemma BlockPadding(r: Heap, i: nat)
    requires Inv(r) && i < |r.blocks| && AllFitted(r.blocks)
    ensures PaddedAsNeeded(r.blocks[i])
  {
    var b := r.blocks[i];
    assert InPlace(b, r.base, r.top) && Fitted(b);
    AlignedAlready(b.hdr + HEADER, b.align);
    SixteenMore(b.hdr);
  }

  /** After any legal sequence of calls and writes, reallocating a block that was asked for with an alignment
      of at most 8 preserves its first min(old, new) bytes, whatever it holds and whatever memory held. */
  lemma SmallAlignmentsSurvive(h: Heap, ss: seq<Step>, i: nat, newSize: nat, align: nat, grant: bool)
    requires Fresh(h) && LegalRun(h, ss) && i < |Run(h, ss).blocks| && Run(h, ss).blocks[i].align == 8
    requires Askable(align) && Fits(Run(h, ss), newSize, align) && !Refused(Run(h, ss), newSize, align, grant)
    ensures Preserves(Before(Run(h, ss), i), After(Run(h, ss), i, newSize, align, grant))
  {
    RunFitted(h, ss);
    SmallAlignmentSurvives(Run(h, ss), i, newSize, align, grant);
  }

  lemma SmallAlignmentSurvives(r: Heap, i: nat, newSize: nat, align: nat, grant: bool)
    requires Inv(r) && AllFitted(r.blocks) && i < |r.blocks| && r.blocks[i].align == 8
    requires Askable(align) && Fits(r, newSize, align) && !Refused(r, newSize, align, grant)
    ensures Preserves(Before(r, i), After(r, i, newSize, align, grant))
  {
    BlockPadding(r, i);
    ReallocCopies(r, i, newSize, align, grant);
  }

  /** And for any alignment, on every run over zeroed memory: a reallocation preserves a block exactly when what
      it does not copy is zero, where the copied count follows from the block's address and alignment. */
  lemma ReallocOnRunsExactly(h: Heap, ss: seq<Step>, i: nat, newSize: nat, align: nat, grant: bool)
    requires Fresh(h) && ZeroFrom(h.mem, h.base) && LegalRun(h, ss) && i < |Run(h, ss).blocks|
    requires Askable(align) && Fits(Run(h, ss), newSize, align) && !Refused(Run(h, ss), newSize, align, grant)
    ensures PaddedAsNeeded(Run(h, ss).blocks[i])
    ensures Preserves(Before(Run(h, ss), i), After(Run(h, ss), i, newSize, align, grant)) <==>
      forall k :: Copied(Run(h, ss).blocks[i], newSize) <= k < Min(Run(h, ss).blocks[i].size, newSize) ==>
        Before(Run(h, ss), i)[k] == 0
  {
    PaddingOnRuns(h, ss, i);
    EveryRunIsBlank(h, ss);
    ReallocPreservesExactly(Run(h, ss), i, newSize, align, grant);
  }

  /** The header of a block records the alignment it was asked for with, raised to 8. */
  lemma AlignmentIsRecorded(h: Heap, size: nat, align: nat, grant: bool)
    requires Inv(h) && Askable(align) && Fits(h, size, align) && !Refused(h, size, align, grant)
    ensures var r := Alloc(h, size, align, grant).0;
      |r.blocks| == |h.blocks| + 1 && r.blocks[|h.blocks|].align == Effective(align)
      && (align <= 8 ==> r.blocks[|h.blocks|].align == 8)
  {
    AllocEffect(h, size, align, grant);
  }

  // ---- a loss ----------------------------------------------------------------------------------

  /** A block with eight bytes of padding loses any byte of its data beyond its alignment that is not zero. */
  lemma PaddedLoses(h: Heap, i: nat, newSize: nat, align: nat, grant: bool, k: nat)
    requires Inv(h) && Blank(h) && i < |h.blocks| && Askable(align) && Fits(h, newSize, align)
    requires !Refused(h, newSize, align, grant)
    requires Gap(h.blocks[i]) == 8 && h.blocks[i].align <= k < Min(h.blocks[i].size, newSize) && Before(h, i)[k] != 0
    ensures After(h, i, newSize, align, grant)[k] == 0 && !Preserves(Before(h, i), After(h, i, newSize, align, grant))
  {
    ReallocBytes(h, i, newSize, align, grant);
  }

  /** Where a 16-aligned block goes on a heap whose top is an odd multiple of 8: behind eight bytes of padding. */
  lemma PlacedHalfway(top: nat, size: nat, align: nat)
    requires align == 16 && top % 16 == 8 && top + HEADER + 8 + size < WORD
    ensures Askable(align) && EndExact(top, size, align) == top + HEADER + 8 + size
    ensures Placed(top, size, align) == Block(top, top + HEADER + 8, size, align)
  {
    assert PowerOfTwo(16) by { assert Two(4) == 16; }
    EffectivePower(align);
    EightAlready(top);
    HalfwayToSixteen(top);
    PlacedAt(top, align);
  }

  /** With room for it in memory already, an allocation fits and is not refused. */
  lemma RoomSuffices(h: Heap, size: nat, align: nat)
    requires Inv(h) && Askable(align) && Ready(h).top + HEADER + 8 + Effective(align) + size <= |h.mem| < WORD
    ensures Fits(h, size, align) && !Refused(h, size, align, true)
  {
    ReadyBounds(h);
    PlacedFits(Ready(h).top, size, align);
  }

  function Written(h: Heap, i: nat, offset: nat, bytes: seq<byte>): Heap
    requires i < |h.blocks|
  {
    h.(mem := Store(h.mem, h.blocks[i].data + offset, bytes))
  }

  /** Setting one byte of a block. */
  lemma SetByte(h: Heap, i: nat, offset: nat, x: byte)
    requires Inv(h) && Blank(h) && i < |h.blocks| && offset < h.blocks[i].size
    ensures Inv(Written(h, i, offset, [x])) && Blank(Written(h, i, offset, [x]))
    ensures Before(Written(h, i, offset, [x]), i)[offset] == x
  {
    assert InPlace(h.blocks[i], h.base, h.top);
    WriteKeeps(h, i, offset, [x]);
    WriteBlank(h, i, offset, [x]);
    StoreEffect(h.mem, h.blocks[i].data + offset, [x], h.blocks[i].data + offset);
  }

  lemma PaddedBlock(h: Heap, size: nat, align: nat) returns (h1: Heap)
    requires Inv(h) && Blank(h) && Ready(h).top % 16 == 8 && align == 16
    requires Ready(h).top + size + 40 <= |h.mem| < WORD
    ensures Askable(align) && Fits(h, size, align) && h1 == Alloc(h, size, align, true).0
    ensures Inv(h1) && Blank(h1)
    ensures h1.blocks == h.blocks + [Block(Ready(h).top, Ready(h).top + HEADER + 8, size, align)]
    ensures h1.top == Ready(h).top + HEADER + 8 + size && |h1.mem| == |h.mem|
  {
    ReadyBounds(h);
    PlacedHalfway(Ready(h).top, size, align);
    RoomSuffices(h, size, align);
    AllocInv(h, size, align, true);
    AllocBlank(h, size, align, true);
    AllocEffect(h, size, align, true);
    NoGrowth(h, size, align);
    h1 := Alloc(h, size, align, true).0;
  }

  lemma NoGrowth(h: Heap, size: nat, align: nat)
    requires Inv(h) && Askable(align) && Ready(h).top + HEADER + 8 + Effective(align) + size <= |h.mem| < WORD
    ensures |Alloc(h, size, align, true).0.mem| == |h.mem|
  {
    ReadyBounds(h);
    PlacedFits(Ready(h).top, size, align);
  }

  /** Such a loss, on any blank heap with room whose top is an odd multiple of 8: of a block aligned to 16,
      byte k >= 16 is set, and after a reallocation it is gone. */
  lemma DataIsLost(h: Heap, size: nat, align: nat, newSize: nat, k: nat, x: byte) returns (h1: Heap, h2: Heap)
    requires Inv(h) && Blank(h) && Ready(h).top % 16 == 8 && align == 16
    requires Ready(h).top + size + newSize + 80 <= |h.mem| < WORD
    requires 16 <= k < Min(size, newSize) && x != 0
    ensures Askable(align) && Fits(h, size, align) && h1 == Alloc(h, size, align, true).0
    ensures |h1.blocks| == |h.blocks| + 1 && h1.blocks[|h.blocks|].size == size && h2 == Written(h1, |h.blocks|, k, [x])
    ensures Inv(h2) && Fits(h2, newSize, align) && !Refused(h2, newSize, align, true)
    ensures Before(h2, |h.blocks|)[k] == x && After(h2, |h.blocks|, newSize, align, true)[k] == 0
  {
    h1 := PaddedBlock(h, size, align);
    SetByte(h1, |h.blocks|, k, x);
    h2 := Written(h1, |h.blocks|, k, [x]);
    RoomSuffices(h2, newSize, align);
    PaddedLoses(h2, |h.blocks|, newSize, align, true, k);
  }

  lemma FreshBlank(h: Heap)
    requires Fresh(h) && ZeroFrom(h.mem, h.base)
    ensures Inv(h) && Blank(h) && Ready(h).top == h.base
  {
  }

  /** What an 8-aligned block does to a heap with room whose top is a multiple of 8. */
  lemma TightBlock(h: Heap, top: nat, size: nat, align: nat) returns (h1: Heap)
    requires Inv(h) && Blank(h) && top == Ready(h).top && top % 8 == 0 && align == 8
    requires top + HEADER + 16 + size <= |h.mem| < WORD
    ensures Askable(align) && Fits(h, size, align) && h1 == Alloc(h, size, align, true).0
    ensures Inv(h1) && Blank(h1) && h1.top == top + HEADER + size && |h1.mem| == |h.mem|
    ensures |h1.blocks| == |h.blocks| + 1
  {
    ReadyBounds(h);
    TightPlaced(top, size, align);
    RoomSuffices(h, size, align);
    AllocInv(h, size, align, true);
    AllocBlank(h, size, align, true);
    NoGrowth(h, size, align);
    AllocIs(h, size, align, true);
    h1 := Alloc(h, size, align, true).0;
  }

  /** From a base that is a multiple of 16, a first allocation of 8 bytes leads to such a heap. */
  lemma EightBytesUnalignTheTop(h: Heap, size: nat, align: nat) returns (h1: Heap)
    requires Fresh(h) && ZeroFrom(h.mem, h.base) && h.base % 16 == 0 && h.base + 40 <= |h.mem| < WORD
    requires size == 8 && align == 8
    ensures Askable(align) && Fits(h, size, align) && h1 == Alloc(h, size, align, true).0
    ensures Inv(h1) && Blank(h1) && h1.top == h.base + 24 && |h1.mem| == |h.mem| && |h1.blocks| == 1
  {
    FreshBlank(h);
    SixteensAreEights(h.base);
    h1 := TightBlock(h, h.base, size, align);
  }

  lemma SixteensAreEights(x: nat)
    requires x % 16 == 0
    ensures x % 8 == 0
  {
  }

  lemma HalfPast(base: nat)
    requires base % 16 == 0
    ensures (base + 24) % 16 == 8
  {
  }

  /** So the loss occurs from a heap base that is a multiple of 16 too: an allocation of 8 bytes, then one
      aligned to 16 whose byte k is set, and a reallocation that loses it. */
  lemma DataIsLostFromAlignedBase(h: Heap, small: nat, tight: nat, size: nat, align: nat, newSize: nat, k: nat, x: byte)
    returns (h0: Heap, h1: Heap, h2: Heap)
    requires Fresh(h) && ZeroFrom(h.mem, h.base) && h.base % 16 == 0 && small == tight == 8 && align == 16
    requires h.base + size + newSize + 120 <= |h.mem| < WORD
    requires 16 <= k < Min(size, newSize) && x != 0
    ensures h0 == Alloc(h, small, tight, true).0 && h1 == Alloc(h0, size, align, true).0
    ensures |h1.blocks| == 2 && h1.blocks[1].size == size && h2 == Written(h1, 1, k, [x])
    ensures Inv(h2) && Askable(align) && Fits(h2, newSize, align) && !Refused(h2, newSize, align, true)
    ensures Before(h2, 1)[k] == x && After(h2, 1, newSize, align, true)[k] == 0
  {
    h0 := EightBytesUnalignTheTop(h, small, tight);
    HalfPast(h.base);
    h1, h2 := DataIsLost(h0, size, align, newSize, k, x);
  }
}
