/** The allocator over its two globals and the memory they bound, updated in place. */
module BumpAllocator {
  import opened GuestMemory
  import opened BumpHeap

  class BumpAllocator {
    var memory: seq<byte>              // linear memory; grows, so not a fixed array
    var heapTop: nat
    var heapEnd: nat
    const heapBase: nat
    ghost var blocks: seq<Block>

    ghost function Now(): Heap
      reads this
    {
      Heap(memory, heapBase, heapTop, heapEnd, blocks)
    }

    constructor (mem: seq<byte>, base: nat)
      requires PAGE <= |mem| <= WORD && 0 < base <= |mem| && base < WORD
      ensures Fresh(Now()) && Inv(Now()) && memory == mem && heapBase == base
    {
      memory, heapBase, heapTop, heapEnd, blocks := mem, base, 0, 0, [];
    }

    method EnsureInit()
      modifies this`heapTop, this`heapEnd
      ensures Now() == Ready(old(Now()))
    {
      if heapTop != 0 { return; }
      heapTop := heapBase;
      heapEnd := Wrap(|memory|);
    }

    /** memory.grow, as the host answers it; false stands for a negative result. */
    method MemoryGrow(pages: nat, grant: bool) returns (ok: bool)
      modifies this`memory
      ensures ok <==> Granted(old(Now()), pages, grant)
      ensures memory == if ok then old(memory) + Zeros(pages * PAGE) else old(memory)
    {
      ok := grant && |memory| + pages * PAGE <= WORD;
      if ok { memory := memory + Zeros(pages * PAGE); }
    }

    method Grow(newTop: nat, grant: bool) returns (ok: bool)
      modifies this`memory, this`heapEnd
      ensures (Now(), ok) == GrowTo(old(Now()), newTop, grant)
    {
      if newTop <= heapEnd { return true; }
      var needBytes := newTop - heapEnd;
      var needPages := Wrap(needBytes + PAGE - 1) / PAGE;
      assert needPages == PagesFor(old(Now()), newTop);
      ok := MemoryGrow(needPages, grant);
      if ok { heapEnd := Wrap(|memory|); }
    }

    method Allocate(size: nat, align: nat, grant: bool) returns (ptr: nat)
      modifies this
      ensures (Now(), ptr) == Alloc(old(Now()), size, align, grant)
    {
      EnsureInit();
      var effective := if align < 8 then 8 else align;
      var hdrAddr := AlignUp(heapTop, 8);
      var dataAddr := AlignUp(Wrap(hdrAddr + HEADER), effective);
      var newTop := Wrap(dataAddr + size);
      var ok := Grow(newTop, grant);
      if !ok { return 0; }
      memory := Store(memory, hdrAddr, LittleEndian(size, 8) + LittleEndian(effective, 8));
      blocks := blocks + [Block(hdrAddr, dataAddr, size, effective)];
      heapTop := newTop;
      return dataAddr;
    }

    method Release(ptr: nat)
      ensures Now() == old(Now())
    {
    }

    /** Reallocation of the null pointer is an allocation; otherwise a new block and a byte-wise copy. */
    method Reallocate(ptr: nat, newSize: nat, align: nat, grant: bool) returns (np: nat)
      requires ptr != 0 ==> HEADER <= ptr <= |memory|
      modifies this
      ensures (Now(), np) == if ptr == 0 then Alloc(old(Now()), newSize, align, grant)
                             else Realloc(old(Now()), ptr, newSize, align, grant)
    {
      if ptr == 0 {
        np := Allocate(newSize, align, grant);
        return;
      }
      var oldSize := FromLittleEndian(memory[ptr - HEADER..ptr - HEADER + 8]);
      np := Allocate(newSize, align, grant);
      if np == 0 { return; }
      CopyBytes(ptr, np, if oldSize < newSize then oldSize else newSize);
    }

    /** `dst[i] = src[i]`, in ascending order; an access outside memory would trap. */
    method CopyBytes(src: nat, dst: nat, count: nat)
      modifies this`memory
      ensures memory == CopyUp(old(memory), src, dst, count)
    {
      for i := 0 to count
        invariant memory == CopyUp(old(memory), src, dst, i)
      {
        if src + i < |memory| && dst + i < |memory| {
          memory := memory[dst + i := memory[src + i]];
        }
      }
    }
  }
}
