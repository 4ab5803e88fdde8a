/** The host object behind wapi_module's shared-memory imports, as their contract describes it. */
module SharedMemory {
  import opened GuestMemory
  import opened Borrow

  class SharedMemory {
    var memory: seq<byte>
    var regions: map<nat, Region>
    var loans: map<nat, Loan>
    var nextLoan: nat

    ghost function Snapshot(): Shared
      reads this
    {
      Shared(memory, regions, loans, nextLoan)
    }

    ghost predicate Valid()
      reads this
    {
      Inv(Snapshot())
    }

    constructor (mem: seq<byte>)
      ensures Valid() && Fresh(Snapshot()) && memory == mem
    {
      memory, regions, loans, nextLoan := mem, map[], map[], 1;
    }

    /** 0 on failure; at is the host allocator's choice. */
    method SharedAlloc(caller: Caller, size: nat, align: nat, at: nat) returns (offset: nat)
      requires Valid()
      modifies this`regions
      ensures Valid()
      ensures var (s, reply) := Act(old(Snapshot()), caller, Alloc(size, align, at));
        Snapshot() == s && offset == reply.value
    {
      NextInv(Snapshot(), Event(caller, Alloc(size, align, at)));
      if size == 0 || align == 0 || at == 0 || at % align != 0 || at + size > |memory| { return 0; }
      if exists r :: r in regions && r < at + size && at < r + regions[r].size {
        assert !Vacant(Snapshot(), at, size);
        return 0;
      }
      regions := regions[at := Region(size, caller)];
      return at;
    }

    method SharedFree(caller: Caller, offset: nat) returns (code: int)
      requires Valid()
      modifies this`regions
      ensures Valid()
      ensures var (s, reply) := Act(old(Snapshot()), caller, Free(offset)); Snapshot() == s && code == reply.code
    {
      NextInv(Snapshot(), Event(caller, Free(offset)));
      if offset !in regions { return ERR_INVAL; }
      if caller != App && regions[offset].owner != caller { return ERR_ACCES; }
      if exists l :: l in loans && loans[l].offset == offset { return ERR_BUSY; }
      regions := regions - {offset};
      return WAPI_OK;
    }

    method SharedRead(caller: Caller, lo: nat, len: nat) returns (code: int, bytes: seq<byte>)
      requires Valid()
      ensures (Snapshot(), Reply(code, 0, bytes)) == Act(Snapshot(), caller, Read(lo, len))
    {
      bytes := [];
      if lo + len > |memory| { return ERR_RANGE, []; }
      if !Readable(Shared(memory, regions, loans, nextLoan), caller, lo, len) { return ERR_ACCES, []; }
      return WAPI_OK, memory[lo..lo + len];
    }

    method SharedWrite(caller: Caller, lo: nat, bytes: seq<byte>) returns (code: int)
      requires Valid()
      modifies this`memory
      ensures Valid()
      ensures var (s, reply) := Act(old(Snapshot()), caller, Write(lo, bytes)); Snapshot() == s && code == reply.code
    {
      NextInv(Snapshot(), Event(caller, Write(lo, bytes)));
      if lo + |bytes| > |memory| { return ERR_RANGE; }
      if !Writable(Shared(memory, regions, loans, nextLoan), caller, lo, |bytes|) { return ERR_ACCES; }
      memory := Store(memory, lo, bytes);
      return WAPI_OK;
    }

    method LendTo(caller: Caller, borrower: nat, offset: nat, flags: nat) returns (code: int, loan: nat)
      requires Valid()
      modifies this`loans, this`nextLoan
      ensures Valid()
      ensures var (s, reply) := Act(old(Snapshot()), caller, Lend(borrower, offset, flags));
        Snapshot() == s && code == reply.code && loan == reply.value
    {
      NextInv(Snapshot(), Event(caller, Lend(borrower, offset, flags)));
      if offset !in regions || (flags != LEND_READ && flags != LEND_WRITE) { return ERR_INVAL, 0; }
      if caller != App && regions[offset].owner != caller { return ERR_ACCES, 0; }
      ConflictsFound(Snapshot(), offset, flags);
      if exists l :: l in loans && loans[l].offset == offset && (flags == LEND_WRITE || loans[l].flags == LEND_WRITE) {
        return ERR_BUSY, 0;
      }
      loan := nextLoan;
      loans := loans[loan := Loan(offset, borrower, flags)];
      nextLoan := nextLoan + 1;
      return WAPI_OK, loan;
    }

    method ReclaimLoan(caller: Caller, loan: nat) returns (code: int)
      requires Valid()
      modifies this`loans
      ensures Valid()
      ensures var (s, reply) := Act(old(Snapshot()), caller, Reclaim(loan)); Snapshot() == s && code == reply.code
    {
      NextInv(Snapshot(), Event(caller, Reclaim(loan)));
      if loan !in loans { return ERR_BADF; }
      loans := loans - {loan};
      return WAPI_OK;
    }
  }
}
