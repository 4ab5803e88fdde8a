/** The shared-memory borrow protocol that wapi_module.h promises: regions, reader-writer borrows, and who
    may touch which bytes. */
module Borrow {
  import opened GuestMemory

  const WAPI_OK: int := 0
  const ERR_INVAL: int := -2
  const ERR_BADF: int := -3
  const ERR_ACCES: int := -4
  const ERR_BUSY: int := -15
  const ERR_RANGE: int := -30

  const LEND_READ: nat := 1
  const LEND_WRITE: nat := 2

  /** The application owns all shared memory; child modules have handles. */
  datatype Caller = App | Child(id: nat)

  datatype Region = Region(size: nat, owner: Caller)
  datatype Loan = Loan(offset: nat, borrower: nat, flags: nat)

  datatype Shared = Shared(mem: seq<byte>, regions: map<nat, Region>, loans: map<nat, Loan>, nextLoan: nat)

  /** at is where the host's allocator chooses to put an allocation. */
  datatype Call =
    | Alloc(size: nat, align: nat, at: nat)
    | Free(offset: nat)
    | Read(offset: nat, len: nat)
    | Write(offset: nat, bytes: seq<byte>)
    | Lend(borrower: nat, offset: nat, flags: nat)
    | Reclaim(loan: nat)

  /** A result code, an offset or handle where one is returned, and the bytes a read copies out. */
  datatype Reply = Reply(code: int, value: nat, bytes: seq<byte>)

  function Just(code: int): Reply { Reply(code, 0, []) }

  // ---- who may do what ------------------------------------------------------------

  predicate Lent(s: Shared, offset: nat) { exists l :: l in s.loans && s.loans[l].offset == offset }

  predicate LentForWriting(s: Shared, offset: nat) {
    exists l :: l in s.loans && s.loans[l].offset == offset && s.loans[l].flags == LEND_WRITE
  }

  predicate Holds(s: Shared, child: nat, offset: nat) {
    exists l :: l in s.loans && s.loans[l].offset == offset && s.loans[l].borrower == child
  }

  predicate HoldsForWriting(s: Shared, child: nat, offset: nat) {
    exists l :: l in s.loans && s.loans[l].offset == offset && s.loans[l].borrower == child
      && s.loans[l].flags == LEND_WRITE
  }

  predicate Commands(s: Shared, c: Caller, offset: nat) {
    offset in s.regions && (c.App? || s.regions[offset].owner == c)
  }

  /** A child reads what it borrows, and its own allocation unless it is lent for writing. */
  predicate MayRead(s: Shared, c: Caller, offset: nat) {
    offset in s.regions && match c
      case App => true
      case Child(id) => Holds(s, id, offset) || (s.regions[offset].owner == c && !LentForWriting(s, offset))
  }

  /** A child writes what it borrows for writing, and its own allocation while it is not lent at all. */
  predicate MayWrite(s: Shared, c: Caller, offset: nat) {
    offset in s.regions && match c
      case App => true
      case Child(id) => HoldsForWriting(s, id, offset) || (s.regions[offset].owner == c && !Lent(s, offset))
  }

  predicate Inside(s: Shared, offset: nat, lo: nat, len: nat) {
    offset in s.regions && offset <= lo && lo + len <= offset + s.regions[offset].size
  }

  predicate Readable(s: Shared, c: Caller, lo: nat, len: nat) {
    c.App? || exists offset :: offset in s.regions && Inside(s, offset, lo, len) && MayRead(s, c, offset)
  }

  predicate Writable(s: Shared, c: Caller, lo: nat, len: nat) {
    c.App? || exists offset :: offset in s.regions && Inside(s, offset, lo, len) && MayWrite(s, c, offset)
  }

  predicate Conflicts(s: Shared, offset: nat, flags: nat) {
    LentForWriting(s, offset) || (flags == LEND_WRITE && Lent(s, offset))
  }

  /** As a look through the loans finds it. */
  lemma ConflictsFound(s: Shared, offset: nat, flags: nat)
    ensures Conflicts(s, offset, flags) <==>
      exists l :: l in s.loans && s.loans[l].offset == offset && (flags == LEND_WRITE || s.loans[l].flags == LEND_WRITE)
  {
  }

  predicate Vacant(s: Shared, at: nat, size: nat) {
    forall offset :: offset in s.regions ==> at + size <= offset || offset + s.regions[offset].size <= at
  }

  // ---- the calls --------------------------------------------------------------------

  function Act(s: Shared, c: Caller, call: Call): (Shared, Reply) {
    match call
    case Alloc(size, align, at) =>
      if size > 0 && align > 0 && at > 0 && at % align == 0 && at + size <= |s.mem| && Vacant(s, at, size) then
        (s.(regions := s.regions[at := Region(size, c)]), Reply(WAPI_OK, at, []))
      else (s, Just(WAPI_OK))
    case Free(offset) =>
      if offset !in s.regions then (s, Just(ERR_INVAL))
      else if !Commands(s, c, offset) then (s, Just(ERR_ACCES))
      else if Lent(s, offset) then (s, Just(ERR_BUSY))
      else (s.(regions := s.regions - {offset}), Just(WAPI_OK))
    case Read(lo, len) =>
      if lo + len > |s.mem| then (s, Just(ERR_RANGE))
      else if !Readable(s, c, lo, len) then (s, Just(ERR_ACCES))
      else (s, Reply(WAPI_OK, 0, s.mem[lo..lo + len]))
    case Write(lo, bytes) =>
      if lo + |bytes| > |s.mem| then (s, Just(ERR_RANGE))
      else if !Writable(s, c, lo, |bytes|) then (s, Just(ERR_ACCES))
      else (s.(mem := Store(s.mem, lo, bytes)), Just(WAPI_OK))
    case Lend(borrower, offset, flags) =>
      if offset !in s.regions || (flags != LEND_READ && flags != LEND_WRITE) then (s, Just(ERR_INVAL))
      else if !Commands(s, c, offset) then (s, Just(ERR_ACCES))
      else if Conflicts(s, offset, flags) then (s, Just(ERR_BUSY))
      else
        (s.(loans := s.loans[s.nextLoan := Loan(offset, borrower, flags)], nextLoan := s.nextLoan + 1),
         Reply(WAPI_OK, s.nextLoan, []))
    case Reclaim(l) =>
      if l !in s.loans then (s, Just(ERR_BADF)) else (s.(loans := s.loans - {l}), Just(WAPI_OK))
  }

  datatype Event = Event(caller: Caller, call: Call)

  function Next(s: Shared, e: Event): Shared { Act(s, e.caller, e.call).0 }

  function Run(s: Shared, es: seq<Event>): Shared
    decreases |es|
  {
    if |es| == 0 then s else Next(Run(s, es[..|es| - 1]), es[|es| - 1])
  }

  ghost predicate Fresh(s: Shared) { s.regions == map[] && s.loans == map[] }

  // ---- what every reachable state satisfies ----------------------------------------------

  predicate Laid(s: Shared) {
    && (forall r :: r in s.regions ==> 0 < r && 0 < s.regions[r].size && r + s.regions[r].size <= |s.mem|)
    && (forall r, q :: r in s.regions && q in s.regions && r != q ==>
          r + s.regions[r].size <= q || q + s.regions[q].size <= r)
  }

  /** Every borrow is of a region that still exists. */
  predicate Anchored(s: Shared) {
    forall l :: l in s.loans ==>
      l < s.nextLoan && s.loans[l].offset in s.regions
      && (s.loans[l].flags == LEND_READ || s.loans[l].flags == LEND_WRITE)
  }

  /** A borrow for writing is the only borrow of its region. */
  predicate Exclusive(loans: map<nat, Loan>) {
    forall l, m :: l in loans && m in loans && l != m && loans[l].offset == loans[m].offset ==>
      loans[l].flags != LEND_WRITE
  }

  predicate Inv(s: Shared) { Laid(s) && Anchored(s) && Exclusive(s.loans) }

  lemma LendInv(s: Shared, c: Caller, borrower: nat, offset: nat, flags: nat)
    requires Inv(s)
    ensures Inv(Act(s, c, Lend(borrower, offset, flags)).0)
  {
    var (r, reply) := Act(s, c, Lend(borrower, offset, flags));
    if r != s {
      forall l | l in s.loans && s.loans[l].offset == offset
        ensures s.loans[l].flags != LEND_WRITE && flags != LEND_WRITE
      {
        assert Lent(s, offset);
        assert s.loans[l].flags == LEND_WRITE ==> LentForWriting(s, offset);
      }
      assert Exclusive(r.loans);
    }
  }

  lemma FreeInv(s: Shared, c: Caller, offset: nat)
    requires Inv(s)
    ensures Inv(Act(s, c, Free(offset)).0)
  {
  }

  lemma AllocInv(s: Shared, c: Caller, size: nat, align: nat, at: nat)
    requires Inv(s)
    ensures Inv(Act(s, c, Alloc(size, align, at)).0)
  {
  }

  lemma ReclaimInv(s: Shared, c: Caller, loan: nat)
    requires Inv(s)
    ensures Inv(Act(s, c, Reclaim(loan)).0)
  {
  }

  lemma NextInv(s: Shared, e: Event)
    requires Inv(s)
    ensures Inv(Next(s, e))
  {
    match e.call
    case Alloc(size, align, at) => AllocInv(s, e.caller, size, align, at);
    case Free(offset) => FreeInv(s, e.caller, offset);
    case Read(lo, len) => assert Next(s, e) == s;
    case Write(lo, bytes) => assert Next(s, e) == s.(mem := Next(s, e).mem);
    case Lend(borrower, offset, flags) => LendInv(s, e.caller, borrower, offset, flags);
    case Reclaim(l) => ReclaimInv(s, e.caller, l);
  }

  lemma {:induction false} RunInv(s: Shared, es: seq<Event>)
    requires Inv(s)
    ensures Inv(Run(s, es))
    decreases |es|
  {
    if |es| > 0 {
      RunInv(s, es[..|es| - 1]);
      NextInv(Run(s, es[..|es| - 1]), es[|es| - 1]);
    }
  }

  /** The borrows of a region. */
  function LoansOf(s: Shared, offset: nat): set<nat> { set l | l in s.loans && s.loans[l].offset == offset }

  /** In every reachable state each region has no borrow, borrows for reading only, or one single borrow,
      for writing; and every borrow is of a live region. */
  lemma ReadersOrOneWriter(s: Shared, es: seq<Event>, offset: nat)
    requires Fresh(s)
    ensures var r := Run(s, es);
      && (forall l :: l in r.loans ==> r.loans[l].offset in r.regions)
      && ((forall l :: l in LoansOf(r, offset) ==> r.loans[l].flags == LEND_READ)
          || exists l :: LoansOf(r, offset) == {l} && r.loans[l].flags == LEND_WRITE)
  {
    RunInv(s, es);
    var r := Run(s, es);
    if l :| l in LoansOf(r, offset) && r.loans[l].flags == LEND_WRITE {
      assert LoansOf(r, offset) == {l};
    }
  }

  // ---- whose bytes are whose ------------------------------------------------------------------

  predicate Covers(s: Shared, offset: nat, k: nat) {
    offset in s.regions && offset <= k < offset + s.regions[offset].size
  }

  /** Regions do not meet, so a byte's region is the one that any range containing it lies in. */
  lemma SameRegion(s: Shared, offset: nat, other: nat, lo: nat, len: nat, k: nat)
    requires Laid(s) && Covers(s, offset, k) && Inside(s, other, lo, len) && lo <= k < lo + len
    ensures other == offset
  {
  }

  /** Whoever changes a byte of a region is the application, the region's borrower for writing, or its
      owner while it is not lent. */
  lemma OnlyWritersChangeBytes(s: Shared, e: Event, offset: nat, k: nat)
    requires Inv(s) && Covers(s, offset, k)
    requires |Next(s, e).mem| != |s.mem| || Next(s, e).mem[k] != s.mem[k]
    ensures e.call.Write? && e.call.offset <= k < e.call.offset + |e.call.bytes| && MayWrite(s, e.caller, offset)
  {
    if e.call.Write? && !e.caller.App? {
      var lo, bytes := e.call.offset, e.call.bytes;
      StoreEffect(s.mem, lo, bytes, k);
      var other :| other in s.regions && Inside(s, other, lo, |bytes|) && MayWrite(s, e.caller, other);
      SameRegion(s, offset, other, lo, |bytes|, k);
    }
  }

  /** A region lent for reading can be changed by the application alone. */
  lemma ReadLentIsFrozen(s: Shared, l: nat, c: Caller)
    requires Inv(s) && l in s.loans && s.loans[l].flags == LEND_READ && MayWrite(s, c, s.loans[l].offset)
    ensures c == App
  {
  }

  /** A region lent for writing can be read or changed by its borrower or the application alone. */
  lemma WriteLentIsPrivate(s: Shared, l: nat, c: Caller)
    requires Inv(s) && l in s.loans && s.loans[l].flags == LEND_WRITE
    requires MayRead(s, c, s.loans[l].offset) || MayWrite(s, c, s.loans[l].offset)
    ensures c == App || c == Child(s.loans[l].borrower)
  {
  }

  /** A read that succeeds and returns a byte of a region was allowed on that region. */
  lemma ReadsAreAllowed(s: Shared, c: Caller, lo: nat, len: nat, offset: nat, k: nat)
    requires Inv(s) && Covers(s, offset, k) && lo <= k < lo + len
    requires Act(s, c, Read(lo, len)).1.code == WAPI_OK
    ensures MayRead(s, c, offset)
  {
  }

  // ---- over the life of a borrow ---------------------------------------------------------------

  /** A borrow that is gone stays gone: handles are not reused. */
  lemma {:induction false} ReclaimedForGood(s: Shared, es: seq<Event>, l: nat)
    requires l < s.nextLoan && l !in s.loans
    ensures l < Run(s, es).nextLoan && l !in Run(s, es).loans
    decreases |es|
  {
    if |es| > 0 { ReclaimedForGood(s, es[..|es| - 1], l); }
  }

  /** While a borrow lasts, it and its region stay as they are. */
  lemma LoanLasts(s: Shared, e: Event, l: nat)
    requires Inv(s) && l in s.loans && l in Next(s, e).loans
    ensures Next(s, e).loans[l] == s.loans[l]
    ensures s.loans[l].offset in Next(s, e).regions
    ensures Next(s, e).regions[s.loans[l].offset] == s.regions[s.loans[l].offset]
    ensures |Next(s, e).mem| == |s.mem|
  {
  }

  /** An event that may change the region of a borrow: a write by the application, or by the borrower of
      a borrow for writing. */
  predicate Touches(s: Shared, e: Event, l: nat)
    requires l in s.loans && s.loans[l].offset in s.regions
  {
    var loan := s.loans[l];
    e.call.Write? && (e.caller == App || (loan.flags == LEND_WRITE && e.caller == Child(loan.borrower)))
    && e.call.offset < loan.offset + s.regions[loan.offset].size && loan.offset < e.call.offset + |e.call.bytes|
  }

  function Bytes(s: Shared, offset: nat): seq<byte>
    requires Laid(s) && offset in s.regions
  {
    s.mem[offset..offset + s.regions[offset].size]
  }

  lemma StepKeepsBytes(s: Shared, e: Event, l: nat)
    requires Inv(s) && l in s.loans && l in Next(s, e).loans && !Touches(s, e, l)
    ensures Inv(Next(s, e)) && Next(s, e).loans[l] == s.loans[l]
    ensures s.loans[l].offset in Next(s, e).regions
    ensures Next(s, e).regions[s.loans[l].offset] == s.regions[s.loans[l].offset]
    ensures Bytes(Next(s, e), s.loans[l].offset) == Bytes(s, s.loans[l].offset)
  {
    var offset := s.loans[l].offset;
    NextInv(s, e);
    LoanLasts(s, e, l);
    forall k | offset <= k < offset + s.regions[offset].size ensures Next(s, e).mem[k] == s.mem[k] {
      if Next(s, e).mem[k] != s.mem[k] {
        OnlyWritersChangeBytes(s, e, offset, k);
        if s.loans[l].flags == LEND_READ {
          ReadLentIsFrozen(s, l, e.caller);
        } else {
          WriteLentIsPrivate(s, l, e.caller);
        }
      }
    }
  }

  /** No event of the run touches the region of borrow l of state s. */
  predicate Untouched(s: Shared, es: seq<Event>, l: nat)
    requires l in s.loans && s.loans[l].offset in s.regions
  {
    forall i :: 0 <= i < |es| ==> !Touches(s, es[i], l)
  }

  /** Over any run through which a borrow lasts, whatever the other modules do, the bytes of its region
      change only by writes of the application or of the borrower for writing. */
  lemma {:induction false} BorrowIsStable(s: Shared, es: seq<Event>, l: nat)
    requires Inv(s) && l in s.loans && l in Run(s, es).loans && Untouched(s, es, l)
    ensures Inv(Run(s, es)) && Run(s, es).loans[l] == s.loans[l]
    ensures s.loans[l].offset in Run(s, es).regions
    ensures Run(s, es).regions[s.loans[l].offset] == s.regions[s.loans[l].offset]
    ensures Bytes(Run(s, es), s.loans[l].offset) == Bytes(s, s.loans[l].offset)
    decreases |es|
  {
    if |es| > 0 {
      var was, last := es[..|es| - 1], es[|es| - 1];
      RunInv(s, was);
      if l !in Run(s, was).loans { GoneBefore(s, was, last, l); }
      BorrowIsStable(s, was, l);
      StepKeepsBytes(Run(s, was), last, l);
    }
  }

  lemma GoneBefore(s: Shared, was: seq<Event>, last: Event, l: nat)
    requires l in s.loans && l < s.nextLoan && l !in Run(s, was).loans
    ensures l !in Next(Run(s, was), last).loans
  {
    NextLoanGrows(s, was);
  }

  lemma {:induction false} NextLoanGrows(s: Shared, es: seq<Event>)
    ensures s.nextLoan <= Run(s, es).nextLoan
    decreases |es|
  {
    if |es| > 0 { NextLoanGrows(s, es[..|es| - 1]); }
  }
}
