/** What each call of the borrow protocol answers and changes, in terms of the regions and borrows before it. */
module BorrowAnswers {
  import opened GuestMemory
  import opened Borrow

  // ---- who holds what ------------------------------------------------------------------------------

  /** A region has no borrow for writing, no borrow at all, or one of this child's. */
  ghost predicate NoneForWriting(s: Shared, offset: nat) {
    forall l :: l in s.loans && s.loans[l].offset == offset ==> s.loans[l].flags != LEND_WRITE
  }

  ghost predicate NoneAtAll(s: Shared, offset: nat) { forall l :: l in s.loans ==> s.loans[l].offset != offset }

  ghost predicate Borrows(s: Shared, id: nat, offset: nat) {
    exists l :: l in s.loans && s.loans[l].offset == offset && s.loans[l].borrower == id
  }

  ghost predicate BorrowsToWrite(s: Shared, id: nat, offset: nat) {
    exists l :: l in s.loans && s.loans[l] == Loan(offset, id, LEND_WRITE)
  }

  /** The range lies in this region. */
  predicate Within(s: Shared, offset: nat, lo: nat, len: nat) {
    offset in s.regions && offset <= lo && lo + len <= offset + s.regions[offset].size
  }

  /** A child may read what it borrows, and what it owns unless that is lent for writing. */
  ghost predicate ReadsFrom(s: Shared, id: nat, offset: nat)
    requires offset in s.regions
  {
    Borrows(s, id, offset) || (s.regions[offset].owner == Child(id) && NoneForWriting(s, offset))
  }

  /** It may write what it borrows for writing, and what it owns while that is not lent. */
  ghost predicate WritesTo(s: Shared, id: nat, offset: nat)
    requires offset in s.regions
  {
    BorrowsToWrite(s, id, offset) || (s.regions[offset].owner == Child(id) && NoneAtAll(s, offset))
  }

  ghost predicate ReadsRange(s: Shared, c: Caller, lo: nat, len: nat) {
    c == App || exists offset :: Within(s, offset, lo, len) && ReadsFrom(s, c.id, offset)
  }

  ghost predicate WritesRange(s: Shared, c: Caller, lo: nat, len: nat) {
    c == App || exists offset :: Within(s, offset, lo, len) && WritesTo(s, c.id, offset)
  }

  // ---- reading and writing ----------------------------------------------------------------------------

  /** A read in memory is granted to the application, and to a child exactly within one region it may read;
      it returns the bytes that are there. No read changes anything. */
  lemma ReadExactly(s: Shared, c: Caller, lo: nat, len: nat)
    ensures var (r, reply) := Act(s, c, Read(lo, len));
      && r == s && (reply.code == ERR_RANGE <==> lo + len > |s.mem|)
      && (reply.code == WAPI_OK <==> lo + len <= |s.mem| && ReadsRange(s, c, lo, len))
      && (reply.code == WAPI_OK || reply.code == ERR_RANGE || reply.code == ERR_ACCES)
      && reply.bytes == if reply.code == WAPI_OK then s.mem[lo..lo + len] else []
  {
    if c.Child? {
      forall o | o in s.regions ensures Inside(s, o, lo, len) <==> Within(s, o, lo, len) {}
      forall o | o in s.regions ensures MayRead(s, c, o) <==> ReadsFrom(s, c.id, o) {}
    }
  }

  /** A write in memory is granted to the application, and to a child exactly within one region it may write;
      then those bytes change and no others. Any other write changes nothing. */
  lemma WriteExactly(s: Shared, c: Caller, lo: nat, bytes: seq<byte>)
    ensures var (r, reply) := Act(s, c, Write(lo, bytes));
      && (reply.code == ERR_RANGE <==> lo + |bytes| > |s.mem|)
      && (reply.code == WAPI_OK <==> lo + |bytes| <= |s.mem| && WritesRange(s, c, lo, |bytes|))
      && (reply.code == WAPI_OK || reply.code == ERR_RANGE || reply.code == ERR_ACCES)
      && (reply.code != WAPI_OK ==> r == s)
      && (reply.code == WAPI_OK ==>
            r == s.(mem := r.mem) && r.mem == s.mem[..lo] + bytes + s.mem[lo + |bytes|..])
  {
    if c.Child? {
      forall o | o in s.regions ensures Inside(s, o, lo, |bytes|) <==> Within(s, o, lo, |bytes|) {}
      forall o | o in s.regions ensures MayWrite(s, c, o) <==> WritesTo(s, c.id, o) {}
    }
  }

  /** No write of the run meets the range. */
  predicate LeavesAlone(es: seq<Event>, lo: nat, len: nat) {
    forall i :: 0 <= i < |es| && es[i].call.Write? ==>
      lo + len <= es[i].call.offset || es[i].call.offset + |es[i].call.bytes| <= lo
  }

  lemma {:induction false} RangeKept(s: Shared, es: seq<Event>, lo: nat, len: nat)
    requires lo + len <= |s.mem| && LeavesAlone(es, lo, len)
    ensures |Run(s, es).mem| == |s.mem| && Run(s, es).mem[lo..lo + len] == s.mem[lo..lo + len]
    decreases |es|
  {
    if |es| > 0 {
      RangeKept(s, es[..|es| - 1], lo, len);
      NextKeepsRange(Run(s, es[..|es| - 1]), es[|es| - 1], lo, len);
    }
  }

  lemma NextKeepsRange(s: Shared, e: Event, lo: nat, len: nat)
    requires lo + len <= |s.mem|
    requires e.call.Write? ==> lo + len <= e.call.offset || e.call.offset + |e.call.bytes| <= lo
    ensures |Next(s, e).mem| == |s.mem| && Next(s, e).mem[lo..lo + len] == s.mem[lo..lo + len]
  {
  }

  /** What was written is what is read, by the application or by a child that may read it, after any calls
      in between that do not write there. */
  lemma ReadsWhatWasWritten(s: Shared, writer: Caller, lo: nat, bytes: seq<byte>, es: seq<Event>, reader: Caller)
    requires Act(s, writer, Write(lo, bytes)).1.code == WAPI_OK && LeavesAlone(es, lo, |bytes|)
    ensures var r := Run(Act(s, writer, Write(lo, bytes)).0, es);
      && (reader == App ==> Act(r, reader, Read(lo, |bytes|)).1.code == WAPI_OK)
      && (Act(r, reader, Read(lo, |bytes|)).1.code == WAPI_OK ==> Act(r, reader, Read(lo, |bytes|)).1.bytes == bytes)
  {
    var w := Act(s, writer, Write(lo, bytes)).0;
    WriteExactly(s, writer, lo, bytes);
    RangeKept(w, es, lo, |bytes|);
    ReadExactly(Run(w, es), reader, lo, |bytes|);
    assert w.mem[lo..lo + |bytes|] == bytes;
  }

  // ---- lending and reclaiming -----------------------------------------------------------------------------

  predicate Commanding(s: Shared, c: Caller, offset: nat)
    requires offset in s.regions
  {
    c == App || s.regions[offset].owner == c
  }

  /** A borrow is granted exactly on a live region, by the application or the region's owner, for reading when
      nobody borrows it for writing, for writing when nobody borrows it; it is entered under the next handle. */
  lemma LendExactly(s: Shared, c: Caller, borrower: nat, offset: nat, flags: nat)
    ensures var (r, reply) := Act(s, c, Lend(borrower, offset, flags));
      && (reply.code == ERR_INVAL <==> offset !in s.regions || (flags != LEND_READ && flags != LEND_WRITE))
      && (reply.code == WAPI_OK <==>
            offset in s.regions && Commanding(s, c, offset)
            && ((flags == LEND_READ && NoneForWriting(s, offset)) || (flags == LEND_WRITE && NoneAtAll(s, offset))))
      && (reply.code == ERR_ACCES <==>
            offset in s.regions && (flags == LEND_READ || flags == LEND_WRITE) && !Commanding(s, c, offset))
      && (reply.code in [WAPI_OK, ERR_INVAL, ERR_ACCES, ERR_BUSY]) && (reply.code != WAPI_OK ==> r == s)
      && (reply.code == WAPI_OK ==>
            && reply.value == s.nextLoan
            && r == Shared(s.mem, s.regions, s.loans[s.nextLoan := Loan(offset, borrower, flags)], s.nextLoan + 1))
  {
    assert LentForWriting(s, offset) <==> !NoneForWriting(s, offset);
    assert Lent(s, offset) <==> !NoneAtAll(s, offset);
  }

  /** Readers share: a region lent for reading is lent to another reader, and to no writer until then. */
  lemma ReadersShare(s: Shared, c: Caller, first: nat, second: nat, offset: nat)
    requires Act(s, c, Lend(first, offset, LEND_READ)).1.code == WAPI_OK && s.nextLoan !in s.loans
    ensures var r := Act(s, c, Lend(first, offset, LEND_READ)).0;
      && Act(r, c, Lend(second, offset, LEND_READ)).1.code == WAPI_OK
      && Act(r, c, Lend(second, offset, LEND_WRITE)).1.code == ERR_BUSY
  {
    var r := Act(s, c, Lend(first, offset, LEND_READ)).0;
    LendExactly(s, c, first, offset, LEND_READ);
    LendExactly(r, c, second, offset, LEND_READ);
    LendExactly(r, c, second, offset, LEND_WRITE);
    assert r.loans[s.nextLoan].offset == offset;
  }

  /** A borrow in force is taken back, whoever asks; nothing else changes. */
  lemma ReclaimExactly(s: Shared, c: Caller, l: nat)
    ensures var (r, reply) := Act(s, c, Reclaim(l));
      && (reply.code == WAPI_OK <==> l in s.loans) && (reply.code == ERR_BADF <==> l !in s.loans)
      && r == s.(loans := r.loans) && r.loans.Keys == s.loans.Keys - {l}
      && forall k :: k in r.loans ==> r.loans[k] == s.loans[k]
  {
  }

  // ---- allocating and freeing ------------------------------------------------------------------------------

  /** An allocation succeeds, with the offset the host chose, exactly when that is a positive aligned place in
      memory that meets no other region; otherwise it answers 0 and changes nothing. */
  lemma AllocExactly(s: Shared, c: Caller, size: nat, align: nat, at: nat)
    ensures var (r, reply) := Act(s, c, Alloc(size, align, at));
      && (reply.value != 0 <==>
            && size > 0 && align > 0 && at > 0 && at % align == 0 && at + size <= |s.mem|
            && forall o :: o in s.regions ==> at + size <= o || o + s.regions[o].size <= at)
      && (reply.value != 0 ==> reply.value == at && r == s.(regions := s.regions[at := Region(size, c)]))
      && (reply.value == 0 ==> r == s)
  {
  }

  /** A region is freed exactly by the application or its owner, while nobody borrows it. */
  lemma FreeExactly(s: Shared, c: Caller, offset: nat)
    ensures var (r, reply) := Act(s, c, Free(offset));
      && (reply.code == WAPI_OK <==> offset in s.regions && Commanding(s, c, offset) && NoneAtAll(s, offset))
      && (reply.code == ERR_INVAL <==> offset !in s.regions)
      && (reply.code == ERR_BUSY <==> offset in s.regions && Commanding(s, c, offset) && !NoneAtAll(s, offset))
      && (reply.code == WAPI_OK ==> r == s.(regions := s.regions - {offset}))
      && (reply.code != WAPI_OK ==> r == s && reply.code in [ERR_INVAL, ERR_ACCES, ERR_BUSY])
  {
    assert Lent(s, offset) <==> !NoneAtAll(s, offset);
  }
}
