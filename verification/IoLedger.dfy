/** The bookkeeping core of the service-worker I/O engine: the pending map, the event queue and,
    for the proofs, the history of every submission. A submission is identified by its serial
    number (its position in `subs`); the source identifies it by the closure it captured. */
module IoLedger {
  import opened GuestMemory

  const EVENT_IO_COMPLETION: nat := 0x200

  datatype Op = Op(opcode: u32, flags: u32, fd: int, flags2: u32, offset: u64,
                   addr: u64, len: u64, addr2: u64, len2: u64, userData: nat, resultPtr: u64)

  /** One entry of `_ioPending`: the token is the key, the rest is what the callback captured. */
  datatype Pending = Pending(token: nat, serial: nat, op: Op, handle: nat)

  datatype Event = Event(typ: nat, userData: nat, result: int, flags: u32, serial: nat)

  /** Where a submission is. LOG never enters the ledger: it has no completion by design. */
  datatype Place = InFlight | Queued | Delivered | Cancelled | Flushed | Lost

  /** `pending` is the JavaScript Map in insertion order. */
  datatype Ledger = Ledger(pending: seq<Pending>, nextToken: nat, queue: seq<Event>,
                           subs: seq<nat>, place: seq<Place>, pushed: seq<Event>, delivered: seq<Event>)

  predicate Empty(l: Ledger) {
    |l.pending| == |l.queue| == |l.subs| == |l.place| == |l.pushed| == |l.delivered| == 0 && l.nextToken == 1
  }

  // ---- the ledger's elementary moves ------------------------------------

  function Removed<T>(s: seq<T>, i: nat): (r: seq<T>)
    requires i < |s|
  {
    s[..i] + s[i + 1..]
  }

  /** The entry of a token, found as `Map.has` and `Map.delete` find it. */
  function IndexOf(p: seq<Pending>, token: nat): (i: nat)
    ensures i <= |p|
    ensures i < |p| ==> p[i].token == token
    ensures forall j :: 0 <= j < i ==> p[j].token != token
  {
    if |p| == 0 || p[0].token == token then 0 else 1 + IndexOf(p[1..], token)
  }

  function Completion(userData: nat, result: int, serial: nat): Event {
    Event(EVENT_IO_COMPLETION, userData, result, 0, serial)
  }

  /** An asynchronous op takes a fresh token and enters the pending map. */
  function Register(l: Ledger, op: Op, handle: nat): Ledger {
    l.(pending := l.pending + [Pending(l.nextToken, |l.subs|, op, handle)], nextToken := l.nextToken + 1,
       subs := l.subs + [op.userData], place := l.place + [InFlight])
  }

  /** A synchronous op completes inside dispatch. */
  function PushNow(l: Ledger, userData: nat, result: int): Ledger {
    var ev := Completion(userData, result, |l.subs|);
    l.(queue := l.queue + [ev], pushed := l.pushed + [ev],
       subs := l.subs + [userData], place := l.place + [Queued])
  }

  /** A synchronous op whose guest store throws traps into the guest and never completes. */
  function Trap(l: Ledger, userData: nat): Ledger {
    l.(subs := l.subs + [userData], place := l.place + [Lost])
  }

  /** A live callback deletes its token and pushes its completion. */
  function Finish(l: Ledger, i: nat, result: int): Ledger
    requires i < |l.pending| && l.pending[i].serial < |l.place|
  {
    var p := l.pending[i];
    var ev := Completion(p.op.userData, result, p.serial);
    l.(pending := Removed(l.pending, i), queue := l.queue + [ev], pushed := l.pushed + [ev],
       place := l.place[p.serial := Queued])
  }

  /** A token leaves the pending map without a completion. */
  function Drop(l: Ledger, i: nat, why: Place): Ledger
    requires i < |l.pending| && l.pending[i].serial < |l.place|
  {
    l.(pending := Removed(l.pending, i), place := l.place[l.pending[i].serial := why])
  }

  /** The head of the queue is shifted out and either reaches the guest or is lost to a bad pointer. */
  function Shift(l: Ledger, reached: bool): Ledger
    requires l.queue != [] && l.queue[0].serial < |l.place|
  {
    var ev := l.queue[0];
    l.(queue := l.queue[1..], delivered := if reached then l.delivered + [ev] else l.delivered,
       place := l.place[ev.serial := if reached then Delivered else Lost])
  }

  predicate Flushes(typ: nat, ev: Event) { typ == 0 || ev.typ == typ }

  function Surviving(queue: seq<Event>, typ: nat): seq<Event> {
    if |queue| == 0 then []
    else (if Flushes(typ, queue[0]) then [] else [queue[0]]) + Surviving(queue[1..], typ)
  }

  ghost predicate IsFlushed(l: Ledger, typ: nat, n: nat) {
    exists i :: 0 <= i < |l.queue| && l.queue[i].serial == n && Flushes(typ, l.queue[i])
  }

  ghost function FlushQueue(l: Ledger, typ: nat): Ledger {
    l.(queue := Surviving(l.queue, typ),
       place := seq(|l.place|, n requires 0 <= n < |l.place| => if IsFlushed(l, typ, n) then Flushed else l.place[n]))
  }

  // ---- invariant ---------------------------------------------------------

  /** Serial numbers stay inside the history; enough to make every move well defined. */
  ghost predicate Linked(l: Ledger) {
    && |l.place| == |l.subs|
    && (forall i :: 0 <= i < |l.pending| ==> l.pending[i].serial < |l.place|)
    && (forall i :: 0 <= i < |l.queue| ==> l.queue[i].serial < |l.place|)
  }

  predicate Kept(place: seq<Place>, ev: Event) {
    ev.serial < |place| && (place[ev.serial] == Queued || place[ev.serial] == Delivered)
  }

  /** The events of s that were neither flushed nor lost, in order. */
  function Keep(s: seq<Event>, place: seq<Place>): seq<Event> {
    if |s| == 0 then [] else Keep(s[..|s| - 1], place) + (if Kept(place, s[|s| - 1]) then [s[|s| - 1]] else [])
  }

  ghost predicate Distinct(s: seq<Event>) {
    forall i, j :: 0 <= i < j < |s| ==> s[i].serial != s[j].serial
  }

  ghost predicate Holds(s: seq<Event>, n: nat) {
    exists i :: 0 <= i < |s| && s[i].serial == n
  }

  ghost predicate Awaited(s: seq<Pending>, n: nat) {
    exists i :: 0 <= i < |s| && s[i].serial == n
  }

  ghost predicate PendingOk(l: Ledger)
    requires |l.place| == |l.subs|
  {
    && (forall i :: 0 <= i < |l.pending| ==>
          && l.pending[i].token < l.nextToken && l.pending[i].serial < |l.subs|
          && l.place[l.pending[i].serial] == InFlight
          && l.subs[l.pending[i].serial] == l.pending[i].op.userData)
    && (forall i, j :: 0 <= i < j < |l.pending| ==>
          l.pending[i].token < l.pending[j].token && l.pending[i].serial < l.pending[j].serial)
  }

  ghost predicate EventsOk(l: Ledger, s: seq<Event>, where: Place)
    requires |l.place| == |l.subs|
  {
    && Distinct(s)
    && forall i :: 0 <= i < |s| ==>
         && s[i].serial < |l.subs| && l.place[s[i].serial] == where
         && l.subs[s[i].serial] == s[i].userData && s[i].typ == EVENT_IO_COMPLETION
  }

  ghost predicate AllAwaited(l: Ledger) {
    forall n {:trigger Awaited(l.pending, n)} ::
      0 <= n < |l.place| && l.place[n] == InFlight ==> Awaited(l.pending, n)
  }

  ghost predicate AllHeld(l: Ledger, s: seq<Event>, where: Place) {
    forall n {:trigger Holds(s, n)} :: 0 <= n < |l.place| && l.place[n] == where ==> Holds(s, n)
  }

  predicate Landed(p: Place) { p != InFlight && p != Cancelled }

  /** No submission was pushed twice, and one that was pushed is neither in flight nor cancelled. */
  ghost predicate PushedOk(pushed: seq<Event>, place: seq<Place>) {
    Distinct(pushed) && forall i :: 0 <= i < |pushed| ==> pushed[i].serial < |place| && Landed(place[pushed[i].serial])
  }

  /** Each submission has one place, and the pending map, the queue and the delivered events are
      exactly the submissions placed there, once each, in token order or in push order. */
  ghost predicate Inv(l: Ledger)
    ensures Inv(l) ==> Linked(l)
  {
    && |l.place| == |l.subs|
    && PendingOk(l)
    && EventsOk(l, l.queue, Queued)
    && EventsOk(l, l.delivered, Delivered)
    && AllAwaited(l) && AllHeld(l, l.queue, Queued) && AllHeld(l, l.delivered, Delivered)
    && PushedOk(l.pushed, l.place)
    && Keep(l.pushed, l.place) == l.delivered + l.queue
  }

  lemma NoEvents(l: Ledger, s: seq<Event>, where: Place)
    requires |l.place| == |l.subs| == |s| == 0
    ensures EventsOk(l, s, where) && AllHeld(l, s, where)
  {
  }

  lemma NothingPending(l: Ledger)
    requires |l.place| == |l.subs| == |l.pending| == 0
    ensures PendingOk(l) && AllAwaited(l)
  {
  }

  lemma EmptyInv(l: Ledger)
    requires Empty(l)
    ensures Inv(l)
  {
    NothingPending(l);
    NoEvents(l, l.queue, Queued);
    NoEvents(l, l.delivered, Delivered);
  }

  /** The moves a submission can make; there is no way back. */
  predicate Later(a: Place, b: Place) {
    a == b || (a == InFlight && b != InFlight) || (a == Queued && (b == Delivered || b == Flushed || b == Lost))
  }

  /** l can develop into m: old submissions keep their user data and only move forward, and
      tokens are never reused. */
  ghost predicate Grows(l: Ledger, m: Ledger) {
    && |l.place| == |l.subs| && |m.place| == |m.subs| && l.subs <= m.subs
    && l.nextToken <= m.nextToken
    && (forall n :: 0 <= n < |l.place| ==> Later(l.place[n], m.place[n]))
    && (forall i :: 0 <= i < |m.pending| && m.pending[i].token < l.nextToken ==> m.pending[i] in l.pending)
    && l.delivered <= m.delivered && l.pushed <= m.pushed
  }

  lemma GrowsTrans(l: Ledger, m: Ledger, k: Ledger)
    requires Grows(l, m) && Grows(m, k)
    ensures Grows(l, k)
  {
  }

  // ---- how Keep reacts to each move ------------------------------------

  /** Keep only looks at the places of the events it filters. */
  lemma {:induction false} KeepSame(s: seq<Event>, a: seq<Place>, b: seq<Place>)
    requires forall i :: 0 <= i < |s| ==> (Kept(a, s[i]) <==> Kept(b, s[i]))
    ensures Keep(s, a) == Keep(s, b)
  {
    if s != [] { KeepSame(s[..|s| - 1], a, b); }
  }

  lemma {:induction false} KeepAppend(s: seq<Event>, t: seq<Event>, a: seq<Place>)
    ensures Keep(s + t, a) == Keep(s, a) + Keep(t, a)
  {
    if t == [] {
      assert s + t == s;
    } else {
      var u := t[..|t| - 1];
      KeepAppend(s, u, a);
      assert (s + t)[..|s + t| - 1] == s + u;
    }
  }

  /** Narrowing what is kept can be done in two passes. */
  lemma {:induction false} KeepTwice(s: seq<Event>, a: seq<Place>, b: seq<Place>)
    requires forall i :: 0 <= i < |s| && Kept(b, s[i]) ==> Kept(a, s[i])
    ensures Keep(s, b) == Keep(Keep(s, a), b)
  {
    if s != [] {
      var t, e := s[..|s| - 1], s[|s| - 1];
      KeepTwice(t, a, b);
      KeepAppend(Keep(t, a), if Kept(a, e) then [e] else [], b);
      assert Keep([e], b) == (if Kept(b, e) then [e] else []) by { assert [e][..0] == []; }
    }
  }

  lemma {:induction false} KeepAll(s: seq<Event>, a: seq<Place>)
    requires forall i :: 0 <= i < |s| ==> Kept(a, s[i])
    ensures Keep(s, a) == s
  {
    if s != [] { KeepAll(s[..|s| - 1], a); }
  }

  /** What is kept of a sequence is its kept events, no more and no fewer. */
  lemma {:induction false} KeepMembers(s: seq<Event>, a: seq<Place>)
    ensures forall ev :: ev in Keep(s, a) <==> ev in s && Kept(a, ev)
  {
    if s != [] {
      var t := s[..|s| - 1];
      KeepMembers(t, a);
      assert forall ev :: ev in s <==> ev in t || ev == s[|s| - 1];
    }
  }

  // ---- every move keeps the invariant and moves forward ------------------

  lemma RemovedMembers<T>(s: seq<T>, i: nat)
    requires i < |s|
    ensures |Removed(s, i)| == |s| - 1
    ensures forall j :: 0 <= j < |Removed(s, i)| ==> Removed(s, i)[j] == s[if j < i then j else j + 1]
  {
  }

  lemma RemovedKeeps<T>(s: seq<T>, i: nat, j: nat)
    requires i < |s| && j < |s| && i != j
    ensures |Removed(s, i)| == |s| - 1 && Removed(s, i)[if j < i then j else j - 1] == s[j]
  {
  }

  /** Events keep their standing in a ledger that has only grown around them. */
  lemma EventsCarry(l: Ledger, m: Ledger, s: seq<Event>, where: Place)
    requires |l.place| == |l.subs| && |m.place| == |m.subs| && l.subs <= m.subs
    requires forall n :: 0 <= n < |l.place| && l.place[n] == where ==> m.place[n] == where
    requires EventsOk(l, s, where)
    ensures EventsOk(m, s, where)
  {
  }

  lemma RegisterPending(l: Ledger, op: Op, handle: nat)
    requires |l.place| == |l.subs| && PendingOk(l) && AllAwaited(l)
    ensures PendingOk(Register(l, op, handle)) && AllAwaited(Register(l, op, handle))
  {
    var m := Register(l, op, handle);
    forall n | 0 <= n < |m.place| && m.place[n] == InFlight ensures Awaited(m.pending, n) {
      if n < |l.place| {
        assert Awaited(l.pending, n);
        var i :| 0 <= i < |l.pending| && l.pending[i].serial == n;
        assert m.pending[i].serial == n;
      } else {
        assert m.pending[|l.pending|].serial == n;
      }
    }
  }

  lemma RegisterInv(l: Ledger, op: Op, handle: nat)
    requires Inv(l)
    ensures Inv(Register(l, op, handle)) && Grows(l, Register(l, op, handle))
  {
    var m := Register(l, op, handle);
    RegisterPending(l, op, handle);
    EventsCarry(l, m, l.queue, Queued);
    EventsCarry(l, m, l.delivered, Delivered);
    KeepSame(l.pushed, l.place, m.place);
  }

  lemma HoldsMore(s: seq<Event>, ev: Event, n: nat)
    requires Holds(s, n) || ev.serial == n
    ensures Holds(s + [ev], n)
  {
    if Holds(s, n) {
      var i :| 0 <= i < |s| && s[i].serial == n;
      assert (s + [ev])[i].serial == n;
    } else {
      assert (s + [ev])[|s|].serial == n;
    }
  }

  lemma PushNowQueue(l: Ledger, userData: nat, result: int)
    requires |l.place| == |l.subs| && EventsOk(l, l.queue, Queued) && AllHeld(l, l.queue, Queued)
    ensures EventsOk(PushNow(l, userData, result), PushNow(l, userData, result).queue, Queued)
    ensures AllHeld(PushNow(l, userData, result), PushNow(l, userData, result).queue, Queued)
  {
    var m := PushNow(l, userData, result);
    EventsCarry(l, m, l.queue, Queued);
    forall n | 0 <= n < |m.place| && m.place[n] == Queued ensures Holds(m.queue, n) {
      assert n < |l.place| ==> Holds(l.queue, n);
      HoldsMore(l.queue, Completion(userData, result, |l.subs|), n);
    }
  }

  /** A push is kept at the end when its own submission is kept and no earlier one changes its standing. */
  lemma KeepPush(pushed: seq<Event>, place: seq<Place>, after: seq<Place>, ev: Event,
      front: seq<Event>, queue: seq<Event>)
    requires Keep(pushed, place) == front + queue && Kept(after, ev)
    requires forall i :: 0 <= i < |pushed| ==> (Kept(place, pushed[i]) <==> Kept(after, pushed[i]))
    ensures Keep(pushed + [ev], after) == front + (queue + [ev])
  {
    KeepSame(pushed, place, after);
    assert (pushed + [ev])[..|pushed|] == pushed;
    assert front + queue + [ev] == front + (queue + [ev]);
  }

  lemma PushNowPending(l: Ledger, userData: nat, result: int)
    requires |l.place| == |l.subs| && PendingOk(l) && AllAwaited(l)
    ensures PendingOk(PushNow(l, userData, result)) && AllAwaited(PushNow(l, userData, result))
  {
    var m := PushNow(l, userData, result);
    forall n | 0 <= n < |m.place| && m.place[n] == InFlight ensures Awaited(m.pending, n) {
      assert Awaited(l.pending, n);
    }
  }

  lemma PushNowDelivered(l: Ledger, userData: nat, result: int)
    requires |l.place| == |l.subs| && EventsOk(l, l.delivered, Delivered) && AllHeld(l, l.delivered, Delivered)
    ensures EventsOk(PushNow(l, userData, result), l.delivered, Delivered)
    ensures AllHeld(PushNow(l, userData, result), l.delivered, Delivered)
  {
    var m := PushNow(l, userData, result);
    EventsCarry(l, m, l.delivered, Delivered);
    forall n | 0 <= n < |m.place| && m.place[n] == Delivered ensures Holds(l.delivered, n) {
      assert n < |l.place| && l.place[n] == Delivered;
    }
  }

  /** A push for a submission that was not pushed before, or was in flight. */
  lemma PushedMore(pushed: seq<Event>, place: seq<Place>, after: seq<Place>, ev: Event)
    requires PushedOk(pushed, place) && ev.serial < |after| && Landed(after[ev.serial]) && |place| <= |after|
    requires ev.serial >= |place| || !Landed(place[ev.serial])
    requires forall n :: 0 <= n < |place| && n != ev.serial ==> after[n] == place[n]
    ensures PushedOk(pushed + [ev], after)
    ensures forall i :: 0 <= i < |pushed| ==> (Kept(place, pushed[i]) <==> Kept(after, pushed[i]))
  {
    forall i | 0 <= i < |pushed| ensures pushed[i].serial < |place| && pushed[i].serial != ev.serial {
      assert Landed(place[pushed[i].serial]);
    }
  }

  lemma PushNowGrows(l: Ledger, userData: nat, result: int)
    requires |l.place| == |l.subs|
    ensures Grows(l, PushNow(l, userData, result))
  {
  }

  lemma PushNowPushed(l: Ledger, userData: nat, result: int)
    requires |l.place| == |l.subs| && PushedOk(l.pushed, l.place) && Keep(l.pushed, l.place) == l.delivered + l.queue
    ensures var m := PushNow(l, userData, result);
      PushedOk(m.pushed, m.place) && Keep(m.pushed, m.place) == m.delivered + m.queue
  {
    var m, ev := PushNow(l, userData, result), Completion(userData, result, |l.subs|);
    PushedMore(l.pushed, l.place, m.place, ev);
    KeepPush(l.pushed, l.place, m.place, ev, l.delivered, l.queue);
  }

  lemma PushNowInv(l: Ledger, userData: nat, result: int)
    requires Inv(l)
    ensures Inv(PushNow(l, userData, result)) && Grows(l, PushNow(l, userData, result))
  {
    PushNowPending(l, userData, result);
    PushNowQueue(l, userData, result);
    PushNowDelivered(l, userData, result);
    PushNowPushed(l, userData, result);
    PushNowGrows(l, userData, result);
  }

  lemma TrapInv(l: Ledger, userData: nat)
    requires Inv(l)
    ensures Inv(Trap(l, userData)) && Grows(l, Trap(l, userData))
  {
    KeepSame(l.pushed, l.place, Trap(l, userData).place);
  }

  /** Entry i left for another place; nothing else changed in the pending map. */
  ghost predicate TookOut(l: Ledger, i: nat, m: Ledger) {
    && |l.place| == |l.subs| && i < |l.pending| && l.pending[i].serial < |l.place|
    && m.pending == Removed(l.pending, i) && m.nextToken == l.nextToken && m.subs == l.subs
    && |m.place| == |l.place| && m.place[l.pending[i].serial] != InFlight
    && forall n :: 0 <= n < |l.place| && n != l.pending[i].serial ==> m.place[n] == l.place[n]
  }

  lemma TookOutPending(l: Ledger, i: nat, m: Ledger)
    requires TookOut(l, i, m) && PendingOk(l)
    ensures PendingOk(m)
    ensures forall p :: p in m.pending ==> p in l.pending
  {
    RemovedMembers(l.pending, i);
    forall j | 0 <= j < |m.pending| ensures m.pending[j] in l.pending && m.pending[j].serial != l.pending[i].serial {
      var k := if j < i then j else j + 1;
      assert m.pending[j] == l.pending[k];
    }
  }

  lemma TookOutAwaited(l: Ledger, i: nat, m: Ledger)
    requires TookOut(l, i, m) && AllAwaited(l)
    ensures AllAwaited(m)
  {
    forall n | 0 <= n < |m.place| && m.place[n] == InFlight ensures Awaited(m.pending, n) {
      assert Awaited(l.pending, n);
      var j :| 0 <= j < |l.pending| && l.pending[j].serial == n;
      RemovedKeeps(l.pending, i, j);
      assert m.pending[if j < i then j else j - 1].serial == n;
    }
  }

  lemma TookOutEvents(l: Ledger, i: nat, m: Ledger)
    requires Inv(l) && TookOut(l, i, m)
    ensures EventsOk(m, l.queue, Queued) && EventsOk(m, l.delivered, Delivered)
    ensures Keep(l.pushed, m.place) == l.delivered + l.queue
    ensures forall k :: 0 <= k < |l.queue| ==> l.queue[k].serial != l.pending[i].serial
  {
    KeepSame(l.pushed, l.place, m.place);
  }

  lemma DropInv(l: Ledger, i: nat, why: Place)
    requires Inv(l) && i < |l.pending| && (why == Cancelled || why == Lost)
    ensures Inv(Drop(l, i, why)) && Grows(l, Drop(l, i, why))
  {
    TookOutPending(l, i, Drop(l, i, why));
    TookOutAwaited(l, i, Drop(l, i, why));
    TookOutEvents(l, i, Drop(l, i, why));
  }

  /** The queue after a completion is pushed: one more event, for the serial that just left flight. */
  lemma FinishQueue(l: Ledger, i: nat, result: int)
    requires Linked(l) && i < |l.pending| && l.place[l.pending[i].serial] == InFlight
    requires l.subs[l.pending[i].serial] == l.pending[i].op.userData
    requires EventsOk(l, l.queue, Queued) && AllHeld(l, l.queue, Queued)
    ensures EventsOk(Finish(l, i, result), Finish(l, i, result).queue, Queued)
    ensures AllHeld(Finish(l, i, result), Finish(l, i, result).queue, Queued)
  {
    var m := Finish(l, i, result);
    var ev := Completion(l.pending[i].op.userData, result, l.pending[i].serial);
    EventsCarry(l, m, l.queue, Queued);
    forall n | 0 <= n < |m.place| && m.place[n] == Queued ensures Holds(m.queue, n) {
      assert n < |l.place| && l.place[n] == Queued ==> Holds(l.queue, n);
      HoldsMore(l.queue, ev, n);
    }
  }

  lemma FinishPushed(l: Ledger, i: nat, result: int)
    requires Linked(l) && i < |l.pending| && l.place[l.pending[i].serial] == InFlight
    requires PushedOk(l.pushed, l.place) && Keep(l.pushed, l.place) == l.delivered + l.queue
    ensures var m := Finish(l, i, result);
      PushedOk(m.pushed, m.place) && Keep(m.pushed, m.place) == m.delivered + m.queue
  {
    var m, p := Finish(l, i, result), l.pending[i];
    var ev := Completion(p.op.userData, result, p.serial);
    PushedMore(l.pushed, l.place, m.place, ev);
    KeepPush(l.pushed, l.place, m.place, ev, l.delivered, l.queue);
  }

  lemma FinishDelivered(l: Ledger, i: nat, result: int)
    requires Linked(l) && i < |l.pending| && l.place[l.pending[i].serial] == InFlight
    requires EventsOk(l, l.delivered, Delivered) && AllHeld(l, l.delivered, Delivered)
    ensures EventsOk(Finish(l, i, result), l.delivered, Delivered)
    ensures AllHeld(Finish(l, i, result), l.delivered, Delivered)
  {
    var m := Finish(l, i, result);
    EventsCarry(l, m, l.delivered, Delivered);
    forall n | 0 <= n < |m.place| && m.place[n] == Delivered ensures Holds(l.delivered, n) {
      assert l.place[n] == Delivered;
    }
  }

  lemma FinishPending(l: Ledger, i: nat, result: int)
    requires Linked(l) && i < |l.pending| && PendingOk(l) && AllAwaited(l)
    ensures PendingOk(Finish(l, i, result)) && AllAwaited(Finish(l, i, result)) && Grows(l, Finish(l, i, result))
  {
    var m := Finish(l, i, result);
    TookOutPending(l, i, m);
    TookOutAwaited(l, i, m);
  }

  lemma FinishInv(l: Ledger, i: nat, result: int)
    requires Inv(l) && i < |l.pending|
    ensures Inv(Finish(l, i, result)) && Grows(l, Finish(l, i, result))
  {
    FinishPending(l, i, result);
    FinishQueue(l, i, result);
    FinishDelivered(l, i, result);
    FinishPushed(l, i, result);
  }

  lemma HoldsTail(s: seq<Event>, n: nat)
    requires s != [] && Holds(s, n) && s[0].serial != n
    ensures Holds(s[1..], n)
  {
  }

  /** The queue's head moves on; the rest of the ledger keeps its places. */
  lemma ShiftPlaces(l: Ledger, reached: bool)
    requires Inv(l) && l.queue != []
    ensures var m := Shift(l, reached);
      && PendingOk(m) && EventsOk(m, m.queue, Queued) && EventsOk(m, l.delivered, Delivered)
      && AllAwaited(m) && AllHeld(m, m.queue, Queued) && AllHeld(m, m.delivered, Delivered) && Grows(l, m)
      && forall k :: 0 <= k < |l.delivered| ==> l.delivered[k].serial != l.queue[0].serial
  {
    var m, ev := Shift(l, reached), l.queue[0];
    EventsCarry(l, m, l.delivered, Delivered);
    forall n | 0 <= n < |m.place| && m.place[n] == Queued ensures Holds(m.queue, n) {
      assert Holds(l.queue, n);
      HoldsTail(l.queue, n);
    }
    forall n | 0 <= n < |m.place| && m.place[n] == Delivered ensures Holds(m.delivered, n) {
      assert l.place[n] == Delivered ==> Holds(l.delivered, n);
      if reached { HoldsMore(l.delivered, ev, n); }
    }
  }

  /** Dropping one event from the middle of a kept sequence, when only that event stops being kept. */
  lemma KeepWithout(s: seq<Event>, front: seq<Event>, ev: Event, back: seq<Event>, a: seq<Place>, b: seq<Place>)
    requires Keep(s, a) == front + [ev] + back
    requires forall e :: Kept(b, e) ==> Kept(a, e)
    requires !Kept(b, ev)
    requires forall k :: 0 <= k < |front| ==> Kept(b, front[k])
    requires forall k :: 0 <= k < |back| ==> Kept(b, back[k])
    ensures Keep(s, b) == front + back
  {
    KeepTwice(s, a, b);
    KeepAppend(front + [ev], back, b);
    KeepAppend(front, [ev], b);
    KeepAll(front, b);
    KeepAll(back, b);
    calc {
      Keep(s, b);
      Keep((front + [ev]) + back, b);
      Keep(front + [ev], b) + back;
      { assert Keep([ev], b) == [] by { assert [ev][..0] == []; } }
      (front + []) + back;
      { assert front + [] == front; }
      front + back;
    }
  }

  lemma ShiftKeeps(l: Ledger, reached: bool)
    requires Inv(l) && l.queue != []
    ensures Keep(l.pushed, Shift(l, reached).place) == Shift(l, reached).delivered + l.queue[1..]
  {
    var m, ev := Shift(l, reached), l.queue[0];
    assert l.delivered + l.queue == l.delivered + [ev] + l.queue[1..];
    if reached {
      KeepSame(l.pushed, l.place, m.place);
    } else {
      KeepWithout(l.pushed, l.delivered, ev, l.queue[1..], l.place, m.place);
    }
  }

  lemma ShiftInv(l: Ledger, reached: bool)
    requires Inv(l) && l.queue != []
    ensures Inv(Shift(l, reached)) && Grows(l, Shift(l, reached))
  {
    ShiftPlaces(l, reached);
    ShiftKeeps(l, reached);
  }

  // ---- flush ----------------------------------------------------------------

  /** Membership in the surviving queue, in both directions. */
  lemma {:induction false} SurvivingMembers(q: seq<Event>, typ: nat)
    ensures forall ev :: ev in Surviving(q, typ) <==> ev in q && !Flushes(typ, ev)
  {
    if q != [] { SurvivingMembers(q[1..], typ); }
  }

  lemma {:induction false} SurvivingDistinct(q: seq<Event>, typ: nat)
    requires Distinct(q)
    ensures Distinct(Surviving(q, typ))
  {
    if q != [] {
      SurvivingDistinct(q[1..], typ);
      SurvivingMembers(q[1..], typ);
      var t := Surviving(q[1..], typ);
      forall j | 0 <= j < |t| ensures t[j].serial != q[0].serial { assert t[j] in q[1..]; }
    }
  }

  /** The survivors are exactly what Keep leaves of the queue under the new places. */
  lemma {:induction false} SurvivingIsKeep(q: seq<Event>, typ: nat, place: seq<Place>)
    requires forall i :: 0 <= i < |q| ==> (Kept(place, q[i]) <==> !Flushes(typ, q[i]))
    ensures Keep(q, place) == Surviving(q, typ)
  {
    if q != [] {
      SurvivingIsKeep(q[1..], typ, place);
      KeepAppend([q[0]], q[1..], place);
      assert q == [q[0]] + q[1..];
      assert Keep([q[0]], place) == (if Flushes(typ, q[0]) then [] else [q[0]]) by { assert [q[0]][..0] == []; }
    }
  }

  lemma FlushPlaces(l: Ledger, typ: nat)
    requires Inv(l)
    ensures var m := FlushQueue(l, typ);
      && (forall i :: 0 <= i < |l.queue| ==> (Kept(m.place, l.queue[i]) <==> !Flushes(typ, l.queue[i])))
      && (forall n :: 0 <= n < |l.place| ==>
            if l.place[n] == Queued && IsFlushed(l, typ, n) then m.place[n] == Flushed else m.place[n] == l.place[n])
  {
  }

  lemma FlushQueueOk(l: Ledger, typ: nat)
    requires Inv(l)
    ensures EventsOk(FlushQueue(l, typ), FlushQueue(l, typ).queue, Queued)
    ensures forall n :: 0 <= n < |l.place| && FlushQueue(l, typ).place[n] == Queued ==>
      Holds(FlushQueue(l, typ).queue, n)
  {
    var m := FlushQueue(l, typ);
    FlushPlaces(l, typ);
    SurvivingMembers(l.queue, typ);
    SurvivingDistinct(l.queue, typ);
    forall i | 0 <= i < |m.queue|
      ensures m.queue[i].serial < |m.subs| && m.place[m.queue[i].serial] == Queued
      ensures m.subs[m.queue[i].serial] == m.queue[i].userData && m.queue[i].typ == EVENT_IO_COMPLETION
    {
      assert m.queue[i] in l.queue && !Flushes(typ, m.queue[i]);
    }
    forall n | 0 <= n < |m.place| && m.place[n] == Queued ensures Holds(m.queue, n) {
      assert Holds(l.queue, n);
      var i :| 0 <= i < |l.queue| && l.queue[i].serial == n;
      assert l.queue[i] in m.queue;
    }
  }

  lemma FlushKeeps(l: Ledger, typ: nat)
    requires Inv(l)
    ensures Keep(l.pushed, FlushQueue(l, typ).place) == l.delivered + FlushQueue(l, typ).queue
  {
    var m := FlushQueue(l, typ);
    FlushPlaces(l, typ);
    KeepTwice(l.pushed, l.place, m.place);
    KeepAppend(l.delivered, l.queue, m.place);
    KeepAll(l.delivered, m.place);
    SurvivingIsKeep(l.queue, typ, m.place);
  }

  /** What a flush does not touch: pending entries, delivered events, and that pushes stay pushes. */
  lemma FlushSpares(l: Ledger, typ: nat)
    requires Inv(l)
    ensures var m := FlushQueue(l, typ);
      && PendingOk(m) && AllAwaited(m) && PushedOk(m.pushed, m.place)
      && EventsOk(m, m.delivered, Delivered) && AllHeld(m, m.delivered, Delivered)
  {
    var m := FlushQueue(l, typ);
    FlushPlaces(l, typ);
    EventsCarry(l, m, l.delivered, Delivered);
    forall n | 0 <= n < |m.place| && m.place[n] == InFlight ensures Awaited(m.pending, n) {
      assert Awaited(l.pending, n);
    }
    forall n | 0 <= n < |m.place| && m.place[n] == Delivered ensures Holds(m.delivered, n) {
      assert Holds(l.delivered, n);
    }
  }

  lemma FlushInv(l: Ledger, typ: nat)
    requires Inv(l)
    ensures Inv(FlushQueue(l, typ)) && Grows(l, FlushQueue(l, typ))
  {
    FlushPlaces(l, typ);
    FlushSpares(l, typ);
    FlushQueueOk(l, typ);
    FlushKeeps(l, typ);
  }
}
