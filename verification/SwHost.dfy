/** The engine as the object createSwHost builds: mutable fields, one method per operation,
    each proved to take exactly the step `IoEngine` describes. */
module SwHost {
  import opened Common
  import opened GuestMemory
  import opened IoLedger
  import opened IoEngine

  class SwHost {
    var memory: seq<byte>
    var viewsLive: bool
    var handles: map<int, Socket>
    var nextHandle: nat
    var ioPending: seq<Pending>
    var ioNextToken: nat
    var eventQueue: seq<Event>
    var submitted: nat                 // the next serial number
    ghost var subs: seq<nat>
    ghost var place: seq<Place>
    ghost var pushed: seq<Event>
    ghost var delivered: seq<Event>

    ghost function Books(): Ledger
      reads this
    {
      Ledger(ioPending, ioNextToken, eventQueue, subs, place, pushed, delivered)
    }

    ghost function Snapshot(): Host
      reads this
    {
      Host(memory, viewsLive, handles, nextHandle, Books())
    }

    ghost predicate Valid()
      reads this
    {
      Linked(Books()) && submitted == |subs|
    }

    constructor (mem: seq<byte>)
      ensures Valid() && Fresh(Snapshot()) && memory == mem
    {
      memory, viewsLive, handles, nextHandle := mem, true, map[], 1;
      ioPending, ioNextToken, eventQueue, submitted := [], 1, [], 0;
      subs, place, pushed, delivered := [], [], [], [];
    }

    /** Stores through the typed arrays; false when one of them throws. */
    method StoreAll(t: Transfer, reportAt: nat, report: nat) returns (ok: bool)
      modifies this`memory, this`viewsLive
      ensures Stored(memory, viewsLive, ok) == GuestStores(old(memory), old(viewsLive), t, reportAt, report)
    {
      ok := true;
      if t.Transfer? {
        viewsLive := true;
        if t.at + |t.bytes| > |memory| { return false; }
        memory := Store(memory, t.at, t.bytes);
      }
      if reportAt != 0 {
        if !viewsLive || reportAt + 8 > |memory| { return false; }
        memory := Store(memory, reportAt, LittleEndian(report, 8));
      }
    }

    /** pushIoCompletion of an op answered within dispatch. */
    method PushNew(op: Op, result: int)
      requires submitted == |subs|
      modifies this`eventQueue, this`submitted, this`subs, this`place, this`pushed
      ensures Books() == PushNow(old(Books()), op.userData, result) && submitted == |subs|
    {
      var ev := Completion(op.userData, result, submitted);
      eventQueue := eventQueue + [ev];
      pushed, place, subs := pushed + [ev], place + [Queued], subs + [op.userData];
      submitted := submitted + 1;
    }

    /** The synchronous tail of dispatchOp: store, then pushIoCompletion, unless a store throws. */
    method AnswerNow(op: Op, t: Transfer, reportAt: nat, report: nat, result: int) returns (threw: bool)
      requires submitted == |subs|
      modifies this
      ensures (Snapshot(), threw) == Answer(old(Snapshot()), op, t, reportAt, report, result)
      ensures submitted == |subs|
    {
      var ok := StoreAll(t, reportAt, report);
      if ok {
        PushNew(op, result);
      } else {
        subs, place := subs + [op.userData], place + [Lost];
        submitted := submitted + 1;
      }
      return !ok;
    }

    /** `_ioPending.set` under a fresh token. */
    method AddPending(op: Op, handle: nat)
      requires submitted == |subs|
      modifies this`ioPending, this`ioNextToken, this`submitted, this`subs, this`place
      ensures Books() == Register(old(Books()), op, handle) && submitted == |subs|
    {
      ioPending := ioPending + [Pending(ioNextToken, submitted, op, handle)];
      ioNextToken := ioNextToken + 1;
      subs, place := subs + [op.userData], place + [InFlight];
      submitted := submitted + 1;
    }

    method DispatchOp(op: Op) returns (threw: bool)
      requires Valid()
      modifies this
      ensures Valid()
      ensures (Snapshot(), threw) == Dispatch(old(Snapshot()), op)
    {
      DispatchLinked(Snapshot(), op);
      viewsLive := true;
      threw := false;
      if op.opcode == OP_NOP {
        threw := AnswerNow(op, NoTransfer, op.resultPtr, 0, WAPI_OK);
      } else if op.opcode == OP_LOG {
      } else if op.opcode == OP_TIMEOUT || op.opcode == OP_HTTP_FETCH {
        AddPending(op, 0);
      } else if op.opcode == OP_COMPRESS {
        if op.flags2 % 4 == 3 {
          threw := AnswerNow(op, NoTransfer, op.resultPtr, 0, ERR_NOTSUP);
        } else {
          AddPending(op, 0);
        }
      } else if op.opcode == OP_CONNECT {
        var handle := nextHandle;
        handles := handles[handle := Socket(false, [])];
        nextHandle := nextHandle + 1;
        AddPending(op, handle);
      } else if op.opcode == OP_SEND {
        if op.fd !in handles || !handles[op.fd].open {
          threw := AnswerNow(op, NoTransfer, 0, 0, ERR_BADF);
        } else {
          threw := AnswerNow(op, NoTransfer, op.resultPtr, op.len, WAPI_OK);
        }
      } else if op.opcode == OP_RECV {
        if op.fd !in handles {
          threw := AnswerNow(op, NoTransfer, 0, 0, ERR_BADF);
        } else if handles[op.fd].inbox == [] {
          threw := AnswerNow(op, NoTransfer, 0, 0, ERR_AGAIN);
        } else {
          var msg := handles[op.fd].inbox[0];
          handles := handles[op.fd := handles[op.fd].(inbox := handles[op.fd].inbox[1..])];
          var n := Min(|msg|, op.len);
          threw := AnswerNow(op, Transfer(op.addr, msg[..n]), op.resultPtr, n, WAPI_OK);
        }
      } else {
        threw := AnswerNow(op, NoTransfer, op.resultPtr, 0, ERR_NOTSUP);
      }
    }

    method Submit(ops: seq<Op>) returns (threw: bool)
      requires Valid()
      modifies this
      ensures Valid()
      ensures (Snapshot(), threw) == SubmitAll(old(Snapshot()), ops)
    {
      threw := false;
      for i := 0 to |ops|
        invariant Valid() && !threw
        invariant SubmitAll(old(Snapshot()), ops) == SubmitAll(Snapshot(), ops[i..])
      {
        threw := DispatchOp(ops[i]);
        if threw { return; }
      }
    }

    /** pushIoCompletion, for a submission that is already in flight. */
    method PushIoCompletion(p: Pending, result: int)
      requires p.serial < |place|
      modifies this`eventQueue, this`pushed, this`place
      ensures var ev := Completion(p.op.userData, result, p.serial);
        && eventQueue == old(eventQueue) + [ev] && pushed == old(pushed) + [ev]
        && place == old(place)[p.serial := Queued]
    {
      var ev := Completion(p.op.userData, result, p.serial);
      eventQueue, pushed := eventQueue + [ev], pushed + [ev];
      place := place[p.serial := Queued];
    }

    /** The live part of a callback: delete the token, store, complete unless a store threw. */
    method ConcludeAt(i: nat, e: Effect)
      requires Valid() && i < |ioPending|
      modifies this
      ensures Snapshot() == Conclude(old(Snapshot()), i, e) && submitted == old(submitted)
    {
      var p := ioPending[i];
      ioPending := Removed(ioPending, i);
      var ok := StoreAll(e.payload, e.reportAt, e.report);
      if ok {
        PushIoCompletion(p, e.result);
      } else {
        place := place[p.serial := Lost];
      }
    }

    /** A host callback: looks its token up, and does nothing when the token is gone. */
    method OnSettled(token: nat, o: Outcome)
      requires Valid()
      modifies this
      ensures Valid()
      ensures Snapshot() == Settle(old(Snapshot()), token, o)
    {
      SettleLinked(Snapshot(), token, o);
      var i := IndexOf(ioPending, token);
      if i == |ioPending| || ioPending[i].op.opcode != Opcode(o) { return; }
      var p := ioPending[i];
      if o.SocketOpens? && p.handle in handles {
        handles := handles[p.handle := handles[p.handle].(open := true)];
      }
      if o.SocketFails? { handles := handles - {p.handle}; }
      ConcludeAt(i, EffectOf(p, o));
    }

    method Cancel(userData: nat) returns (r: int)
      requires Valid()
      modifies this
      ensures Valid()
      ensures (Snapshot(), r) == CancelOp(old(Snapshot()), userData)
    {
      for i := 0 to |ioPending|
        invariant Snapshot() == old(Snapshot()) && Valid()
        invariant FirstWith(ioPending, userData) >= i
      {
        var p := ioPending[i];
        if p.op.userData == userData {
          assert FirstWith(ioPending, userData) == i;
          if p.op.opcode == OP_CONNECT && p.handle in handles {
            handles := handles[p.handle := handles[p.handle].(open := false)];
          }
          ioPending := Removed(ioPending, i);
          place := place[p.serial := Cancelled];
          return WAPI_OK;
        }
      }
      return ERR_NOENT;
    }

    /** `_eventQueue.shift`; reached says whether the guest will get to see the event. */
    method TakeHead(ghost reached: bool) returns (ev: Event)
      requires Valid() && eventQueue != []
      modifies this`eventQueue, this`delivered, this`place
      ensures Valid() && ev == old(eventQueue)[0] && Books() == Shift(old(Books()), reached)
    {
      ev := eventQueue[0];
      eventQueue := eventQueue[1..];
      if reached { delivered := delivered + [ev]; }
      place := place[ev.serial := if reached then Delivered else Lost];
    }

    /** writeEvent, as far as memory reaches; false when a store of its fields throws. */
    method WriteEvent(eventPtr: nat, ev: Event) returns (stored: bool)
      modifies this`memory
      ensures var room := if eventPtr <= |old(memory)| then |old(memory)| - eventPtr else 0;
        && stored == (room >= 24)
        && memory == Store(old(memory), eventPtr, EventImage(ev, room)[..Min(room, IO_EVENT_SIZE)])
    {
      var room := if eventPtr <= |memory| then |memory| - eventPtr else 0;
      memory := Store(memory, eventPtr, EventImage(ev, room)[..Min(room, IO_EVENT_SIZE)]);
      stored := room >= 24;
    }

    method Poll(eventPtr: nat) returns (r: Polled)
      requires Valid()
      modifies this
      ensures Valid()
      ensures (Snapshot(), r) == PollOp(old(Snapshot()), eventPtr)
    {
      if eventQueue == [] { return Nothing; }
      viewsLive := true;
      var ev := TakeHead(eventPtr + 24 <= |memory|);
      var stored := WriteEvent(eventPtr, ev);
      r := if stored then Got(ev) else PollTrapped;
    }

    /** wait cannot block the worker: it is poll, whatever the timeout. */
    method Wait(eventPtr: nat, timeoutMs: int) returns (r: Polled)
      requires Valid()
      modifies this
      ensures Valid()
      ensures (Snapshot(), r) == PollOp(old(Snapshot()), eventPtr)
    {
      r := Poll(eventPtr);
    }

    /** `_eventQueue.filter`. */
    static method Filter(queue: seq<Event>, typ: nat) returns (kept: seq<Event>)
      ensures kept == Surviving(queue, typ)
    {
      kept := [];
      for i := 0 to |queue|
        invariant Surviving(queue, typ) == kept + Surviving(queue[i..], typ)
      {
        if !Flushes(typ, queue[i]) { kept := kept + [queue[i]]; }
      }
    }

    method Flush(typ: nat)
      requires Valid()
      modifies this
      ensures Valid()
      ensures Snapshot() == Next(old(Snapshot()), IoEngine.Flush(typ))
    {
      FlushLinked(Books(), typ);
      ghost var after := FlushQueue(Books(), typ);
      if typ == 0 {
        FlushAll(eventQueue);
        eventQueue := [];
      } else {
        eventQueue := Filter(eventQueue, typ);
      }
      place := after.place;
      assert Books() == after;
    }

    static lemma FlushAll(queue: seq<Event>)
      ensures Surviving(queue, 0) == []
    {
    }
  }
}
