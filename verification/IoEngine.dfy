/** The service-worker I/O engine: op dispatch, host callbacks as atomic steps, and the guest's
    submit, cancel, poll, wait and flush. `Next` gives one step; class SwHost is the engine itself. */
module IoEngine {
  import opened Common
  import opened GuestMemory
  import opened IoLedger

  const WAPI_OK: int := 0
  const ERR_NOTSUP: int := -3
  const ERR_IO: int := -5
  const ERR_BADF: int := -8
  const ERR_NOENT: int := -9
  const ERR_AGAIN: int := -11
  const ERR_OVERFLOW: int := -12

  const OP_NOP: u32 := 0x000
  const OP_LOG: u32 := 0x006
  const OP_CONNECT: u32 := 0x00A
  const OP_SEND: u32 := 0x00C
  const OP_RECV: u32 := 0x00D
  const OP_TIMEOUT: u32 := 0x014
  const OP_HTTP_FETCH: u32 := 0x060
  const OP_COMPRESS: u32 := 0x140

  const IO_EVENT_SIZE: nat := 128

  datatype Socket = Socket(open: bool, inbox: seq<seq<byte>>)

  /** `viewsLive` is false once the guest has grown its memory since the last refreshViews:
      the host's typed arrays then sit on a detached buffer and a store through them throws. */
  datatype Host = Host(mem: seq<byte>, viewsLive: bool, handles: map<int, Socket>, nextHandle: nat, ledger: Ledger)

  /** The state createSwHost builds. */
  predicate Fresh(h: Host) {
    h.viewsLive && |h.handles| == 0 && h.nextHandle == 1 && Empty(h.ledger)
  }

  // ---- stores into guest memory that may throw ---------------------------

  datatype Transfer = NoTransfer | Transfer(at: nat, bytes: seq<byte>)
  datatype Stored = Stored(mem: seq<byte>, live: bool, ok: bool)

  /** Payload first (after a refreshViews), then the eight-byte report unless its pointer is null. */
  function GuestStores(mem: seq<byte>, live: bool, t: Transfer, reportAt: nat, report: nat): Stored {
    if t.Transfer? && t.at + |t.bytes| > |mem| then Stored(mem, true, false)
    else
      var mem1 := if t.Transfer? then Store(mem, t.at, t.bytes) else mem;
      var live1 := live || t.Transfer?;
      if reportAt == 0 then Stored(mem1, live1, true)
      else if !live1 || reportAt + 8 > |mem| then Stored(mem1, live1, false)
      else Stored(Store(mem1, reportAt, LittleEndian(report, 8)), live1, true)
  }

  /** The payload of a fetch or compression result: clipped to len2, nothing when addr2 is null. */
  function Payload(op: Op, body: seq<byte>): Transfer {
    var n := Min(|body|, op.len2);
    if op.addr2 != 0 && n > 0 then Transfer(op.addr2, body[..n]) else NoTransfer
  }

  // ---- dispatch ------------------------------------------------------------

  /** A synchronous op: store, then complete; a store that throws traps into the guest. */
  function Answer(h: Host, op: Op, t: Transfer, reportAt: nat, report: nat, result: int): (r: (Host, bool))
    ensures Linked(h.ledger) ==> Linked(r.0.ledger)
  {
    var s := GuestStores(h.mem, h.viewsLive, t, reportAt, report);
    var l := if s.ok then PushNow(h.ledger, op.userData, result) else Trap(h.ledger, op.userData);
    (h.(mem := s.mem, viewsLive := s.live, ledger := l), !s.ok)
  }

  function Fail(h: Host, op: Op, result: int): (r: (Host, bool))
    ensures Linked(h.ledger) ==> Linked(r.0.ledger)
  {
    Answer(h, op, NoTransfer, 0, 0, result)
  }

  /** dispatchOp; the flag says that the call threw. */
  function Dispatch(h0: Host, op: Op): (Host, bool) {
    var h := h0.(viewsLive := true);
    if op.opcode == OP_NOP then Answer(h, op, NoTransfer, op.resultPtr, 0, WAPI_OK)
    else if op.opcode == OP_LOG then (h, false)
    else if op.opcode == OP_TIMEOUT || op.opcode == OP_HTTP_FETCH then
      (h.(ledger := Register(h.ledger, op, 0)), false)
    else if op.opcode == OP_COMPRESS then
      if op.flags2 % 4 == 3 then Answer(h, op, NoTransfer, op.resultPtr, 0, ERR_NOTSUP)
      else (h.(ledger := Register(h.ledger, op, 0)), false)
    else if op.opcode == OP_CONNECT then
      (h.(handles := h.handles[h.nextHandle := Socket(false, [])], nextHandle := h.nextHandle + 1,
          ledger := Register(h.ledger, op, h.nextHandle)), false)
    else if op.opcode == OP_SEND then
      if op.fd !in h.handles || !h.handles[op.fd].open then Fail(h, op, ERR_BADF)
      else Answer(h, op, NoTransfer, op.resultPtr, op.len, WAPI_OK)
    else if op.opcode == OP_RECV then
      if op.fd !in h.handles then Fail(h, op, ERR_BADF)
      else if h.handles[op.fd].inbox == [] then Fail(h, op, ERR_AGAIN)
      else
        var sock := h.handles[op.fd];
        var n := Min(|sock.inbox[0]|, op.len);
        Answer(h.(handles := h.handles[op.fd := sock.(inbox := sock.inbox[1..])]), op,
               Transfer(op.addr, sock.inbox[0][..n]), op.resultPtr, n, WAPI_OK)
    else Answer(h, op, NoTransfer, op.resultPtr, 0, ERR_NOTSUP)
  }

  /** wapi_io.submit: ops in order, stopping where one traps. */
  function SubmitAll(h: Host, ops: seq<Op>): (Host, bool)
    decreases ops
  {
    if |ops| == 0 then (h, false)
    else
      var (h1, trapped) := Dispatch(h, ops[0]);
      if trapped then (h1, true) else SubmitAll(h1, ops[1..])
  }

  // ---- host callbacks ---------------------------------------------------

  /** The pending entry a callback of this kind would settle, or |pending| when its token is gone. */
  function Live(h: Host, token: nat, opcode: u32): (i: nat)
    ensures i <= |h.ledger.pending|
    ensures i < |h.ledger.pending| ==> h.ledger.pending[i].token == token && h.ledger.pending[i].op.opcode == opcode
  {
    var i := IndexOf(h.ledger.pending, token);
    if i < |h.ledger.pending| && h.ledger.pending[i].op.opcode == opcode then i else |h.ledger.pending|
  }

  /** The token is deleted before the stores, so a store that throws loses the completion:
      the catch handler finds the token gone and returns. */
  function Conclude(h: Host, i: nat, e: Effect): Host
    requires Linked(h.ledger) && i < |h.ledger.pending|
  {
    var s := GuestStores(h.mem, h.viewsLive, e.payload, e.reportAt, e.report);
    h.(mem := s.mem, viewsLive := s.live,
       ledger := if s.ok then Finish(h.ledger, i, e.result) else Drop(h.ledger, i, Lost))
  }

  datatype Outcome = TimerFires | FetchResolves(body: seq<byte>) | FetchRejects
                   | CompressResolves(output: seq<byte>) | CompressRejects | SocketOpens | SocketFails

  function Opcode(o: Outcome): u32 {
    match o
    case TimerFires => OP_TIMEOUT
    case FetchResolves(_) => OP_HTTP_FETCH
    case FetchRejects => OP_HTTP_FETCH
    case CompressResolves(_) => OP_COMPRESS
    case CompressRejects => OP_COMPRESS
    case SocketOpens => OP_CONNECT
    case SocketFails => OP_CONNECT
  }

  datatype Effect = Effect(payload: Transfer, reportAt: nat, report: nat, result: int)

  /** What the callback stores and reports for the op it settles. */
  function EffectOf(p: Pending, o: Outcome): Effect {
    match o
    case TimerFires => Effect(NoTransfer, 0, 0, WAPI_OK)
    case FetchResolves(body) =>
      Effect(Payload(p.op, body), p.op.resultPtr, Min(|body|, p.op.len2), WAPI_OK)
    case CompressResolves(out) =>
      Effect(Payload(p.op, out), p.op.resultPtr, Min(|out|, p.op.len2),
             if |out| > p.op.len2 then ERR_OVERFLOW else WAPI_OK)
    case SocketOpens => Effect(NoTransfer, p.op.resultPtr, p.handle, WAPI_OK)
    case FetchRejects => Effect(NoTransfer, 0, 0, ERR_IO)
    case CompressRejects => Effect(NoTransfer, 0, 0, ERR_IO)
    case SocketFails => Effect(NoTransfer, 0, 0, ERR_IO)
  }

  function Opened(h: Host, handle: int, open: bool): (r: Host)
    ensures r.mem == h.mem && r.viewsLive == h.viewsLive && r.ledger == h.ledger
  {
    if handle in h.handles then h.(handles := h.handles[handle := h.handles[handle].(open := open)]) else h
  }

  /** What the callback does to its socket. */
  function Touched(h: Host, handle: int, o: Outcome): (r: Host)
    ensures r.mem == h.mem && r.viewsLive == h.viewsLive && r.ledger == h.ledger
  {
    if o.SocketOpens? then Opened(h, handle, true)
    else if o.SocketFails? then h.(handles := h.handles - {handle})
    else h
  }

  function Settle(h: Host, token: nat, o: Outcome): Host
    requires Linked(h.ledger)
  {
    var i := Live(h, token, Opcode(o));
    if i == |h.ledger.pending| then h
    else
      var p := h.ledger.pending[i];
      Conclude(Touched(h, p.handle, o), i, EffectOf(p, o))
  }

  function Received(h: Host, handle: int, data: seq<byte>): Host {
    if handle !in h.handles then h
    else
      var sock := h.handles[handle];
      h.(handles := h.handles[handle := sock.(inbox := sock.inbox + [data])])
  }

  // ---- the guest's other calls --------------------------------------------

  function FirstWith(p: seq<Pending>, userData: nat): (i: nat)
    ensures i <= |p|
    ensures i < |p| ==> p[i].op.userData == userData
    ensures forall j :: 0 <= j < i ==> p[j].op.userData != userData
  {
    if |p| == 0 || p[0].op.userData == userData then 0 else 1 + FirstWith(p[1..], userData)
  }

  /** wapi_io.cancel; closing a connecting socket is the only cancel hook that touches the engine. */
  function CancelOp(h: Host, userData: nat): (Host, int)
    requires Linked(h.ledger)
  {
    var i := FirstWith(h.ledger.pending, userData);
    if i == |h.ledger.pending| then (h, ERR_NOENT)
    else
      var p := h.ledger.pending[i];
      var h1 := if p.op.opcode == OP_CONNECT then Opened(h, p.handle, false) else h;
      (h1.(ledger := Drop(h.ledger, i, Cancelled)), WAPI_OK)
  }

  /** A field of an event store: its bytes if it fits into the room left, zeros otherwise. */
  function Field(n: nat, width: nat, end: nat, room: nat): (bs: seq<byte>)
    ensures |bs| == width
  {
    LittleEndian(if end <= room then n else 0, width)
  }

  /** writeEvent's 128 bytes: type at 0, user data at 8, result at 16, flags at 20, zeros elsewhere. */
  function EventImage(ev: Event, room: nat): (bs: seq<byte>)
    ensures |bs| == IO_EVENT_SIZE
  {
    Field(ev.typ, 4, 4, room) + Zeros(4) + Field(ev.userData, 8, 16, room)
    + Field(ev.result % 0x1_0000_0000, 4, 20, room) + Field(ev.flags, 4, 24, room) + Zeros(104)
  }

  datatype Polled = Nothing | Got(ev: Event) | PollTrapped

  /** wapi_io.poll: the event is shifted out before it is stored, so a bad pointer loses it. */
  function PollOp(h: Host, eventPtr: nat): (Host, Polled)
    requires Linked(h.ledger)
  {
    if h.ledger.queue == [] then (h, Nothing)
    else
      var room := if eventPtr <= |h.mem| then |h.mem| - eventPtr else 0;
      var ev := h.ledger.queue[0];
      var reached := room >= 24;
      var h1 := h.(viewsLive := true, ledger := Shift(h.ledger, reached),
                   mem := Store(h.mem, eventPtr, EventImage(ev, room)[..Min(room, IO_EVENT_SIZE)]));
      (h1, if reached then Got(ev) else PollTrapped)
  }

  // ---- runs ------------------------------------------------------------

  datatype Step =
    | Submit(ops: seq<Op>)
    | Cancel(userData: nat)
    | Poll(eventPtr: nat)
    | Flush(typ: nat)
    | GuestGrows(zeros: seq<byte>)
    | HostSettles(token: nat, outcome: Outcome)
    | SocketMessage(handle: int, data: seq<byte>)
    | SocketState(handle: int, open: bool)

  ghost function Next(h: Host, s: Step): Host
    requires Linked(h.ledger)
  {
    match s
    case Submit(ops) => SubmitAll(h, ops).0
    case Cancel(userData) => CancelOp(h, userData).0
    case Poll(eventPtr) => PollOp(h, eventPtr).0
    case Flush(typ) => h.(ledger := FlushQueue(h.ledger, typ))
    case GuestGrows(zeros) => h.(mem := h.mem + zeros, viewsLive := false)
    case HostSettles(token, outcome) => Settle(h, token, outcome)
    case SocketMessage(handle, data) => Received(h, handle, data)
    case SocketState(handle, open) => Opened(h, handle, open)
  }

  ghost function Run(h: Host, steps: seq<Step>): Host
    requires Inv(h.ledger)
    decreases steps
  {
    if |steps| == 0 then h
    else
      NextInv(h, steps[0]);
      Run(Next(h, steps[0]), steps[1..])
  }

  lemma FlushLinked(l: Ledger, typ: nat)
    requires Linked(l)
    ensures Linked(FlushQueue(l, typ))
  {
    SurvivingMembers(l.queue, typ);
    var q := Surviving(l.queue, typ);
    forall i | 0 <= i < |q| ensures q[i].serial < |l.place| { assert q[i] in l.queue; }
  }

  lemma ConcludeLinked(h: Host, i: nat, e: Effect)
    requires Linked(h.ledger) && i < |h.ledger.pending|
    ensures Linked(Conclude(h, i, e).ledger)
  {
  }

  lemma SettleLinked(h: Host, token: nat, o: Outcome)
    requires Linked(h.ledger)
    ensures Linked(Settle(h, token, o).ledger)
  {
    var i := Live(h, token, Opcode(o));
    if i < |h.ledger.pending| {
      var p := h.ledger.pending[i];
      ConcludeLinked(Touched(h, p.handle, o), i, EffectOf(p, o));
    }
  }

  lemma DispatchLinked(h: Host, op: Op)
    requires Linked(h.ledger)
    ensures Linked(Dispatch(h, op).0.ledger)
  {
  }

  lemma {:induction false} SubmitLinked(h: Host, ops: seq<Op>)
    requires Linked(h.ledger)
    ensures Linked(SubmitAll(h, ops).0.ledger)
    decreases ops
  {
    if ops != [] {
      DispatchLinked(h, ops[0]);
      if !Dispatch(h, ops[0]).1 { SubmitLinked(Dispatch(h, ops[0]).0, ops[1..]); }
    }
  }

  /** The one ledger move a dispatch makes, if any: a push, a trap or a registration. */
  lemma DispatchMoves(h: Host, op: Op) returns (pushes: bool, registers: bool, result: int, handle: nat)
    ensures var l, m := h.ledger, Dispatch(h, op).0.ledger;
      if pushes then m == PushNow(l, op.userData, result)
      else if registers then m == Register(l, op, handle)
      else m == l || m == Trap(l, op.userData)
    ensures |Dispatch(h, op).0.mem| == |h.mem|
  {
    var l, m := h.ledger, Dispatch(h, op).0.ledger;
    pushes, registers, result, handle := m.queue != l.queue, m.pending != l.pending, 0, 0;
    if pushes { result := m.queue[|l.queue|].result; }
    if registers { handle := m.pending[|l.pending|].handle; }
  }

  lemma DispatchInv(h: Host, op: Op)
    requires Inv(h.ledger)
    ensures Inv(Dispatch(h, op).0.ledger) && Grows(h.ledger, Dispatch(h, op).0.ledger)
    ensures |Dispatch(h, op).0.mem| == |h.mem|
  {
    var pushes, registers, result, handle := DispatchMoves(h, op);
    if pushes {
      PushNowInv(h.ledger, op.userData, result);
    } else if registers {
      RegisterInv(h.ledger, op, handle);
    } else {
      TrapInv(h.ledger, op.userData);
    }
  }

  lemma {:induction false} SubmitInv(h: Host, ops: seq<Op>)
    requires Inv(h.ledger)
    ensures Inv(SubmitAll(h, ops).0.ledger) && Grows(h.ledger, SubmitAll(h, ops).0.ledger)
    ensures |SubmitAll(h, ops).0.mem| == |h.mem|
    decreases ops
  {
    if ops != [] {
      DispatchInv(h, ops[0]);
      var (h1, trapped) := Dispatch(h, ops[0]);
      if !trapped {
        SubmitInv(h1, ops[1..]);
        GrowsTrans(h.ledger, h1.ledger, SubmitAll(h1, ops[1..]).0.ledger);
      }
    }
  }

  lemma ConcludeInv(h: Host, i: nat, e: Effect)
    requires Inv(h.ledger) && i < |h.ledger.pending|
    ensures var m := Conclude(h, i, e);
      Inv(m.ledger) && Grows(h.ledger, m.ledger) && |m.mem| == |h.mem|
  {
    if GuestStores(h.mem, h.viewsLive, e.payload, e.reportAt, e.report).ok {
      FinishInv(h.ledger, i, e.result);
    } else {
      DropInv(h.ledger, i, Lost);
    }
  }

  lemma SettleInv(h: Host, token: nat, o: Outcome)
    requires Inv(h.ledger)
    ensures Inv(Settle(h, token, o).ledger) && Grows(h.ledger, Settle(h, token, o).ledger)
    ensures |Settle(h, token, o).mem| == |h.mem|
  {
    var i := Live(h, token, Opcode(o));
    if i < |h.ledger.pending| {
      var p := h.ledger.pending[i];
      ConcludeInv(Touched(h, p.handle, o), i, EffectOf(p, o));
    }
  }

  lemma CancelInv(h: Host, userData: nat)
    requires Inv(h.ledger)
    ensures Inv(CancelOp(h, userData).0.ledger) && Grows(h.ledger, CancelOp(h, userData).0.ledger)
    ensures CancelOp(h, userData).0.mem == h.mem
  {
    var i := FirstWith(h.ledger.pending, userData);
    if i < |h.ledger.pending| { DropInv(h.ledger, i, Cancelled); }
  }

  lemma PollInv(h: Host, eventPtr: nat)
    requires Inv(h.ledger)
    ensures Inv(PollOp(h, eventPtr).0.ledger) && Grows(h.ledger, PollOp(h, eventPtr).0.ledger)
    ensures |PollOp(h, eventPtr).0.mem| == |h.mem|
  {
    if h.ledger.queue != [] {
      ShiftInv(h.ledger, true);
      ShiftInv(h.ledger, false);
    }
  }

  lemma SameLedger(h: Host, m: Host)
    requires Inv(h.ledger) && m.ledger == h.ledger
    ensures Inv(m.ledger) && Grows(h.ledger, m.ledger)
  {
  }

  /** Every step keeps the invariant, moves every submission forward or not at all, and never shrinks memory. */
  lemma NextInv(h: Host, s: Step)
    requires Inv(h.ledger)
    ensures Inv(Next(h, s).ledger) && Grows(h.ledger, Next(h, s).ledger) && |h.mem| <= |Next(h, s).mem|
  {
    match s
    case Submit(ops) => SubmitInv(h, ops);
    case Cancel(userData) => CancelInv(h, userData);
    case Poll(eventPtr) => PollInv(h, eventPtr);
    case Flush(typ) => FlushInv(h.ledger, typ);
    case HostSettles(token, outcome) => SettleInv(h, token, outcome);
    case GuestGrows(_) => SameLedger(h, Next(h, s));
    case SocketMessage(_, _) => SameLedger(h, Next(h, s));
    case SocketState(_, _) => SameLedger(h, Next(h, s));
  }

  lemma {:induction false} RunInv(h: Host, steps: seq<Step>)
    requires Inv(h.ledger)
    ensures Inv(Run(h, steps).ledger) && Grows(h.ledger, Run(h, steps).ledger)
    decreases steps
  {
    if steps != [] {
      NextInv(h, steps[0]);
      var h1 := Next(h, steps[0]);
      RunInv(h1, steps[1..]);
      GrowsTrans(h.ledger, h1.ledger, Run(h1, steps[1..]).ledger);
    }
  }

  lemma FreshInv(h: Host)
    requires Fresh(h)
    ensures Inv(h.ledger)
  {
    EmptyInv(h.ledger);
  }

  // ---- main results -----------------------------------------------------

  /** Over every interleaving from a fresh engine: no submission is ever pushed twice; the events not
      flushed or lost come out in the order they were pushed; every other pushed event was flushed or
      lost; and a pending submission has no event. */
  lemma AtMostOneCompletionInOrder(h: Host, steps: seq<Step>)
    requires Fresh(h)
    ensures Inv(h.ledger)
    ensures var l := Run(h, steps).ledger;
      && Distinct(l.pushed)
      && Keep(l.pushed, l.place) == l.delivered + l.queue
      && (forall i :: 0 <= i < |l.pushed| ==>
            && l.pushed[i].serial < |l.place|
            && (l.pushed[i] in l.delivered + l.queue
                || l.place[l.pushed[i].serial] == Flushed || l.place[l.pushed[i].serial] == Lost))
      && Distinct(l.delivered + l.queue)
      && forall i :: 0 <= i < |l.pending| ==> !Holds(l.pushed, l.pending[i].serial)
  {
    FreshInv(h);
    RunInv(h, steps);
    InvMeans(Run(h, steps).ledger);
  }

  lemma InvMeans(l: Ledger)
    requires Inv(l)
    ensures Distinct(l.delivered + l.queue)
    ensures forall i :: 0 <= i < |l.pending| ==> !Holds(l.pushed, l.pending[i].serial)
    ensures forall i :: 0 <= i < |l.pushed| ==>
      l.pushed[i] in l.delivered + l.queue
      || l.place[l.pushed[i].serial] == Flushed || l.place[l.pushed[i].serial] == Lost
  {
    forall i | 0 <= i < |l.delivered + l.queue|
      ensures l.place[(l.delivered + l.queue)[i].serial] == (if i < |l.delivered| then Delivered else Queued)
    {
    }
    KeepMembers(l.pushed, l.place);
    forall i | 0 <= i < |l.pushed| && Kept(l.place, l.pushed[i]) ensures l.pushed[i] in l.delivered + l.queue {
      assert l.pushed[i] in l.pushed;
    }
  }

  /** Once cancelled, flushed or lost, a submission stays so and no event of it exists in any later state. */
  lemma NothingAfterTheEnd(h: Host, steps: seq<Step>, n: nat)
    requires Inv(h.ledger) && n < |h.ledger.place|
    requires h.ledger.place[n] == Cancelled || h.ledger.place[n] == Flushed || h.ledger.place[n] == Lost
    ensures var l := Run(h, steps).ledger;
      && n < |l.place| && l.place[n] == h.ledger.place[n]
      && !Holds(l.queue, n) && !Holds(l.delivered, n) && !Awaited(l.pending, n)
  {
    RunInv(h, steps);
  }

  /** A callback whose token has left the pending map does nothing, then or after any further steps:
      it neither completes nor writes guest memory. */
  lemma DeadTokenIsInert(h: Host, token: nat, steps: seq<Step>, o: Outcome)
    requires Inv(h.ledger) && token < h.ledger.nextToken
    requires forall i :: 0 <= i < |h.ledger.pending| ==> h.ledger.pending[i].token != token
    ensures Inv(Run(h, steps).ledger) && Settle(Run(h, steps), token, o) == Run(h, steps)
  {
    RunInv(h, steps);
  }

  /** The Map is walked in insertion order, which is token order, so the match is the oldest. */
  lemma FirstWithIsOldest(p: seq<Pending>, userData: nat)
    requires forall i, j :: 0 <= i < j < |p| ==> p[i].token < p[j].token
    ensures var i := FirstWith(p, userData);
      && (i < |p| <==> exists q :: q in p && q.op.userData == userData)
      && (i < |p| ==> forall q :: q in p && q.op.userData == userData ==> p[i].token <= q.token)
  {
  }

  /** cancel answers OK exactly when some pending op carries the user data; it then removes the
      oldest such token and nothing else. */
  lemma CancelExact(h: Host, userData: nat)
    requires Inv(h.ledger)
    ensures var (h1, r) := CancelOp(h, userData);
      var l, i := h.ledger, FirstWith(h.ledger.pending, userData);
      && (r == WAPI_OK <==> exists p :: p in l.pending && p.op.userData == userData)
      && (r != WAPI_OK ==> r == ERR_NOENT && h1 == h)
      && (r == WAPI_OK ==>
            && i < |l.pending| && l.pending[i].op.userData == userData
            && (forall q :: q in l.pending && q.op.userData == userData ==> l.pending[i].token <= q.token)
            && h1.ledger == Drop(l, i, Cancelled) && h1.mem == h.mem)
  {
  }

  /** flush(t) leaves exactly the events of other types (none for t = 0), in their order, and
      touches no pending op. */
  lemma FlushExact(h: Host, typ: nat)
    requires Inv(h.ledger)
    ensures var l, m := h.ledger, Next(h, Flush(typ)).ledger;
      && (forall ev :: ev in m.queue <==> ev in l.queue && typ != 0 && ev.typ != typ)
      && Keep(l.queue, m.place) == m.queue
      && m.pending == l.pending && m.delivered == l.delivered
  {
    FlushPlaces(h.ledger, typ);
    SurvivingMembers(h.ledger.queue, typ);
    SurvivingIsKeep(h.ledger.queue, typ, FlushQueue(h.ledger, typ).place);
  }

  lemma FieldReadsBack(n: nat, width: nat, end: nat, room: nat)
    requires end <= room && ((width == 4 && n < 0x1_0000_0000) || (width == 8 && n < 0x1_0000_0000_0000_0000))
    ensures FromLittleEndian(Field(n, width, end, room)) == n
  {
    assert Pow256(4) == 0x1_0000_0000 && Pow256(8) == 0x1_0000_0000_0000_0000;
    LittleEndianRoundTrip(n, width);
  }

  lemma ImageFields(ev: Event, room: nat)
    ensures var img := EventImage(ev, room);
      && img[..4] == Field(ev.typ, 4, 4, room) && img[8..16] == Field(ev.userData, 8, 16, room)
      && img[16..20] == Field(ev.result % 0x1_0000_0000, 4, 20, room) && img[20..24] == Field(ev.flags, 4, 24, room)
  {
  }

  /** A slice of what was stored, read back from memory. */
  lemma StoredSlice(mem: seq<byte>, at: nat, img: seq<byte>, lo: nat, hi: nat)
    requires at + |img| <= |mem| && lo <= hi <= |img|
    ensures Store(mem, at, img)[at + lo..at + hi] == img[lo..hi]
  {
    assert Store(mem, at, img) == mem[..at] + img + mem[at + |img|..];
  }

  /** What the guest reads at the event pointer is the event that was polled: type, user data,
      result as a 32-bit two's complement word, flags. */
  lemma PolledEventReadsBack(h: Host, at: nat)
    requires Inv(h.ledger) && h.ledger.queue != [] && at + IO_EVENT_SIZE <= |h.mem|
    requires h.ledger.queue[0].userData < 0x1_0000_0000_0000_0000
    ensures var (h1, r) := PollOp(h, at);
      && r == Got(h.ledger.queue[0]) && |h1.mem| == |h.mem|
      && FromLittleEndian(h1.mem[at..at + 4]) == h.ledger.queue[0].typ
      && FromLittleEndian(h1.mem[at + 8..at + 16]) == h.ledger.queue[0].userData
      && FromLittleEndian(h1.mem[at + 16..at + 20]) == h.ledger.queue[0].result % 0x1_0000_0000
      && FromLittleEndian(h1.mem[at + 20..at + 24]) == h.ledger.queue[0].flags
  {
    assert h.ledger.queue[0].typ == EVENT_IO_COMPLETION;
    ImageReadsBack(h.mem, at, h.ledger.queue[0]);
  }

  lemma ImageReadsBack(mem: seq<byte>, at: nat, ev: Event)
    requires at + IO_EVENT_SIZE <= |mem| && ev.typ < 0x1_0000_0000 && ev.userData < 0x1_0000_0000_0000_0000
    ensures var mem1 := Store(mem, at, EventImage(ev, |mem| - at)[..IO_EVENT_SIZE]);
      && FromLittleEndian(mem1[at..at + 4]) == ev.typ
      && FromLittleEndian(mem1[at + 8..at + 16]) == ev.userData
      && FromLittleEndian(mem1[at + 16..at + 20]) == ev.result % 0x1_0000_0000
      && FromLittleEndian(mem1[at + 20..at + 24]) == ev.flags
  {
    var room := |mem| - at;
    var img := EventImage(ev, room);
    assert img[..IO_EVENT_SIZE] == img;
    ImageFields(ev, room);
    StoredSlice(mem, at, img, 0, 4);
    StoredSlice(mem, at, img, 8, 16);
    StoredSlice(mem, at, img, 16, 20);
    StoredSlice(mem, at, img, 20, 24);
    FieldReadsBack(ev.typ, 4, 4, room);
    FieldReadsBack(ev.userData, 8, 16, room);
    FieldReadsBack(ev.result % 0x1_0000_0000, 4, 20, room);
    FieldReadsBack(ev.flags, 4, 24, room);
  }

  // ---- the completion that can get lost -----------------------------------

  /** The buffers the op names lie inside memory, as the ABI asks of the guest. */
  predicate BuffersInRange(op: Op, size: nat) {
    op.resultPtr + 8 <= size && op.addr2 + op.len2 <= size
  }

  /** "Every live op completes when its callback runs" is false of the engine. For an op whose
      buffers are in range it fails exactly when the guest grew its memory since the last
      refreshViews, the callback reports through a result pointer, and it stores no payload
      (which would have refreshed the views). */
  lemma CompletesUnlessViewsAreStale(h: Host, token: nat, o: Outcome)
    requires Inv(h.ledger) && Live(h, token, Opcode(o)) < |h.ledger.pending|
    requires BuffersInRange(h.ledger.pending[Live(h, token, Opcode(o))].op, |h.mem|)
    ensures var p := h.ledger.pending[Live(h, token, Opcode(o))];
      var m := Settle(h, token, o).ledger;
      && (m.place[p.serial] == Lost <==>
            !h.viewsLive && EffectOf(p, o).reportAt != 0 && EffectOf(p, o).payload.NoTransfer?)
      && (m.place[p.serial] != Lost ==> m.place[p.serial] == Queued && m.queue[|m.queue| - 1].serial == p.serial
                                        && m.queue[|m.queue| - 1].userData == p.op.userData)
  {
    RemovedMembers(h.ledger.pending, Live(h, token, Opcode(o)));
  }

  /** The failing family is inhabited: a connect with a result pointer, memory grown by the guest
      while the socket connects, and the socket opens. */
  lemma LostConnect(h: Host, op: Op, zeros: seq<byte>)
    requires Inv(h.ledger)
    requires op.opcode == OP_CONNECT && op.resultPtr != 0
    ensures var h1 := Next(h, Submit([op]));
      && Inv(h1.ledger) && Inv(Next(h1, GuestGrows(zeros)).ledger)
      && var h2 := Next(h1, GuestGrows(zeros));
         && |h.ledger.pending| < |h2.ledger.pending|
         && Settle(h2, h.ledger.nextToken, SocketOpens).ledger == Drop(h2.ledger, |h.ledger.pending|, Lost)
  {
    NextInv(h, Submit([op]));
    ConnectRegisters(h, op);
    var h1 := Next(h, Submit([op]));
    NextInv(h1, GuestGrows(zeros));
    LostWhenStale(Next(h1, GuestGrows(zeros)), |h.ledger.pending|);
  }

  lemma ConnectRegisters(h: Host, op: Op)
    requires op.opcode == OP_CONNECT
    ensures SubmitAll(h, [op]).0.ledger == Register(h.ledger, op, h.nextHandle)
  {
    assert [op][1..] == [];
  }

  lemma LostWhenStale(h: Host, i: nat)
    requires Inv(h.ledger) && i < |h.ledger.pending| && !h.viewsLive
    requires h.ledger.pending[i].op.opcode == OP_CONNECT && h.ledger.pending[i].op.resultPtr != 0
    ensures Settle(h, h.ledger.pending[i].token, SocketOpens).ledger == Drop(h.ledger, i, Lost)
  {
  }

  lemma GuestStoresFrame(mem: seq<byte>, live: bool, t: Transfer, reportAt: nat, report: nat, k: nat)
    requires k < |mem|
    requires t.Transfer? ==> !(t.at <= k < t.at + |t.bytes|)
    requires reportAt != 0 ==> !(reportAt <= k < reportAt + 8)
    ensures var s := GuestStores(mem, live, t, reportAt, report);
      |s.mem| == |mem| && s.mem[k] == mem[k]
  {
    if t.Transfer? && t.at + |t.bytes| <= |mem| { StoreEffect(mem, t.at, t.bytes, k); }
    var mem1 := if t.Transfer? then Store(mem, t.at, t.bytes) else mem;
    if reportAt + 8 <= |mem| { StoreEffect(mem1, reportAt, LittleEndian(report, 8), k); }
  }

  /** A settling callback writes only its own payload buffer and result slot. */
  lemma SettleWritesOnlyItsBuffers(h: Host, token: nat, o: Outcome, k: nat)
    requires Inv(h.ledger) && k < |h.mem|
    requires var i := Live(h, token, Opcode(o));
      i < |h.ledger.pending| ==>
        var op := h.ledger.pending[i].op;
        !(op.addr2 <= k < op.addr2 + op.len2) && !(op.resultPtr <= k < op.resultPtr + 8)
    ensures |Settle(h, token, o).mem| == |h.mem| && Settle(h, token, o).mem[k] == h.mem[k]
  {
    SettleInv(h, token, o);
    var i := Live(h, token, Opcode(o));
    if i < |h.ledger.pending| {
      var e := EffectOf(h.ledger.pending[i], o);
      GuestStoresFrame(h.mem, h.viewsLive, e.payload, e.reportAt, e.report, k);
    }
  }
}
