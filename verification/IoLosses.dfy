/** When the engine loses something: exactly which steps do, that careful guests lose nothing on any run,
    and that without flushes the queue is then a plain first-in first-out channel. */
module IoLosses {
  import opened Common
  import opened GuestMemory
  import opened IoLedger
  import opened IoEngine

  /** Nothing is lost in m that was not lost in l already. */
  ghost predicate NoNewLoss(l: Ledger, m: Ledger) {
    forall n :: 0 <= n < |m.place| && m.place[n] == Lost ==> n < |l.place| && l.place[n] == Lost
  }

  // ---- what makes a step lose something, in terms of the state before it ---------------------

  /** A result pointer that is given but leaves no room for its eight bytes. */
  predicate BadReport(op: Op, size: nat) { op.resultPtr != 0 && op.resultPtr + 8 > size }

  predicate BadReceive(op: Op, message: seq<byte>, size: nat) {
    op.addr + Min(|message|, op.len) > size || BadReport(op, size)
  }

  /** The receives on a socket in a batch of ops. */
  function Receives(ops: seq<Op>, fd: int): nat {
    if |ops| == 0 then 0 else (if ops[0].opcode == OP_RECV && ops[0].fd == fd then 1 else 0) + Receives(ops[1..], fd)
  }

  /** Op i of a batch throws: it answers at once through a bad result pointer, or receives a message, the
      one the batch's earlier receives leave next, into a range that does not end inside memory. */
  predicate Throws(h: Host, ops: seq<Op>, i: nat)
    requires i < |ops|
  {
    var op := ops[i];
    if op.opcode == OP_RECV then
      && op.fd in h.handles && Receives(ops[..i], op.fd) < |h.handles[op.fd].inbox|
      && BadReceive(op, h.handles[op.fd].inbox[Receives(ops[..i], op.fd)], |h.mem|)
    else AnswersWithReport(h, op) && BadReport(op, |h.mem|)
  }

  /** The other ops that store a report before they complete, inside the submit. */
  predicate AnswersWithReport(h: Host, op: Op) {
    && op.opcode !in [OP_LOG, OP_TIMEOUT, OP_HTTP_FETCH, OP_CONNECT, OP_RECV]
    && (op.opcode == OP_COMPRESS ==> op.flags2 % 4 == 3)
    && (op.opcode == OP_SEND ==> op.fd in h.handles && h.handles[op.fd].open)
  }

  /** A callback's stores that throw: a payload, or a report, that does not end inside memory, or a report
      without a payload, which would have refreshed the views, through stale views. */
  predicate Overruns(h: Host, e: Effect) {
    || (e.payload.Transfer? && e.payload.at + |e.payload.bytes| > |h.mem|)
    || (e.reportAt != 0 && (e.reportAt + 8 > |h.mem| || (e.payload.NoTransfer? && !h.viewsLive)))
  }

  /** The steps that lose something: a submit with an op that throws, a poll of an event into fewer than 24
      bytes, and a live callback one of whose stores throws. */
  ghost predicate Loses(h: Host, s: Step)
    requires Linked(h.ledger)
  {
    match s
    case Submit(ops) => exists i :: 0 <= i < |ops| && Throws(h, ops, i)
    case Poll(eventPtr) => h.ledger.queue != [] && eventPtr + 24 > |h.mem|
    case HostSettles(token, o) =>
      var i := Live(h, token, Opcode(o));
      i < |h.ledger.pending| && Overruns(h, EffectOf(h.ledger.pending[i], o))
    case _ => false
  }

  /** Handles are given out in order, so a new socket never takes the place of one in use. */
  predicate HandlesBelow(h: Host) { forall k :: k in h.handles ==> k < h.nextHandle }

  lemma DispatchHandles(h: Host, op: Op)
    requires HandlesBelow(h)
    ensures HandlesBelow(Dispatch(h, op).0)
  {
  }

  lemma {:induction false} SubmitHandles(h: Host, ops: seq<Op>)
    requires HandlesBelow(h)
    ensures HandlesBelow(SubmitAll(h, ops).0)
    decreases ops
  {
    if |ops| > 0 {
      DispatchHandles(h, ops[0]);
      SubmitHandles(Dispatch(h, ops[0]).0, ops[1..]);
    }
  }

  lemma NextHandles(h: Host, s: Step)
    requires Linked(h.ledger) && HandlesBelow(h)
    ensures HandlesBelow(Next(h, s))
  {
    match s
    case Submit(ops) => SubmitHandles(h, ops);
    case _ =>
  }

  lemma FirstThrows(h: Host, ops: seq<Op>)
    requires |ops| > 0
    ensures Dispatch(h, ops[0]).1 <==> Throws(h, ops, 0)
  {
    assert ops[..0] == [];
  }

  lemma ReceivesRest(ops: seq<Op>, i: nat, fd: int)
    requires 0 < i <= |ops|
    ensures Receives(ops[..i], fd)
         == (if ops[0].opcode == OP_RECV && ops[0].fd == fd then 1 else 0) + Receives(ops[1..][..i - 1], fd)
  {
    assert ops[..i][1..] == ops[1..][..i - 1];
  }

  /** Only connects and receives touch the sockets. */
  lemma SocketsSame(h: Host, op: Op)
    requires op.opcode != OP_CONNECT && op.opcode != OP_RECV
    ensures Dispatch(h, op).0.handles == h.handles && |Dispatch(h, op).0.mem| == |h.mem|
  {
  }

  lemma SocketAdded(h: Host, op: Op)
    requires op.opcode == OP_CONNECT
    ensures Dispatch(h, op).0.handles == h.handles[h.nextHandle := Socket(false, [])]
    ensures Dispatch(h, op).0.mem == h.mem
  {
  }

  lemma MessageTaken(h: Host, op: Op)
    requires op.opcode == OP_RECV
    ensures |Dispatch(h, op).0.mem| == |h.mem|
    ensures var m := h.handles;
      Dispatch(h, op).0.handles
      == if op.fd in m && m[op.fd].inbox != [] then m[op.fd := Socket(m[op.fd].open, m[op.fd].inbox[1..])] else m
  {
  }

  /** What the first op leaves the others: the same sockets open, and one message fewer where it received. */
  lemma SocketsLeft(h: Host, op: Op, fd: int)
    requires HandlesBelow(h)
    ensures var (h1, _) := Dispatch(h, op);
      var taken := if op.opcode == OP_RECV && op.fd == fd then 1 else 0;
      && |h1.mem| == |h.mem|
      && (fd in h.handles ==>
            && fd in h1.handles && h1.handles[fd].open == h.handles[fd].open
            && h1.handles[fd].inbox == h.handles[fd].inbox[Min(taken, |h.handles[fd].inbox|)..])
      && (fd !in h.handles && fd in h1.handles ==> !h1.handles[fd].open && h1.handles[fd].inbox == [])
  {
    if op.opcode == OP_CONNECT {
      SocketAdded(h, op);
    } else if op.opcode == OP_RECV {
      MessageTaken(h, op);
    } else {
      SocketsSame(h, op);
    }
  }

  lemma ThrowsRest(h: Host, ops: seq<Op>, i: nat)
    requires HandlesBelow(h) && 0 < i < |ops|
    ensures Throws(Dispatch(h, ops[0]).0, ops[1..], i - 1) <==> Throws(h, ops, i)
  {
    SocketsLeft(h, ops[0], ops[i].fd);
    ReceivesRest(ops, i, ops[i].fd);
  }

  /** A submit throws exactly when one of its ops does. */
  lemma {:induction false} SubmitThrowsExactly(h: Host, ops: seq<Op>)
    requires HandlesBelow(h)
    ensures SubmitAll(h, ops).1 <==> exists i :: 0 <= i < |ops| && Throws(h, ops, i)
    decreases ops
  {
    if |ops| > 0 {
      FirstThrows(h, ops);
      var h1 := Dispatch(h, ops[0]).0;
      DispatchHandles(h, ops[0]);
      SubmitThrowsExactly(h1, ops[1..]);
      forall i | 0 < i < |ops| ensures Throws(h1, ops[1..], i - 1) <==> Throws(h, ops, i) { ThrowsRest(h, ops, i); }
      if j :| 0 <= j < |ops[1..]| && Throws(h1, ops[1..], j) { assert Throws(h, ops, j + 1); }
    }
  }

  predicate Stores(h: Host, e: Effect) {
    GuestStores(h.mem, h.viewsLive, e.payload, e.reportAt, e.report).ok
  }

  // ---- those steps and no others lose something ------------------------------------------------

  lemma DispatchLoses(h: Host, op: Op)
    requires |h.ledger.place| == |h.ledger.subs|
    ensures var (r, threw) := Dispatch(h, op);
      && |r.ledger.place| == |r.ledger.subs| && h.ledger.place <= r.ledger.place
      && (NoNewLoss(h.ledger, r.ledger) <==> !threw)
  {
    var (r, threw) := Dispatch(h, op);
    if threw { assert r.ledger.place[|h.ledger.place|] == Lost; }
  }

  lemma {:induction false} SubmitLoses(h: Host, ops: seq<Op>)
    requires |h.ledger.place| == |h.ledger.subs|
    ensures var (r, threw) := SubmitAll(h, ops);
      h.ledger.place <= r.ledger.place && (NoNewLoss(h.ledger, r.ledger) <==> !threw)
    decreases ops
  {
    if |ops| > 0 {
      DispatchLoses(h, ops[0]);
      var (h1, threw) := Dispatch(h, ops[0]);
      if !threw {
        SubmitLoses(h1, ops[1..]);
        var (r, late) := SubmitAll(h1, ops[1..]);
        if late {
          var n :|
            && 0 <= n < |r.ledger.place| && r.ledger.place[n] == Lost
            && !(n < |h1.ledger.place| && h1.ledger.place[n] == Lost);
          assert n >= |h.ledger.place|;
        }
      }
    }
  }

  lemma ShiftLoses(l: Ledger, reached: bool)
    requires Linked(l) && l.queue != [] && l.place[l.queue[0].serial] == Queued
    ensures NoNewLoss(l, Shift(l, reached)) <==> reached
  {
    var n := l.queue[0].serial;
    assert Shift(l, reached).place[n] == if reached then Delivered else Lost;
  }

  lemma PollLoses(h: Host, eventPtr: nat)
    requires Inv(h.ledger)
    ensures NoNewLoss(h.ledger, PollOp(h, eventPtr).0.ledger) <==> !Loses(h, Poll(eventPtr))
  {
    if h.ledger.queue != [] {
      assert h.ledger.place[h.ledger.queue[0].serial] == Queued;
      ShiftLoses(h.ledger, eventPtr + 24 <= |h.mem|);
    }
  }

  lemma ConcludeLoses(h: Host, i: nat, e: Effect)
    requires Inv(h.ledger) && i < |h.ledger.pending|
    ensures NoNewLoss(h.ledger, Conclude(h, i, e).ledger) <==> !Overruns(h, e)
  {
    var n := h.ledger.pending[i].serial;
    assert h.ledger.place[n] == InFlight;
    assert Conclude(h, i, e).ledger.place[n] == (if Stores(h, e) then Queued else Lost);
  }

  lemma SettleLoses(h: Host, token: nat, o: Outcome)
    requires Inv(h.ledger)
    ensures NoNewLoss(h.ledger, Settle(h, token, o).ledger) <==> !Loses(h, HostSettles(token, o))
  {
    var i := Live(h, token, Opcode(o));
    if i < |h.ledger.pending| {
      var p := h.ledger.pending[i];
      ConcludeLoses(Touched(h, p.handle, o), i, EffectOf(p, o));
    }
  }

  /** From every reachable state, a step loses a submission or an event exactly when it is one of those. */
  lemma LosesExactly(h: Host, s: Step)
    requires Inv(h.ledger) && HandlesBelow(h)
    ensures NoNewLoss(h.ledger, Next(h, s).ledger) <==> !Loses(h, s)
  {
    match s
    case Submit(ops) =>
      SubmitLoses(h, ops);
      SubmitThrowsExactly(h, ops);
    case Poll(eventPtr) => PollLoses(h, eventPtr);
    case HostSettles(token, o) => SettleLoses(h, token, o);
    case Flush(typ) => FlushPlaces(h.ledger, typ);
    case _ =>
  }

  ghost predicate NothingLost(l: Ledger) { forall n :: 0 <= n < |l.place| ==> l.place[n] != Lost }

  /** None of the steps, each in the state it meets, is one that loses something. */
  ghost predicate Lossless(h: Host, steps: seq<Step>)
    requires Inv(h.ledger)
    decreases steps
  {
    |steps| == 0 || (!Loses(h, steps[0]) && (NextInv(h, steps[0]); Lossless(Next(h, steps[0]), steps[1..])))
  }

  /** A run loses nothing exactly when none of its steps does: what is lost once stays lost. */
  lemma {:induction false} RunLosesExactly(h: Host, steps: seq<Step>)
    requires Inv(h.ledger) && HandlesBelow(h) && NothingLost(h.ledger)
    ensures NothingLost(Run(h, steps).ledger) <==> Lossless(h, steps)
    decreases steps
  {
    if |steps| > 0 {
      NextInv(h, steps[0]);
      NextHandles(h, steps[0]);
      LosesExactly(h, steps[0]);
      var h1 := Next(h, steps[0]);
      if Loses(h, steps[0]) {
        var n :| 0 <= n < |h1.ledger.place| && h1.ledger.place[n] == Lost;
        NothingAfterTheEnd(h1, steps[1..], n);
      } else {
        RunLosesExactly(h1, steps[1..]);
      }
    }
  }

  // ---- careful guests ---------------------------------------------------------------

  /** The buffers an op names lie in memory. */
  predicate InRange(op: Op, size: nat) {
    && op.addr + op.len <= size
    && (op.addr2 == 0 || op.addr2 + op.len2 <= size) && (op.resultPtr == 0 || op.resultPtr + 8 <= size)
  }

  predicate PendingInRange(h: Host) {
    forall i :: 0 <= i < |h.ledger.pending| ==> InRange(h.ledger.pending[i].op, |h.mem|)
  }

  /** A step of a guest that names only memory it has, on a host whose views are live when a callback
      reports without storing a payload first. */
  ghost predicate Careful(h: Host, s: Step) {
    match s
    case Submit(ops) => forall i :: 0 <= i < |ops| ==> InRange(ops[i], |h.mem|)
    case Poll(eventPtr) => eventPtr + 24 <= |h.mem|
    case HostSettles(token, o) =>
      var i := Live(h, token, Opcode(o));
      i < |h.ledger.pending| ==>
        var e := EffectOf(h.ledger.pending[i], o);
        h.viewsLive || e.reportAt == 0 || e.payload.Transfer?
    case _ => true
  }

  lemma DispatchCareful(h: Host, op: Op)
    requires InRange(op, |h.mem|) && PendingInRange(h)
    ensures var (r, threw) := Dispatch(h, op);
      !threw && PendingInRange(r) && |r.mem| == |h.mem| && r.viewsLive
  {
  }

  lemma {:induction false} SubmitCareful(h: Host, ops: seq<Op>)
    requires (forall i :: 0 <= i < |ops| ==> InRange(ops[i], |h.mem|)) && PendingInRange(h)
    ensures var (r, threw) := SubmitAll(h, ops);
      !threw && PendingInRange(r) && |r.mem| == |h.mem| && (h.viewsLive ==> r.viewsLive)
    decreases ops
  {
    if |ops| > 0 {
      DispatchCareful(h, ops[0]);
      SubmitCareful(Dispatch(h, ops[0]).0, ops[1..]);
    }
  }

  lemma ConcludeCareful(h: Host, i: nat, e: Effect)
    requires Linked(h.ledger) && i < |h.ledger.pending| && PendingInRange(h)
    ensures PendingInRange(Conclude(h, i, e)) && |Conclude(h, i, e).mem| == |h.mem|
    ensures h.viewsLive ==> Conclude(h, i, e).viewsLive
  {
    RemovedMembers(h.ledger.pending, i);
  }

  /** An op in range stores without throwing, unless it reports through views that are stale. */
  lemma EffectStores(h: Host, p: Pending, o: Outcome)
    requires InRange(p.op, |h.mem|)
    requires h.viewsLive || EffectOf(p, o).reportAt == 0 || EffectOf(p, o).payload.Transfer?
    ensures !Overruns(h, EffectOf(p, o))
  {
  }

  lemma SettleCareful(h: Host, token: nat, o: Outcome)
    requires Linked(h.ledger) && PendingInRange(h) && Careful(h, HostSettles(token, o))
    ensures !Loses(h, HostSettles(token, o)) && PendingInRange(Settle(h, token, o))
    ensures h.viewsLive ==> Settle(h, token, o).viewsLive
  {
    var i := Live(h, token, Opcode(o));
    if i < |h.ledger.pending| {
      var p := h.ledger.pending[i];
      EffectStores(h, p, o);
      ConcludeCareful(Touched(h, p.handle, o), i, EffectOf(p, o));
    }
  }

  lemma CancelCareful(h: Host, userData: nat)
    requires Inv(h.ledger) && PendingInRange(h)
    ensures PendingInRange(CancelOp(h, userData).0) && CancelOp(h, userData).0.viewsLive == h.viewsLive
  {
    var i := FirstWith(h.ledger.pending, userData);
    if i < |h.ledger.pending| { RemovedMembers(h.ledger.pending, i); }
  }

  /** A careful step loses nothing, and only memory growth makes the views stale. */
  lemma CarefulStep(h: Host, s: Step)
    requires Inv(h.ledger) && PendingInRange(h) && Careful(h, s)
    ensures !Loses(h, s) && PendingInRange(Next(h, s))
    ensures h.viewsLive && !s.GuestGrows? ==> Next(h, s).viewsLive
  {
    match s
    case Submit(ops) => SubmitCareful(h, ops);
    case Cancel(userData) => CancelCareful(h, userData);
    case Poll(eventPtr) => PollInv(h, eventPtr);
    case HostSettles(token, o) => SettleCareful(h, token, o);
    case _ =>
  }

  ghost predicate CarefulRun(h: Host, steps: seq<Step>)
    requires Inv(h.ledger)
    decreases steps
  {
    |steps| == 0 || (Careful(h, steps[0]) && (NextInv(h, steps[0]); CarefulRun(Next(h, steps[0]), steps[1..])))
  }

  lemma {:induction false} CarefulRunIsLossless(h: Host, steps: seq<Step>)
    requires Inv(h.ledger) && PendingInRange(h) && CarefulRun(h, steps)
    ensures Lossless(h, steps)
    decreases steps
  {
    if |steps| > 0 {
      NextInv(h, steps[0]);
      CarefulStep(h, steps[0]);
      CarefulRunIsLossless(Next(h, steps[0]), steps[1..]);
    }
  }

  /** On every careful run from a fresh engine no submission and no event is ever lost, growth of the
      guest's memory included: what was pushed is queued, delivered or flushed. */
  lemma CarefulGuestsLoseNothing(h: Host, steps: seq<Step>)
    requires Fresh(h) && Inv(h.ledger) && CarefulRun(h, steps)
    ensures var l := Run(h, steps).ledger;
      && NothingLost(l)
      && forall i :: 0 <= i < |l.pushed| ==>
           l.pushed[i] in l.delivered + l.queue
           || (l.pushed[i].serial < |l.place| && l.place[l.pushed[i].serial] == Flushed)
  {
    CarefulRunIsLossless(h, steps);
    RunLosesExactly(h, steps);
    RunInv(h, steps);
    InvMeans(Run(h, steps).ledger);
  }

  /** What a guest can see to without knowing the host's views: buffers and event pointers inside the memory
      it started with, which it does not grow. */
  predicate Steady(s: Step, size: nat) {
    match s
    case Submit(ops) => forall i :: 0 <= i < |ops| ==> InRange(ops[i], size)
    case Poll(eventPtr) => eventPtr + 24 <= size
    case GuestGrows(_) => false
    case _ => true
  }

  lemma {:induction false} SteadyRunsAreCareful(h: Host, steps: seq<Step>)
    requires Inv(h.ledger) && h.viewsLive && PendingInRange(h)
    requires forall i :: 0 <= i < |steps| ==> Steady(steps[i], |h.mem|)
    ensures CarefulRun(h, steps)
    decreases steps
  {
    if |steps| > 0 {
      assert Careful(h, steps[0]);
      NextInv(h, steps[0]);
      CarefulStep(h, steps[0]);
      SteadyRest(steps, |h.mem|, |Next(h, steps[0]).mem|);
      SteadyRunsAreCareful(Next(h, steps[0]), steps[1..]);
    }
  }

  lemma SteadyRest(steps: seq<Step>, size: nat, larger: nat)
    requires |steps| > 0 && size <= larger && forall i :: 0 <= i < |steps| ==> Steady(steps[i], size)
    ensures forall i :: 0 <= i < |steps[1..]| ==> Steady(steps[1..][i], larger)
  {
    forall i | 0 <= i < |steps[1..]| ensures Steady(steps[1..][i], larger) { assert Steady(steps[i + 1], size); }
  }

  /** So a guest that keeps its buffers in memory and does not grow it loses nothing on any run. */
  lemma SteadyGuestsLoseNothing(h: Host, steps: seq<Step>)
    requires Fresh(h) && forall i :: 0 <= i < |steps| ==> Steady(steps[i], |h.mem|)
    ensures Inv(h.ledger) && NothingLost(Run(h, steps).ledger)
  {
    FreshInv(h);
    SteadyRunsAreCareful(h, steps);
    CarefulRunIsLossless(h, steps);
    RunLosesExactly(h, steps);
  }

  // ---- plain first in, first out ---------------------------------------------------------

  ghost predicate Plain(h: Host, s: Step) {
    !s.Flush? && (s.Poll? ==> s.eventPtr + 24 <= |h.mem|)
  }

  ghost predicate PlainRun(h: Host, steps: seq<Step>)
    requires Inv(h.ledger)
    decreases steps
  {
    |steps| == 0 || (Plain(h, steps[0]) && (NextInv(h, steps[0]); PlainRun(Next(h, steps[0]), steps[1..])))
  }

  /** Everything pushed so far is what was delivered, then what is queued. */
  predicate Fifo(l: Ledger) { l.pushed == l.delivered + l.queue }

  lemma {:induction false} SubmitFifo(h: Host, ops: seq<Op>)
    requires Fifo(h.ledger)
    ensures Fifo(SubmitAll(h, ops).0.ledger)
    decreases ops
  {
    if |ops| > 0 {
      DispatchFifo(h, ops[0]);
      SubmitFifo(Dispatch(h, ops[0]).0, ops[1..]);
    }
  }

  lemma DispatchFifo(h: Host, op: Op)
    requires Fifo(h.ledger)
    ensures Fifo(Dispatch(h, op).0.ledger)
  {
    var pushes, _, result, _ := DispatchMoves(h, op);
    var l := h.ledger;
    var ev := Completion(op.userData, result, |l.subs|);
    assert l.delivered + l.queue + [ev] == l.delivered + (l.queue + [ev]);
  }

  lemma ConcludeFifo(h: Host, i: nat, e: Effect)
    requires Linked(h.ledger) && i < |h.ledger.pending| && Fifo(h.ledger)
    ensures Fifo(Conclude(h, i, e).ledger)
  {
    var l, m := h.ledger, Conclude(h, i, e).ledger;
    if Stores(h, e) { assert l.delivered + l.queue + [m.queue[|l.queue|]] == l.delivered + m.queue; }
  }

  lemma SettleFifo(h: Host, token: nat, o: Outcome)
    requires Linked(h.ledger) && Fifo(h.ledger)
    ensures Fifo(Settle(h, token, o).ledger)
  {
    var i := Live(h, token, Opcode(o));
    if i < |h.ledger.pending| {
      var p := h.ledger.pending[i];
      ConcludeFifo(Touched(h, p.handle, o), i, EffectOf(p, o));
    }
  }

  lemma PollFifo(h: Host, eventPtr: nat)
    requires Inv(h.ledger) && Fifo(h.ledger) && eventPtr + 24 <= |h.mem|
    ensures Fifo(PollOp(h, eventPtr).0.ledger)
  {
    var l := h.ledger;
    if l.queue != [] { assert l.delivered + l.queue == l.delivered + [l.queue[0]] + l.queue[1..]; }
  }

  lemma PlainStep(h: Host, s: Step)
    requires Inv(h.ledger) && Fifo(h.ledger) && Plain(h, s)
    ensures Fifo(Next(h, s).ledger)
  {
    match s
    case Submit(ops) => SubmitFifo(h, ops);
    case Poll(eventPtr) => PollFifo(h, eventPtr);
    case HostSettles(token, o) => SettleFifo(h, token, o);
    case _ =>
  }

  lemma {:induction false} PlainRunFifo(h: Host, steps: seq<Step>)
    requires Inv(h.ledger) && Fifo(h.ledger) && PlainRun(h, steps)
    ensures Fifo(Run(h, steps).ledger)
    decreases steps
  {
    if |steps| > 0 {
      NextInv(h, steps[0]);
      PlainStep(h, steps[0]);
      PlainRunFifo(Next(h, steps[0]), steps[1..]);
    }
  }

  /** Absent flushes, and with event pointers in memory: on every run what was delivered followed by what is
      queued is exactly the sequence of pushes. */
  lemma EventsAreFirstInFirstOut(h: Host, steps: seq<Step>)
    requires Fresh(h) && Inv(h.ledger) && PlainRun(h, steps)
    ensures var l := Run(h, steps).ledger; l.pushed == l.delivered + l.queue
  {
    PlainRunFifo(h, steps);
  }
}
