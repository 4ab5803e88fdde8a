/** What becomes of every op: which entry a submit makes for it, what it answers or what its callback
    reports and stores, and that no op of any submit is passed over. */
module IoCompletions {
  import opened Common
  import opened GuestMemory
  import opened IoLedger
  import opened IoEngine
  import opened IoLosses

  // ---- what a batch of ops asks for, read off the ops alone --------------------------------------

  /** Every op but LOG gets a completion. */
  predicate Tracked(op: Op) { op.opcode != OP_LOG }

  /** Ops that complete later, in a callback. */
  predicate Deferred(op: Op) {
    op.opcode in [OP_TIMEOUT, OP_HTTP_FETCH, OP_CONNECT] || (op.opcode == OP_COMPRESS && op.flags2 % 4 != 3)
  }

  /** Ops that are answered inside the submit. */
  predicate Immediate(op: Op) { Tracked(op) && !Deferred(op) }

  /** What one op adds: its user data, its place, and its entry in the pending map. */
  function Named(op: Op): seq<nat> { if Tracked(op) then [op.userData] else [] }

  function PlaceOf(op: Op): seq<Place> { if Deferred(op) then [InFlight] else if Tracked(op) then [Queued] else [] }

  function EntryOf(op: Op, token: nat, serial: nat, handle: nat): seq<Pending> {
    if Deferred(op) then [Pending(token, serial, op, if op.opcode == OP_CONNECT then handle else 0)] else []
  }

  /** The user data of the ops that get a completion, in order. */
  function UserData(ops: seq<Op>): seq<nat> { if |ops| == 0 then [] else Named(ops[0]) + UserData(ops[1..]) }

  function Places(ops: seq<Op>): seq<Place> { if |ops| == 0 then [] else PlaceOf(ops[0]) + Places(ops[1..]) }

  function Connects(ops: seq<Op>): nat {
    if |ops| == 0 then 0 else (if ops[0].opcode == OP_CONNECT then 1 else 0) + Connects(ops[1..])
  }

  /** The pending entries of the ops that complete later: tokens, serials and socket handles in order. */
  function Entries(ops: seq<Op>, token: nat, serial: nat, handle: nat): seq<Pending> {
    if |ops| == 0 then []
    else
      EntryOf(ops[0], token, serial, handle)
      + Entries(ops[1..], if Deferred(ops[0]) then token + 1 else token, serial + |Named(ops[0])|,
                if ops[0].opcode == OP_CONNECT then handle + 1 else handle)
  }

  /** The socket an op names exists when its turn comes: already, or through a connect earlier in the batch. */
  predicate HasSocket(h: Host, ops: seq<Op>, i: nat)
    requires i < |ops|
  {
    ops[i].fd in h.handles || h.nextHandle <= ops[i].fd < h.nextHandle + Connects(ops[..i])
  }

  /** A message waits for a receive, after those that earlier receives of the batch take. */
  predicate MessageWaits(h: Host, ops: seq<Op>, i: nat)
    requires i < |ops|
  {
    ops[i].fd in h.handles && Receives(ops[..i], ops[i].fd) < |h.handles[ops[i].fd].inbox|
  }

  /** What an op that is answered inside the submit is answered with. */
  function AnswerTo(h: Host, ops: seq<Op>, i: nat): int
    requires i < |ops|
  {
    var op := ops[i];
    if op.opcode == OP_NOP then WAPI_OK
    else if op.opcode == OP_SEND then
      if op.fd in h.handles && h.handles[op.fd].open then WAPI_OK else ERR_BADF
    else if op.opcode == OP_RECV then
      if !HasSocket(h, ops, i) then ERR_BADF else if MessageWaits(h, ops, i) then WAPI_OK else ERR_AGAIN
    else ERR_NOTSUP
  }

  function AnswerIn(h: Host, ops: seq<Op>, i: nat, serial: nat): seq<Event>
    requires i < |ops|
  {
    if Immediate(ops[i]) then [Event(EVENT_IO_COMPLETION, ops[i].userData, AnswerTo(h, ops, i), 0, serial)] else []
  }

  function Answers(h: Host, ops: seq<Op>, i: nat, serial: nat): seq<Event>
    requires i <= |ops|
    decreases |ops| - i
  {
    if i == |ops| then []
    else
      AnswerIn(h, ops, i, serial) + Answers(h, ops, i + 1, serial + |Named(ops[i])|)
  }

  // ---- a submit enters exactly these ------------------------------------------------------------

  /** One op, whatever the state and whether or not it throws. */
  lemma NamesOne(h: Host, op: Op)
    ensures Dispatch(h, op).0.ledger.subs == h.ledger.subs + Named(op)
    ensures !Dispatch(h, op).1 ==> Dispatch(h, op).0.ledger.place == h.ledger.place + PlaceOf(op)
  {
  }

  lemma EntersOne(h: Host, op: Op)
    ensures var l, m := h.ledger, Dispatch(h, op).0.ledger;
      && m.pending == l.pending + EntryOf(op, l.nextToken, |l.subs|, h.nextHandle)
      && m.nextToken == l.nextToken + (if Deferred(op) then 1 else 0)
  {
  }

  lemma NextHandleAfter(h: Host, op: Op)
    ensures Dispatch(h, op).0.nextHandle == h.nextHandle + (if op.opcode == OP_CONNECT then 1 else 0)
  {
  }

  lemma AnswersOne(h: Host, ops: seq<Op>)
    requires |ops| > 0 && !Dispatch(h, ops[0]).1
    ensures var l, m := h.ledger, Dispatch(h, ops[0]).0.ledger;
      m.queue == l.queue + AnswerIn(h, ops, 0, |l.subs|)
  {
    assert ops[..0] == [];
  }

  lemma ConnectsRest(ops: seq<Op>, i: nat)
    requires 0 < i <= |ops|
    ensures Connects(ops[..i]) == (if ops[0].opcode == OP_CONNECT then 1 else 0) + Connects(ops[1..][..i - 1])
  {
    assert ops[..i][1..] == ops[1..][..i - 1];
  }

  lemma HandlesLeft(h: Host, op: Op, fd: int)
    requires !Dispatch(h, op).1
    ensures fd in Dispatch(h, op).0.handles <==> fd in h.handles || (op.opcode == OP_CONNECT && fd == h.nextHandle)
  {
  }

  lemma AnswerRest(h: Host, ops: seq<Op>, i: nat)
    requires HandlesBelow(h) && 0 < i < |ops| && !Dispatch(h, ops[0]).1
    ensures AnswerTo(Dispatch(h, ops[0]).0, ops[1..], i - 1) == AnswerTo(h, ops, i)
  {
    SocketsLeft(h, ops[0], ops[i].fd);
    HandlesLeft(h, ops[0], ops[i].fd);
    NextHandleAfter(h, ops[0]);
    ReceivesRest(ops, i, ops[i].fd);
    ConnectsRest(ops, i);
  }

  lemma {:induction false} AnswersRest(h: Host, ops: seq<Op>, i: nat, serial: nat)
    requires HandlesBelow(h) && 0 < i <= |ops| && !Dispatch(h, ops[0]).1
    ensures Answers(Dispatch(h, ops[0]).0, ops[1..], i - 1, serial) == Answers(h, ops, i, serial)
    decreases |ops| - i
  {
    if i < |ops| {
      AnswerRest(h, ops, i);
      AnswersRest(h, ops, i + 1, serial + |Named(ops[i])|);
    }
  }

  /** A submit's first op, and the state it leaves the rest. */
  lemma FirstOp(h: Host, ops: seq<Op>) returns (h1: Host, threw: bool)
    requires |ops| > 0
    ensures (h1, threw) == Dispatch(h, ops[0])
    ensures SubmitAll(h, ops) == if threw then (h1, true) else SubmitAll(h1, ops[1..])
  {
    h1, threw := Dispatch(h, ops[0]).0, Dispatch(h, ops[0]).1;
  }

  /** m is l with some more entries, and these are they. */
  predicate Adds<T(==)>(l: seq<T>, more: seq<T>, m: seq<T>) { m == l + more }

  lemma AddsMore<T>(l: seq<T>, x: seq<T>, m: seq<T>, y: seq<T>, n: seq<T>)
    requires Adds(l, x, m) && Adds(m, y, n)
    ensures Adds(l, x + y, n)
  {
  }

  lemma FirstNamed(h: Host, ops: seq<Op>) returns (h1: Host, threw: bool, u: seq<nat>, p: seq<Place>)
    requires |ops| > 0
    ensures SubmitAll(h, ops) == if threw then (h1, true) else SubmitAll(h1, ops[1..])
    ensures Adds(h.ledger.subs, u, h1.ledger.subs) && UserData(ops) == u + UserData(ops[1..])
    ensures !threw ==> Adds(h.ledger.place, p, h1.ledger.place) && Places(ops) == p + Places(ops[1..])
  {
    h1, threw := FirstOp(h, ops);
    u, p := Named(ops[0]), PlaceOf(ops[0]);
    NamesOne(h, ops[0]);
  }

  lemma FirstTaken(h: Host, ops: seq<Op>) returns (h1: Host, threw: bool, u: seq<nat>)
    requires |ops| > 0 && HandlesBelow(h)
    ensures SubmitAll(h, ops) == if threw then (h1, true) else SubmitAll(h1, ops[1..])
    ensures HandlesBelow(h1) && Adds(h.ledger.subs, u, h1.ledger.subs)
    ensures UserData(ops[..Taken(h, ops, 0)])
         == if threw then u else u + UserData(ops[1..][..Taken(h1, ops[1..], 0)])
  {
    var n := Taken(h, ops, 0);
    h1, threw := FirstOp(h, ops);
    u := Named(ops[0]);
    NamesOne(h, ops[0]);
    FirstThrows(h, ops);
    DispatchHandles(h, ops[0]);
    if threw {
      assert ops[..n] == [ops[0]];
    } else {
      TakenRest(h, ops, 1);
      assert ops[..n][1..] == ops[1..][..n - 1];
    }
  }

  /** The entries of a batch in the state it meets. */
  function EntriesIn(h: Host, ops: seq<Op>): seq<Pending> {
    Entries(ops, h.ledger.nextToken, |h.ledger.subs|, h.nextHandle)
  }

  lemma FirstPends(h: Host, ops: seq<Op>) returns (h1: Host, threw: bool, more: seq<Pending>)
    requires |ops| > 0
    ensures SubmitAll(h, ops) == if threw then (h1, true) else SubmitAll(h1, ops[1..])
    ensures Adds(h.ledger.pending, more, h1.ledger.pending) && EntriesIn(h, ops) == more + EntriesIn(h1, ops[1..])
  {
    h1, threw := FirstOp(h, ops);
    more := EntryOf(ops[0], h.ledger.nextToken, |h.ledger.subs|, h.nextHandle);
    NamesOne(h, ops[0]);
    EntersOne(h, ops[0]);
    NextHandleAfter(h, ops[0]);
  }

  lemma FirstAnswers(h: Host, ops: seq<Op>) returns (h1: Host, threw: bool, more: seq<Event>)
    requires |ops| > 0 && HandlesBelow(h)
    ensures SubmitAll(h, ops) == if threw then (h1, true) else SubmitAll(h1, ops[1..])
    ensures HandlesBelow(h1)
    ensures !threw ==>
      && Adds(h.ledger.queue, more, h1.ledger.queue)
      && Answers(h, ops, 0, |h.ledger.subs|) == more + Answers(h1, ops[1..], 0, |h1.ledger.subs|)
  {
    h1, threw := FirstOp(h, ops);
    more := AnswerIn(h, ops, 0, |h.ledger.subs|);
    DispatchHandles(h, ops[0]);
    if !threw {
      NamesOne(h, ops[0]);
      AnswersOne(h, ops);
      AnswersRest(h, ops, 1, |h1.ledger.subs|);
    }
  }

  /** The ops a submit gets to: up to and including the first that throws. */
  function Taken(h: Host, ops: seq<Op>, i: nat): (n: nat)
    requires i <= |ops|
    ensures i <= n <= |ops|
    decreases |ops| - i
  {
    if i == |ops| then i else if Throws(h, ops, i) then i + 1 else Taken(h, ops, i + 1)
  }

  lemma {:induction false} TakenRest(h: Host, ops: seq<Op>, i: nat)
    requires HandlesBelow(h) && 0 < i <= |ops|
    ensures Taken(Dispatch(h, ops[0]).0, ops[1..], i - 1) + 1 == Taken(h, ops, i)
    decreases |ops| - i
  {
    if i < |ops| {
      ThrowsRest(h, ops, i);
      TakenRest(h, ops, i + 1);
    }
  }

  /** Every submit makes one submission of each op it gets to, in order, but of LOG none. */
  lemma {:induction false} SubmitTakes(h: Host, ops: seq<Op>)
    requires HandlesBelow(h)
    ensures Adds(h.ledger.subs, UserData(ops[..Taken(h, ops, 0)]), SubmitAll(h, ops).0.ledger.subs)
    decreases ops
  {
    if |ops| > 0 {
      var h1, threw, u := FirstTaken(h, ops);
      if !threw {
        SubmitTakes(h1, ops[1..]);
        AddsMore(h.ledger.subs, u, h1.ledger.subs, UserData(ops[1..][..Taken(h1, ops[1..], 0)]),
                 SubmitAll(h1, ops[1..]).0.ledger.subs);
      }
    }
  }

  /** One that does not throw puts every submission in flight or in the queue, as its op asks. */
  lemma {:induction false} SubmitPlaces(h: Host, ops: seq<Op>)
    requires !SubmitAll(h, ops).1
    ensures Adds(h.ledger.subs, UserData(ops), SubmitAll(h, ops).0.ledger.subs)
    ensures Adds(h.ledger.place, Places(ops), SubmitAll(h, ops).0.ledger.place)
    decreases ops
  {
    if |ops| > 0 {
      var h1, threw, u, p := FirstNamed(h, ops);
      var m := SubmitAll(h1, ops[1..]).0.ledger;
      SubmitPlaces(h1, ops[1..]);
      AddsMore(h.ledger.subs, u, h1.ledger.subs, UserData(ops[1..]), m.subs);
      AddsMore(h.ledger.place, p, h1.ledger.place, Places(ops[1..]), m.place);
    }
  }

  /** Each op that completes later is pending under the next token, and nothing else joins the pending map. */
  lemma {:induction false} SubmitPends(h: Host, ops: seq<Op>)
    requires !SubmitAll(h, ops).1
    ensures Adds(h.ledger.pending, EntriesIn(h, ops), SubmitAll(h, ops).0.ledger.pending)
    decreases ops
  {
    if |ops| > 0 {
      var h1, threw, more := FirstPends(h, ops);
      SubmitPends(h1, ops[1..]);
      AddsMore(h.ledger.pending, more, h1.ledger.pending, EntriesIn(h1, ops[1..]),
               SubmitAll(h1, ops[1..]).0.ledger.pending);
    }
  }

  /** Each other op but LOG is answered at once, and nothing else joins the queue. */
  lemma {:induction false} SubmitAnswers(h: Host, ops: seq<Op>)
    requires HandlesBelow(h) && !SubmitAll(h, ops).1
    ensures Adds(h.ledger.queue, Answers(h, ops, 0, |h.ledger.subs|), SubmitAll(h, ops).0.ledger.queue)
    decreases ops
  {
    if |ops| > 0 {
      var h1, threw, more := FirstAnswers(h, ops);
      SubmitAnswers(h1, ops[1..]);
      AddsMore(h.ledger.queue, more, h1.ledger.queue, Answers(h1, ops[1..], 0, |h1.ledger.subs|),
               SubmitAll(h1, ops[1..]).0.ledger.queue);
    }
  }

  // ---- over whole runs -----------------------------------------------------------------------------

  /** The user data of the ops that the submits of a run get to, in order. */
  ghost function Entered(h: Host, steps: seq<Step>): seq<nat>
    requires Inv(h.ledger)
    decreases steps
  {
    if |steps| == 0 then []
    else
      NextInv(h, steps[0]);
      EnteredBy(h, steps[0]) + Entered(Next(h, steps[0]), steps[1..])
  }

  function EnteredBy(h: Host, s: Step): seq<nat> {
    if s.Submit? then UserData(s.ops[..Taken(h, s.ops, 0)]) else []
  }

  lemma StepEnters(h: Host, s: Step)
    requires Inv(h.ledger) && HandlesBelow(h)
    ensures Adds(h.ledger.subs, EnteredBy(h, s), Next(h, s).ledger.subs)
  {
    match s
    case Submit(ops) => SubmitTakes(h, ops);
    case _ =>
  }

  /** On every run each op that a submit gets to, but LOG, is one submission of its own, in order, and
      nothing else is one. */
  lemma {:induction false} RunEntersEveryOp(h: Host, steps: seq<Step>)
    requires Inv(h.ledger) && HandlesBelow(h)
    ensures Adds(h.ledger.subs, Entered(h, steps), Run(h, steps).ledger.subs)
    decreases steps
  {
    if |steps| > 0 {
      NextInv(h, steps[0]);
      NextHandles(h, steps[0]);
      StepEnters(h, steps[0]);
      var h1 := Next(h, steps[0]);
      RunEntersEveryOp(h1, steps[1..]);
      AddsMore(h.ledger.subs, EnteredBy(h, steps[0]), h1.ledger.subs, Entered(h1, steps[1..]),
               Run(h1, steps[1..]).ledger.subs);
    }
  }

  /** All the ops of all the submits. */
  function Asked(steps: seq<Step>): seq<nat> {
    if |steps| == 0 then [] else (if steps[0].Submit? then UserData(steps[0].ops) else []) + Asked(steps[1..])
  }

  lemma {:induction false} AllTaken(h: Host, ops: seq<Op>, i: nat)
    requires i <= |ops| && forall j :: i <= j < |ops| ==> !Throws(h, ops, j)
    ensures Taken(h, ops, i) == |ops|
    decreases |ops| - i
  {
    if i < |ops| { AllTaken(h, ops, i + 1); }
  }

  lemma {:induction false} LosslessEntersAll(h: Host, steps: seq<Step>)
    requires Inv(h.ledger) && Lossless(h, steps)
    ensures Entered(h, steps) == Asked(steps)
    decreases steps
  {
    if |steps| > 0 {
      NextInv(h, steps[0]);
      if steps[0].Submit? {
        AllTaken(h, steps[0].ops, 0);
        assert steps[0].ops[..|steps[0].ops|] == steps[0].ops;
      }
      LosslessEntersAll(Next(h, steps[0]), steps[1..]);
    }
  }

  /** From a fresh engine, on every run that loses nothing: the submissions are the ops of all the submits,
      LOG excepted, one for one and in order, and each is in flight, queued, delivered, cancelled or flushed. */
  lemma EveryOpHasItsPlace(h: Host, steps: seq<Step>)
    requires Fresh(h)
    ensures Inv(h.ledger)
    ensures Lossless(h, steps) ==>
      var l := Run(h, steps).ledger; l.subs == Asked(steps) && |l.place| == |Asked(steps)| && NothingLost(l)
  {
    FreshInv(h);
    if Lossless(h, steps) {
      RunEntersEveryOp(h, steps);
      LosslessEntersAll(h, steps);
      RunLosesExactly(h, steps);
      RunInv(h, steps);
    }
  }

  // ---- a pending op waits for its callback ------------------------------------------------------------

  /** Only an op's own callback or a cancel of its user data takes it out of the pending map. */
  predicate Leaves(p: Pending, s: Step) {
    (s.Cancel? && s.userData == p.op.userData)
    || (s.HostSettles? && s.token == p.token && Opcode(s.outcome) == p.op.opcode)
  }

  lemma {:induction false} SubmitKeepsPending(h: Host, ops: seq<Op>)
    ensures h.ledger.pending <= SubmitAll(h, ops).0.ledger.pending
    decreases ops
  {
    if |ops| > 0 {
      var h1, threw, more := FirstPends(h, ops);
      SubmitKeepsPending(h1, ops[1..]);
    }
  }

  lemma StepKeepsPending(h: Host, s: Step, p: Pending)
    requires Inv(h.ledger) && p in h.ledger.pending && !Leaves(p, s)
    ensures p in Next(h, s).ledger.pending
  {
    match s
    case Submit(ops) => SubmitKeepsPending(h, ops);
    case Cancel(u) =>
      var i := FirstWith(h.ledger.pending, u);
      if i < |h.ledger.pending| { OthersRemain(h.ledger.pending, i, p); }
    case HostSettles(token, o) =>
      var i := Live(h, token, Opcode(o));
      if i < |h.ledger.pending| { OthersRemain(h.ledger.pending, i, p); }
    case _ =>
  }

  lemma OthersRemain<T>(s: seq<T>, i: nat, x: T)
    requires i < |s| && x in s && x != s[i]
    ensures x in Removed(s, i)
  {
    var j :| 0 <= j < |s| && s[j] == x;
    RemovedKeeps(s, i, j);
  }

  lemma {:induction false} StaysPending(h: Host, steps: seq<Step>, p: Pending)
    requires Inv(h.ledger) && p in h.ledger.pending && forall s :: s in steps ==> !Leaves(p, s)
    ensures p in Run(h, steps).ledger.pending
    decreases steps
  {
    if |steps| > 0 {
      NextInv(h, steps[0]);
      StepKeepsPending(h, steps[0], p);
      StaysPending(Next(h, steps[0]), steps[1..], p);
    }
  }

  // ---- what a callback reports and stores ----------------------------------------------------------------

  /** The bytes a fetch or a compression yields. */
  function Yield(o: Outcome): seq<byte> {
    match o
    case FetchResolves(body) => body
    case CompressResolves(output) => output
    case _ => []
  }

  /** As many of them as the op has room for. */
  function Clipped(op: Op, o: Outcome): seq<byte> { Yield(o)[..Min(|Yield(o)|, op.len2)] }

  predicate Succeeds(o: Outcome) { !o.FetchRejects? && !o.CompressRejects? && !o.SocketFails? }

  predicate HasReport(op: Op, o: Outcome) { op.resultPtr != 0 && Succeeds(o) && !o.TimerFires? }

  predicate HasPayload(op: Op, o: Outcome) { op.addr2 != 0 && Clipped(op, o) != [] }

  /** The code it completes with. */
  function CodeOf(op: Op, o: Outcome): int {
    if !Succeeds(o) then ERR_IO
    else if o.CompressResolves? && |o.output| > op.len2 then ERR_OVERFLOW
    else WAPI_OK
  }

  /** A pending op whose buffers are in memory, on a host that can store its report. */
  predicate CanSettle(h: Host, p: Pending, o: Outcome) {
    && Opcode(o) == p.op.opcode && InRange(p.op, |h.mem|)
    && (h.viewsLive || !HasReport(p.op, o) || HasPayload(p.op, o))
  }

  lemma FoundAt(l: Ledger, i: nat)
    requires Inv(l) && i < |l.pending|
    ensures IndexOf(l.pending, l.pending[i].token) == i
  {
    var j := IndexOf(l.pending, l.pending[i].token);
  }

  lemma EffectIs(p: Pending, o: Outcome)
    requires Opcode(o) == p.op.opcode
    ensures var e := EffectOf(p, o);
      && e.result == CodeOf(p.op, o) && (e.reportAt == if HasReport(p.op, o) then p.op.resultPtr else 0)
      && (e.payload == if HasPayload(p.op, o) then Transfer(p.op.addr2, Clipped(p.op, o)) else NoTransfer)
      && (HasReport(p.op, o) ==> e.report == if o.SocketOpens? then p.handle else |Clipped(p.op, o)|)
  {
  }

  /** The callback of a pending op completes it: the entry goes, and one event with the op's user data and
      the code the outcome calls for is the newest in the queue. */
  lemma CallbackCompletes(h: Host, i: nat, o: Outcome)
    requires Inv(h.ledger) && i < |h.ledger.pending| && CanSettle(h, h.ledger.pending[i], o)
    ensures var l, p := h.ledger, h.ledger.pending[i];
      var m := Next(h, HostSettles(p.token, o)).ledger;
      && m.pending == Removed(l.pending, i) && m.place == l.place[p.serial := Queued]
      && m.queue == l.queue + [Event(EVENT_IO_COMPLETION, p.op.userData, CodeOf(p.op, o), 0, p.serial)]
  {
    FoundAt(h.ledger, i);
    EffectIs(h.ledger.pending[i], o);
  }

  /** Eight bytes of memory hold a number, and a range of it these bytes. */
  predicate HoldsNumber(mem: seq<byte>, at: nat, n: nat) {
    at + 8 <= |mem| && FromLittleEndian(mem[at..at + 8]) == n
  }

  predicate HoldsBytes(mem: seq<byte>, at: nat, bytes: seq<byte>) {
    at + |bytes| <= |mem| && mem[at..at + |bytes|] == bytes
  }

  predicate Apart(at: nat, n: nat, other: nat, m: nat) { at + n <= other || other + m <= at }

  lemma StoresReadBack(mem: seq<byte>, live: bool, t: Transfer, at: nat, n: nat)
    requires at != 0 ==> at + 8 <= |mem| && (live || t.Transfer?)
    requires t.Transfer? ==> t.at + |t.bytes| <= |mem|
    ensures var s := GuestStores(mem, live, t, at, n);
      && |s.mem| == |mem|
      && (at != 0 && n < 0x1_0000_0000_0000_0000 ==> HoldsNumber(s.mem, at, n))
      && (t.Transfer? && (at == 0 || Apart(at, 8, t.at, |t.bytes|)) ==> HoldsBytes(s.mem, t.at, t.bytes))
      && (!t.Transfer? && at == 0 ==> s.mem == mem)
  {
    if n < 0x1_0000_0000_0000_0000 { FieldReadsBack(n, 8, 8, 8); }
    var mem1 := if t.Transfer? then Store(mem, t.at, t.bytes) else mem;
    if t.Transfer? { StoredWhole(mem, t.at, t.bytes); }
    if at != 0 {
      StoredWhole(mem1, at, LittleEndian(n, 8));
      if t.Transfer? && Apart(at, 8, t.at, |t.bytes|) {
        StoredElsewhere(mem1, at, LittleEndian(n, 8), t.at, t.at + |t.bytes|);
      }
    }
  }

  lemma StoredWhole(mem: seq<byte>, at: nat, bs: seq<byte>)
    requires at + |bs| <= |mem|
    ensures Store(mem, at, bs)[at..at + |bs|] == bs
  {
    StoredSlice(mem, at, bs, 0, |bs|);
  }

  lemma StoredElsewhere(mem: seq<byte>, at: nat, bs: seq<byte>, lo: nat, hi: nat)
    requires at + |bs| <= |mem| && lo <= hi <= |mem| && (hi <= at || at + |bs| <= lo)
    ensures Store(mem, at, bs)[lo..hi] == mem[lo..hi]
  {
  }

  lemma SettledMemory(h: Host, i: nat, o: Outcome) returns (t: Transfer, at: nat, n: nat)
    requires Inv(h.ledger) && i < |h.ledger.pending| && Opcode(o) == h.ledger.pending[i].op.opcode
    ensures Next(h, HostSettles(h.ledger.pending[i].token, o)).mem == GuestStores(h.mem, h.viewsLive, t, at, n).mem
    ensures var op := h.ledger.pending[i].op;
      && (at == if HasReport(op, o) then op.resultPtr else 0)
      && (t == if HasPayload(op, o) then Transfer(op.addr2, Clipped(op, o)) else NoTransfer)
      && (HasReport(op, o) ==> n == if o.SocketOpens? then h.ledger.pending[i].handle else |Clipped(op, o)|)
  {
    FoundAt(h.ledger, i);
    EffectIs(h.ledger.pending[i], o);
    var e := EffectOf(h.ledger.pending[i], o);
    t, at, n := e.payload, e.reportAt, e.report;
  }

  /** The guest finds the clipped body in its buffer, and in the result slot its length, or the new
      socket's handle. */
  lemma CallbackStores(h: Host, i: nat, o: Outcome)
    requires Inv(h.ledger) && i < |h.ledger.pending| && CanSettle(h, h.ledger.pending[i], o)
    ensures var p := h.ledger.pending[i];
      var op, mem, bytes := p.op, Next(h, HostSettles(p.token, o)).mem, Clipped(p.op, o);
      var told := if o.SocketOpens? then p.handle else |bytes|;
      && |mem| == |h.mem|
      && (HasReport(op, o) && told < 0x1_0000_0000_0000_0000 ==> HoldsNumber(mem, op.resultPtr, told))
      && (HasPayload(op, o) && (!HasReport(op, o) || Apart(op.resultPtr, 8, op.addr2, |bytes|)) ==>
            HoldsBytes(mem, op.addr2, bytes))
      && (!HasPayload(op, o) && !HasReport(op, o) ==> mem == h.mem)
  {
    var t, at, n := SettledMemory(h, i, o);
    StoresReadBack(h.mem, h.viewsLive, t, at, n);
  }

  /** A socket opens when its connect succeeds and is gone when it fails; no other callback touches one. */
  lemma CallbackSockets(h: Host, i: nat, o: Outcome)
    requires Inv(h.ledger) && i < |h.ledger.pending| && Opcode(o) == h.ledger.pending[i].op.opcode
    ensures var fd, m := h.ledger.pending[i].handle, Next(h, HostSettles(h.ledger.pending[i].token, o)).handles;
      && (forall k :: k in h.handles && k != fd ==> k in m && m[k] == h.handles[k])
      && (forall k :: k in m ==> k in h.handles)
      && (o.SocketOpens? && fd in h.handles ==> fd in m && m[fd].open && m[fd].inbox == h.handles[fd].inbox)
      && (o.SocketFails? ==> fd !in m)
      && (!o.SocketOpens? && !o.SocketFails? ==> m == h.handles)
  {
    FoundAt(h.ledger, i);
  }

  /** An arriving message goes behind those that wait. */
  lemma MessageArrives(h: Host, fd: int, data: seq<byte>)
    requires Linked(h.ledger)
    ensures var m := Next(h, SocketMessage(fd, data)).handles;
      && m.Keys == h.handles.Keys && (forall k :: k in m && k != fd ==> m[k] == h.handles[k])
      && (fd in m ==> m[fd].inbox == h.handles[fd].inbox + [data] && m[fd].open == h.handles[fd].open)
  {
  }

  /** A socket that opens or closes by itself does nothing but that. */
  lemma SocketTurns(h: Host, fd: int, open: bool)
    requires Linked(h.ledger)
    ensures var m := Next(h, SocketState(fd, open));
      && m == h.(handles := m.handles) && m.handles.Keys == h.handles.Keys
      && forall k :: k in m.handles ==>
           m.handles[k] == if k == fd then h.handles[k].(open := open) else h.handles[k]
  {
  }

  /** The connect that a cancel finds first, if it finds one, is the one of this socket. */
  predicate CancelsSocket(h: Host, userData: nat, fd: int) {
    var i := FirstWith(h.ledger.pending, userData);
    i < |h.ledger.pending| && h.ledger.pending[i].op.opcode == OP_CONNECT && h.ledger.pending[i].handle == fd
  }

  /** A cancelled connect closes its socket, and no cancel does anything else to a socket. */
  lemma CancelCloses(h: Host, userData: nat)
    requires Linked(h.ledger)
    ensures var m := Next(h, Cancel(userData)).handles;
      && m.Keys == h.handles.Keys
      && forall k :: k in m ==>
           m[k].inbox == h.handles[k].inbox && m[k].open == (h.handles[k].open && !CancelsSocket(h, userData, k))
  {
  }

  // ---- what an immediate answer stores ------------------------------------------------------------------

  /** The number in the result slot: a send reports its length, a receive what it copied, others 0. */
  function Told(h: Host, op: Op): nat {
    if op.opcode == OP_SEND then op.len
    else if op.opcode == OP_RECV && MessageWaits(h, [op], 0) then Min(|h.handles[op.fd].inbox[0]|, op.len)
    else 0
  }

  predicate TellsNow(h: Host, op: Op) {
    op.resultPtr != 0 && (AnswersWithReport(h, op) || (op.opcode == OP_RECV && MessageWaits(h, [op], 0)))
  }

  lemma AnswerStores(h: Host, op: Op)
    requires !Dispatch(h, op).1
    ensures var mem := Dispatch(h, op).0.mem;
      && |mem| == |h.mem| && (TellsNow(h, op) ==> HoldsNumber(mem, op.resultPtr, Told(h, op)))
      && (!TellsNow(h, op) && !(op.opcode == OP_RECV && MessageWaits(h, [op], 0)) ==> mem == h.mem)
  {
    assert [op][..0] == [];
    if TellsNow(h, op) {
      var t := if op.opcode == OP_RECV then Transfer(op.addr, h.handles[op.fd].inbox[0][..Told(h, op)]) else NoTransfer;
      StoresReadBack(h.mem, true, t, op.resultPtr, Told(h, op));
    }
  }

  /** A receive puts the start of the oldest waiting message into the guest's buffer. */
  lemma ReceiveStores(h: Host, op: Op)
    requires op.opcode == OP_RECV && MessageWaits(h, [op], 0) && !Dispatch(h, op).1
    ensures var message := h.handles[op.fd].inbox[0];
      var n := Min(|message|, op.len);
      op.resultPtr == 0 || Apart(op.resultPtr, 8, op.addr, n) ==>
        HoldsBytes(Dispatch(h, op).0.mem, op.addr, message[..n])
  {
    assert [op][..0] == [];
    var n := Min(|h.handles[op.fd].inbox[0]|, op.len);
    StoresReadBack(h.mem, true, Transfer(op.addr, h.handles[op.fd].inbox[0][..n]), op.resultPtr, n);
  }

  // ---- stores that throw, and what keeps the views live --------------------------------------------------

  lemma ThrowingStores(mem: seq<byte>, live: bool, t: Transfer, at: nat, n: nat)
    requires !GuestStores(mem, live, t, at, n).ok
    ensures GuestStores(mem, live, t, at, n).mem
         == if t.Transfer? && t.at + |t.bytes| <= |mem| then Store(mem, t.at, t.bytes) else mem
  {
  }

  /** A callback one of whose stores throws loses its completion: the entry is gone and nothing is queued. A
      payload that fits is in memory all the same. */
  lemma LostCallback(h: Host, i: nat, o: Outcome)
    requires Inv(h.ledger) && i < |h.ledger.pending| && Opcode(o) == h.ledger.pending[i].op.opcode
    requires Overruns(h, EffectOf(h.ledger.pending[i], o))
    ensures var l, p, m := h.ledger, h.ledger.pending[i], Next(h, HostSettles(h.ledger.pending[i].token, o));
      && m.ledger.pending == Removed(l.pending, i) && m.ledger.queue == l.queue
      && m.ledger.place == l.place[p.serial := Lost]
      && m.mem == if HasPayload(p.op, o) && p.op.addr2 + |Clipped(p.op, o)| <= |h.mem|
                  then Store(h.mem, p.op.addr2, Clipped(p.op, o)) else h.mem
  {
    var p := h.ledger.pending[i];
    FoundAt(h.ledger, i);
    EffectIs(p, o);
    var e := EffectOf(p, o);
    ThrowingStores(h.mem, h.viewsLive, e.payload, e.reportAt, e.report);
  }

  /** An op that throws inside a submit is lost, and queues nothing; a received payload that fits is in memory
      all the same. */
  lemma LostOp(h: Host, op: Op)
    requires Dispatch(h, op).1
    ensures var l, m := h.ledger, Dispatch(h, op).0;
      && m.ledger.place == l.place + [Lost] && m.ledger.queue == l.queue && m.ledger.pending == l.pending
      && (op.opcode == OP_RECV ==> op.fd in h.handles && h.handles[op.fd].inbox != [])
      && (op.opcode != OP_RECV ==> m.mem == h.mem)
      && (op.opcode == OP_RECV ==>
            var n := Min(|h.handles[op.fd].inbox[0]|, op.len);
            m.mem == if op.addr + n <= |h.mem| then Store(h.mem, op.addr, h.handles[op.fd].inbox[0][..n]) else h.mem)
  {
  }

  /** Growing memory makes the views stale; dispatching an op, handing out an event or storing a payload makes
      them live again, and nothing else does. */
  lemma ViewsFollow(h: Host, s: Step)
    requires Inv(h.ledger)
    ensures Next(h, s).viewsLive ==
      match s
      case Submit(ops) => h.viewsLive || |ops| > 0
      case Poll(_) => h.viewsLive || h.ledger.queue != []
      case GuestGrows(_) => false
      case HostSettles(token, o) =>
        var i := Live(h, token, Opcode(o));
        h.viewsLive || (i < |h.ledger.pending| && HasPayload(h.ledger.pending[i].op, o))
      case _ => h.viewsLive
  {
    match s
    case Submit(ops) => SubmitViews(h, ops);
    case HostSettles(token, o) =>
      var i := Live(h, token, Opcode(o));
      if i < |h.ledger.pending| { EffectIs(h.ledger.pending[i], o); }
    case _ =>
  }

  lemma DispatchViews(h: Host, op: Op)
    ensures Dispatch(h, op).0.viewsLive
  {
  }

  lemma {:induction false} SubmitViews(h: Host, ops: seq<Op>)
    ensures SubmitAll(h, ops).0.viewsLive == (h.viewsLive || |ops| > 0)
    decreases ops
  {
    if |ops| > 0 {
      DispatchViews(h, ops[0]);
      SubmitViews(Dispatch(h, ops[0]).0, ops[1..]);
    }
  }

  /** A poll finds nothing exactly when nothing is queued, and then changes nothing; otherwise it writes the
      128 bytes of the event and no others. */
  lemma PollWritesOnlyTheEvent(h: Host, at: nat, k: nat)
    requires Inv(h.ledger) && k < |h.mem|
    ensures var (r, polled) := PollOp(h, at);
      && (polled == Nothing <==> h.ledger.queue == []) && (polled == Nothing ==> r == h)
      && |r.mem| == |h.mem| && (k < at || k >= at + IO_EVENT_SIZE ==> r.mem[k] == h.mem[k])
      && (polled.Got? && (at + 4 <= k < at + 8 || at + 24 <= k < at + 128) ==> r.mem[k] == 0)
  {
    if h.ledger.queue != [] {
      var room := if at <= |h.mem| then |h.mem| - at else 0;
      var img := EventImage(h.ledger.queue[0], room)[..Min(room, IO_EVENT_SIZE)];
      if at <= |h.mem| { StoreEffect(h.mem, at, img, k); }
    }
  }
}
