/** The C# front end (class Io) on top of the engine: tokens, the token-to-callback dictionary,
    and the pump that feeds polled completions to DispatchCompletion. */
module IoDispatch {
  import opened IoLedger
  import opened IoEngine
  import IoCompletions
  import SwHost

  /** A completion callback: a name, and the ops it submits (each with its own callback) when it runs. */
  datatype Callback = Callback(name: nat, submits: seq<(Op, Callback)>)

  /** One invocation of a callback. */
  datatype Ran = Ran(token: nat, name: nat, result: int, flags: nat)

  datatype IoState = IoState(pending: map<nat, Callback>, nextToken: nat, completions: nat)

  /** `issued[t - 1]` is what was submitted under token t, an op and its callback; `ran` lists the
      invocations so far and `taken` sums what TakeCompletionCount has returned. */
  datatype App = App(host: Host, io: IoState, issued: seq<(Op, Callback)>, ran: seq<Ran>, taken: nat)

  predicate FreshApp(a: App) {
    && IoEngine.Fresh(a.host) && a.io == IoState(map[], 1, 0)
    && |a.issued| == |a.ran| == 0 && a.taken == 0
  }

  // ---- the operations -----------------------------------------------------

  function AfterSubmit(a: App, op: Op, cb: Callback): App {
    var token := a.io.nextToken;
    a.(io := a.io.(pending := a.io.pending[token := cb], nextToken := token + 1),
       issued := a.issued + [(op, cb)],
       host := SubmitAll(a.host, [op.(userData := token)]).0)
  }

  function SubmitEach(a: App, s: seq<(Op, Callback)>): App
    decreases s
  {
    if |s| == 0 then a else SubmitEach(AfterSubmit(a, s[0].0, s[0].1), s[1..])
  }

  /** The entry is removed before the callback runs, and the counter is raised after it. */
  function AfterDispatch(a: App, ev: Event): App {
    if ev.userData !in a.io.pending then a
    else
      var cb := a.io.pending[ev.userData];
      var a1 := a.(io := a.io.(pending := a.io.pending - {ev.userData}),
                   ran := a.ran + [Ran(ev.userData, cb.name, ev.result, ev.flags)]);
      var a2 := SubmitEach(a1, cb.submits);
      a2.(io := a2.io.(completions := a2.io.completions + 1))
  }

  /** One turn of the event pump. */
  function Pump(a: App, eventPtr: nat): App
    requires Linked(a.host.ledger)
  {
    var (h, r) := PollOp(a.host, eventPtr);
    var a1 := a.(host := h);
    if r.Got? && r.ev.typ == EVENT_IO_COMPLETION then AfterDispatch(a1, r.ev) else a1
  }

  function AfterTake(a: App): App {
    a.(io := a.io.(completions := 0), taken := a.taken + a.io.completions)
  }

  datatype AppStep =
    | AppSubmit(op: Op, cb: Callback)
    | AppPump(eventPtr: nat)
    | AppTake
    | Engine(step: Step)

  /** Submissions and polls go through Io; everything else may happen to the engine at any time. */
  predicate Allowed(s: AppStep) {
    s.Engine? ==> !s.step.Submit? && !s.step.Poll?
  }

  ghost function AppNext(a: App, s: AppStep): App
    requires Linked(a.host.ledger)
  {
    match s
    case AppSubmit(op, cb) => AfterSubmit(a, op, cb)
    case AppPump(eventPtr) => Pump(a, eventPtr)
    case AppTake => AfterTake(a)
    case Engine(step) => a.(host := Next(a.host, step))
  }

  ghost function AppRun(a: App, steps: seq<AppStep>): App
    requires Core(a) && forall s :: s in steps ==> Allowed(s)
    decreases steps
  {
    if |steps| == 0 then a
    else
      AppNextCore(a, steps[0]);
      AppRun(AppNext(a, steps[0]), steps[1..])
  }

  // ---- invariant ----------------------------------------------------------

  predicate Unfinished(p: Place) { p == InFlight || p == Queued }

  /** Tokens handed to the engine are fresh and increasing, and an unfinished submission still has its callback. */
  ghost predicate TokensOk(l: Ledger, pending: map<nat, Callback>, nextToken: nat) {
    && |l.place| == |l.subs| && 1 <= nextToken
    && (forall n :: 0 <= n < |l.subs| ==> 1 <= l.subs[n] < nextToken)
    && (forall m, n :: 0 <= m < n < |l.subs| ==> l.subs[m] < l.subs[n])
    && (forall n :: 0 <= n < |l.place| && Unfinished(l.place[n]) ==> l.subs[n] in pending)
  }

  /** The callbacks that ran are, one for one and in order, those of the delivered events. */
  ghost predicate RanOk(ran: seq<Ran>, delivered: seq<Event>) {
    && |ran| == |delivered|
    && forall i :: 0 <= i < |ran| ==>
         && ran[i].token == delivered[i].userData
         && ran[i].result == delivered[i].result && ran[i].flags == delivered[i].flags
  }

  ghost predicate HasRun(ran: seq<Ran>, token: nat) {
    exists i :: 0 <= i < |ran| && ran[i].token == token
  }

  /** A callback is waiting exactly until it has run, under the token it was submitted with. */
  ghost predicate CallbacksOk(pending: map<nat, Callback>, nextToken: nat, issued: seq<(Op, Callback)>, ran: seq<Ran>) {
    && nextToken == |issued| + 1
    && (forall t :: t in pending ==> 1 <= t < nextToken && pending[t] == issued[t - 1].1)
    && (forall t {:trigger HasRun(ran, t)} :: 1 <= t < nextToken ==> (t in pending <==> !HasRun(ran, t)))
    && (forall i :: 0 <= i < |ran| ==> 1 <= ran[i].token < nextToken && ran[i].name == issued[ran[i].token - 1].1.name)
  }

  /** The tokens of the submitted ops that get a completion, in the order of submission. */
  function TokensOf(issued: seq<(Op, Callback)>): seq<nat> {
    if |issued| == 0 then []
    else
      TokensOf(issued[..|issued| - 1])
      + (if IoCompletions.Tracked(issued[|issued| - 1].0) then [|issued|] else [])
  }

  /** Everything but the counter balance, which holds again only when a callback has returned. */
  ghost predicate Inner(a: App) {
    && Inv(a.host.ledger) && TokensOk(a.host.ledger, a.io.pending, a.io.nextToken)
    && RanOk(a.ran, a.host.ledger.delivered) && CallbacksOk(a.io.pending, a.io.nextToken, a.issued, a.ran)
    && a.host.ledger.subs == TokensOf(a.issued)
  }

  ghost predicate Core(a: App) {
    Inner(a) && a.taken + a.io.completions == |a.ran|
  }

  lemma NoTokens(l: Ledger, pending: map<nat, Callback>)
    requires |l.place| == |l.subs| == 0
    ensures TokensOk(l, pending, 1)
  {
  }

  lemma NoCallbacks(pending: map<nat, Callback>, issued: seq<(Op, Callback)>, ran: seq<Ran>)
    requires |pending| == |issued| == |ran| == 0
    ensures CallbacksOk(pending, 1, issued, ran)
  {
  }

  lemma NothingIssued(issued: seq<(Op, Callback)>, subs: seq<nat>, ran: seq<Ran>, delivered: seq<Event>)
    requires |issued| == |subs| == |ran| == |delivered| == 0
    ensures subs == TokensOf(issued) && RanOk(ran, delivered)
  {
  }

  lemma FreshCore(a: App)
    requires FreshApp(a)
    ensures Core(a)
  {
    FreshInv(a.host);
    NothingIssued(a.issued, a.host.ledger.subs, a.ran, a.host.ledger.delivered);
    NoTokens(a.host.ledger, a.io.pending);
    NoCallbacks(a.io.pending, a.issued, a.ran);
  }

  // ---- preservation ---------------------------------------------------------

  lemma DispatchAdds(h: Host, op: Op)
    ensures var l, m := h.ledger, Dispatch(h, op).0.ledger;
      && ((m.subs == l.subs && m.place == l.place)
          || (|m.place| == |l.place| + 1 && m.subs == l.subs + [op.userData] && l.place <= m.place))
      && m.delivered == l.delivered && m.subs == l.subs + IoCompletions.Named(op)
  {
    IoCompletions.NamesOne(h, op);
  }

  /** A new token goes to the engine, or nowhere when the op is LOG. */
  lemma TokensAdd(l: Ledger, m: Ledger, pending: map<nat, Callback>, nextToken: nat, cb: Callback)
    requires TokensOk(l, pending, nextToken)
    requires (m.subs == l.subs && m.place == l.place)
             || (|m.place| == |l.place| + 1 && m.subs == l.subs + [nextToken] && l.place <= m.place)
    ensures TokensOk(m, pending[nextToken := cb], nextToken + 1)
  {
  }

  lemma TokensLater(l: Ledger, m: Ledger, pending: map<nat, Callback>, nextToken: nat)
    requires TokensOk(l, pending, nextToken) && m.subs == l.subs && |m.place| == |l.place|
    requires forall n :: 0 <= n < |l.place| ==> Later(l.place[n], m.place[n])
    ensures TokensOk(m, pending, nextToken)
  {
  }

  lemma CallbacksAdd(pending: map<nat, Callback>, nextToken: nat, issued: seq<(Op, Callback)>, ran: seq<Ran>,
      op: Op, cb: Callback)
    requires CallbacksOk(pending, nextToken, issued, ran)
    ensures CallbacksOk(pending[nextToken := cb], nextToken + 1, issued + [(op, cb)], ran)
  {
  }

  lemma TokensOfMore(issued: seq<(Op, Callback)>, op: Op, cb: Callback)
    ensures TokensOf(issued + [(op, cb)])
         == TokensOf(issued) + (if IoCompletions.Tracked(op) then [|issued| + 1] else [])
  {
    assert (issued + [(op, cb)])[..|issued|] == issued;
  }

  lemma SubmitInner(a: App, op: Op, cb: Callback)
    requires Inner(a)
    ensures Inner(AfterSubmit(a, op, cb))
    ensures AfterSubmit(a, op, cb).ran == a.ran && AfterSubmit(a, op, cb).io.completions == a.io.completions
  {
    var op1 := op.(userData := a.io.nextToken);
    SubmitInv(a.host, [op1]);
    assert SubmitAll(a.host, [op1]).0 == Dispatch(a.host, op1).0 by { assert [op1][1..] == []; }
    DispatchAdds(a.host, op1);
    TokensAdd(a.host.ledger, AfterSubmit(a, op, cb).host.ledger, a.io.pending, a.io.nextToken, cb);
    TokensOfMore(a.issued, op, cb);
    CallbacksAdd(a.io.pending, a.io.nextToken, a.issued, a.ran, op, cb);
  }

  lemma {:induction false} SubmitEachInner(a: App, s: seq<(Op, Callback)>)
    requires Inner(a)
    ensures var b := SubmitEach(a, s);
      Inner(b) && b.ran == a.ran && b.taken == a.taken && b.io.completions == a.io.completions
    decreases s
  {
    if |s| > 0 {
      SubmitInner(a, s[0].0, s[0].1);
      SubmitEachInner(AfterSubmit(a, s[0].0, s[0].1), s[1..]);
    }
  }

  /** The delivered submission no longer needs its callback in the dictionary. */
  lemma TokensRemove(l: Ledger, m: Ledger, pending: map<nat, Callback>, nextToken: nat, n: nat)
    requires TokensOk(l, pending, nextToken) && m.subs == l.subs && n < |l.place|
    requires m.place == l.place[n := Delivered]
    ensures TokensOk(m, pending - {l.subs[n]}, nextToken)
  {
  }

  /** Moving a token's callback from the dictionary to the list of runs. */
  lemma CallbacksRun(pending: map<nat, Callback>, nextToken: nat, issued: seq<(Op, Callback)>, ran: seq<Ran>,
      r: Ran)
    requires CallbacksOk(pending, nextToken, issued, ran)
    requires r.token in pending && r.name == pending[r.token].name
    ensures CallbacksOk(pending - {r.token}, nextToken, issued, ran + [r])
  {
    forall t ensures HasRun(ran + [r], t) <==> HasRun(ran, t) || t == r.token {
      if HasRun(ran, t) {
        var i :| 0 <= i < |ran| && ran[i].token == t;
        assert (ran + [r])[i].token == t;
      }
      if t == r.token { assert (ran + [r])[|ran|].token == t; }
    }
  }

  /** The state in which a delivered event's callback starts: its entry is gone, its run recorded. */
  function Begun(a: App, h: Host, ev: Event): App
    requires ev.userData in a.io.pending
  {
    a.(host := h, io := a.io.(pending := a.io.pending - {ev.userData}),
       ran := a.ran + [Ran(ev.userData, a.io.pending[ev.userData].name, ev.result, ev.flags)])
  }

  lemma BegunInner(a: App, h: Host, ev: Event)
    requires Inner(a) && a.host.ledger.queue != [] && ev == a.host.ledger.queue[0]
    requires h.ledger == Shift(a.host.ledger, true)
    ensures ev.userData in a.io.pending && Inner(Begun(a, h, ev))
  {
    var l := a.host.ledger;
    assert l.subs[ev.serial] == ev.userData && l.place[ev.serial] == Queued;
    ShiftInv(l, true);
    TokensRemove(l, h.ledger, a.io.pending, a.io.nextToken, ev.serial);
    CallbacksRun(a.io.pending, a.io.nextToken, a.issued, a.ran,
                 Ran(ev.userData, a.io.pending[ev.userData].name, ev.result, ev.flags));
  }

  /** A callback that has begun submits what it submits, returns, and is counted. */
  lemma BegunEnds(b: App, submits: seq<(Op, Callback)>)
    requires Inner(b) && b.taken + b.io.completions + 1 == |b.ran|
    ensures var c := SubmitEach(b, submits); Core(c.(io := c.io.(completions := c.io.completions + 1)))
  {
    SubmitEachInner(b, submits);
  }

  lemma PumpGot(a: App, h: Host, ev: Event)
    requires Core(a) && a.host.ledger.queue != [] && ev == a.host.ledger.queue[0]
    requires h.ledger == Shift(a.host.ledger, true)
    ensures ev.typ == EVENT_IO_COMPLETION && Core(AfterDispatch(a.(host := h), ev))
  {
    BegunInner(a, h, ev);
    BegunEnds(Begun(a, h, ev), a.io.pending[ev.userData].submits);
  }

  /** An event lost to a bad pointer runs no callback. */
  lemma PumpTrapped(a: App, h: Host)
    requires Core(a) && a.host.ledger.queue != [] && h.ledger == Shift(a.host.ledger, false)
    ensures Core(a.(host := h))
  {
    ShiftInv(a.host.ledger, false);
    TokensLater(a.host.ledger, h.ledger, a.io.pending, a.io.nextToken);
  }

  lemma PumpCore(a: App, eventPtr: nat)
    requires Core(a)
    ensures Core(Pump(a, eventPtr))
  {
    var (h, r) := PollOp(a.host, eventPtr);
    if r.Got? {
      PumpGot(a, h, r.ev);
    } else if r.PollTrapped? {
      PumpTrapped(a, h);
    }
  }

  lemma EngineStepKeeps(h: Host, step: Step)
    requires Linked(h.ledger) && !step.Submit? && !step.Poll?
    ensures Next(h, step).ledger.subs == h.ledger.subs && Next(h, step).ledger.delivered == h.ledger.delivered
  {
  }

  lemma EngineStepCore(a: App, step: Step)
    requires Core(a) && !step.Submit? && !step.Poll?
    ensures Core(a.(host := Next(a.host, step)))
  {
    NextInv(a.host, step);
    EngineStepKeeps(a.host, step);
    TokensLater(a.host.ledger, Next(a.host, step).ledger, a.io.pending, a.io.nextToken);
  }

  lemma AppNextCore(a: App, s: AppStep)
    requires Core(a) && Allowed(s)
    ensures Core(AppNext(a, s))
  {
    match s
    case AppSubmit(op, cb) => SubmitInner(a, op, cb);
    case AppPump(eventPtr) => PumpCore(a, eventPtr);
    case AppTake =>
    case Engine(step) => EngineStepCore(a, step);
  }

  lemma {:induction false} AppRunCore(a: App, steps: seq<AppStep>)
    requires Core(a) && forall s :: s in steps ==> Allowed(s)
    ensures Core(AppRun(a, steps))
    decreases steps
  {
    if |steps| > 0 {
      AppNextCore(a, steps[0]);
      AppRunCore(AppNext(a, steps[0]), steps[1..]);
    }
  }

  // ---- main result ----------------------------------------------------------

  /** End to end, over every run: the callback invocations are exactly the delivered completions, in
      delivery order and with their results; no token runs twice; each run is of the callback
      submitted under that token; and the counts taken plus the current count equal the runs. */
  lemma EachCallbackRunsOnce(a: App, steps: seq<AppStep>)
    requires FreshApp(a) && forall s :: s in steps ==> Allowed(s)
    ensures Core(a)
    ensures var b := AppRun(a, steps);
      && RanOk(b.ran, b.host.ledger.delivered)
      && (forall i, j :: 0 <= i < j < |b.ran| ==> b.ran[i].token != b.ran[j].token)
      && (forall i :: 0 <= i < |b.ran| ==>
            1 <= b.ran[i].token <= |b.issued| && b.ran[i].name == b.issued[b.ran[i].token - 1].1.name)
      && (forall t :: 1 <= t <= |b.issued| ==> (t in b.io.pending <==> !HasRun(b.ran, t)))
      && b.taken + b.io.completions == |b.ran|
  {
    FreshCore(a);
    AppRunCore(a, steps);
    var b := AppRun(a, steps);
    RanOnce(b.host.ledger, b.io.pending, b.io.nextToken, b.ran);
  }

  lemma RanOnce(l: Ledger, pending: map<nat, Callback>, nextToken: nat, ran: seq<Ran>)
    requires TokensOk(l, pending, nextToken) && EventsOk(l, l.delivered, Delivered) && RanOk(ran, l.delivered)
    ensures forall i, j :: 0 <= i < j < |ran| ==> ran[i].token != ran[j].token
  {
  }

  // ---- every submission reaches the engine, and every callback that is due runs ------------------

  lemma {:induction false} TokensOfMembers(issued: seq<(Op, Callback)>, t: nat)
    ensures t in TokensOf(issued) <==> 1 <= t <= |issued| && IoCompletions.Tracked(issued[t - 1].0)
  {
    if |issued| > 0 { TokensOfMembers(issued[..|issued| - 1], t); }
  }

  /** Submission n of the engine is that of token t. */
  predicate IsOf(l: Ledger, n: nat, t: nat) { n < |l.subs| && n < |l.place| && l.subs[n] == t }

  /** The token has one submission if its op gets a completion, none otherwise, and its callback has run
      exactly when that submission is delivered. */
  ghost predicate Reaches(b: App, t: nat) {
    && (1 <= t <= |b.issued| && IoCompletions.Tracked(b.issued[t - 1].0) <==> exists n :: IsOf(b.host.ledger, n, t))
    && forall m: nat, n: nat :: IsOf(b.host.ledger, m, t) && IsOf(b.host.ledger, n, t) ==>
         m == n && (b.host.ledger.place[n] == Delivered <==> HasRun(b.ran, t))
  }

  lemma CoreReaches(b: App, t: nat)
    requires Core(b)
    ensures Reaches(b, t)
  {
    TokensOfMembers(b.issued, t);
    if t in b.host.ledger.subs {
      var n: nat :| n < |b.host.ledger.subs| && b.host.ledger.subs[n] == t;
      assert IsOf(b.host.ledger, n, t);
      DeliveredExactlyWhenRun(b, n);
    }
  }

  /** On every run the engine's submissions are the tokens of the ops given to Submit, LOG excepted, in the
      order of the calls, re-entrant ones included: each has exactly one, and its callback has run exactly
      when that one is delivered. */
  lemma EverySubmissionReachesTheEngine(a: App, steps: seq<AppStep>, t: nat)
    requires FreshApp(a) && forall s :: s in steps ==> Allowed(s)
    ensures Core(a) && Reaches(AppRun(a, steps), t)
    ensures AppRun(a, steps).host.ledger.subs == TokensOf(AppRun(a, steps).issued)
  {
    FreshCore(a);
    AppRunCore(a, steps);
    CoreReaches(AppRun(a, steps), t);
  }

  lemma DeliveredExactlyWhenRun(b: App, n: nat)
    requires Core(b) && n < |b.host.ledger.subs|
    ensures b.host.ledger.place[n] == Delivered <==> HasRun(b.ran, b.host.ledger.subs[n])
  {
    var l := b.host.ledger;
    if l.place[n] == Delivered {
      assert Holds(l.delivered, n);
      var i :| 0 <= i < |l.delivered| && l.delivered[i].serial == n;
      assert b.ran[i].token == l.subs[n];
    }
    if HasRun(b.ran, l.subs[n]) {
      var i :| 0 <= i < |b.ran| && b.ran[i].token == l.subs[n];
      assert l.subs[l.delivered[i].serial] == l.subs[n];
    }
  }

  /** A submission through Io is one submission of that very op to the engine, under the next token. */
  lemma SubmitsTheOp(a: App, op: Op, cb: Callback)
    requires Core(a)
    ensures AfterSubmit(a, op, cb).host == Next(a.host, IoEngine.Submit([op.(userData := |a.issued| + 1)]))
    ensures AfterSubmit(a, op, cb).issued == a.issued + [(op, cb)]
  {
  }

  lemma {:induction false} SubmitEachIssues(a: App, s: seq<(Op, Callback)>)
    ensures SubmitEach(a, s).issued == a.issued + s
    decreases s
  {
    if |s| > 0 { SubmitEachIssues(AfterSubmit(a, s[0].0, s[0].1), s[1..]); }
  }

  /** What a step submits: the program's own call, or all the calls of the callback that the step runs. */
  ghost function Submitted(a: App, s: AppStep): seq<(Op, Callback)>
    requires Core(a)
  {
    match s
    case AppSubmit(op, cb) => [(op, cb)]
    case AppPump(eventPtr) =>
      if a.host.ledger.queue != [] && eventPtr + 24 <= |a.host.mem| then CallsOf(a, a.host.ledger.queue[0].userData)
      else []
    case _ => []
  }

  function CallsOf(a: App, token: nat): seq<(Op, Callback)> {
    if 1 <= token <= |a.issued| then a.issued[token - 1].1.submits else []
  }

  lemma PumpSubmits(a: App, eventPtr: nat)
    requires Core(a)
    ensures Pump(a, eventPtr).issued == a.issued + Submitted(a, AppPump(eventPtr))
  {
    var (h, r) := PollOp(a.host, eventPtr);
    if r.Got? {
      BegunInner(a, h, r.ev);
      SubmitEachIssues(Begun(a, h, r.ev), a.io.pending[r.ev.userData].submits);
    }
  }

  /** Every submission is one of these, and every one of these is a submission. */
  lemma StepSubmits(a: App, s: AppStep)
    requires Core(a) && Allowed(s)
    ensures AppNext(a, s).issued == a.issued + Submitted(a, s)
  {
    match s
    case AppSubmit(op, cb) =>
    case AppPump(eventPtr) => PumpSubmits(a, eventPtr);
    case AppTake =>
    case Engine(step) =>
  }

  ghost function SubmittedBy(a: App, steps: seq<AppStep>): seq<(Op, Callback)>
    requires Core(a) && forall s :: s in steps ==> Allowed(s)
    decreases steps
  {
    if |steps| == 0 then []
    else
      AppNextCore(a, steps[0]);
      Submitted(a, steps[0]) + SubmittedBy(AppNext(a, steps[0]), steps[1..])
  }

  lemma FirstStep(a: App, steps: seq<AppStep>) returns (b: App, more: seq<(Op, Callback)>)
    requires Core(a) && |steps| > 0 && forall s :: s in steps ==> Allowed(s)
    ensures Core(b) && AppRun(a, steps) == AppRun(b, steps[1..])
    ensures IoCompletions.Adds(a.issued, more, b.issued)
    ensures SubmittedBy(a, steps) == more + SubmittedBy(b, steps[1..])
  {
    AppNextCore(a, steps[0]);
    StepSubmits(a, steps[0]);
    b, more := AppNext(a, steps[0]), Submitted(a, steps[0]);
  }

  /** On every run the submissions are those of the program and of the callbacks that ran, in that order. */
  lemma {:induction false} RunSubmits(a: App, steps: seq<AppStep>)
    requires Core(a) && forall s :: s in steps ==> Allowed(s)
    ensures IoCompletions.Adds(a.issued, SubmittedBy(a, steps), AppRun(a, steps).issued)
    decreases steps
  {
    if |steps| > 0 {
      var b, more := FirstStep(a, steps);
      RunSubmits(b, steps[1..]);
      IoCompletions.AddsMore(a.issued, more, b.issued, SubmittedBy(b, steps[1..]), AppRun(b, steps[1..]).issued);
    }
  }

  /** A pump with an event waiting and a pointer in memory runs the callback of the oldest event, with that
      event's result and flags. */
  lemma PumpRunsTheOldest(a: App, eventPtr: nat)
    requires Core(a) && a.host.ledger.queue != [] && eventPtr + 24 <= |a.host.mem|
    ensures var ev, b := a.host.ledger.queue[0], Pump(a, eventPtr);
      && 1 <= ev.userData <= |a.issued|
      && b.ran == a.ran + [Ran(ev.userData, a.issued[ev.userData - 1].1.name, ev.result, ev.flags)]
  {
    var (h, r) := PollOp(a.host, eventPtr);
    BegunInner(a, h, r.ev);
    SubmitEachInner(Begun(a, h, r.ev), a.io.pending[r.ev.userData].submits);
  }

  /** Taking the count returns the runs since the last time and starts again from none. */
  lemma TakeCountsSinceTheLast(a: App)
    requires Core(a)
    ensures var b := AfterTake(a);
      && b.taken - a.taken == |a.ran| - a.taken && b.io.completions == 0 && AfterTake(b).taken == b.taken
      && b.ran == a.ran && b.issued == a.issued && b.host == a.host && b.io.pending == a.io.pending
  {
  }

  /** End to end for the simplest op: submitted on an idle engine, a NOP's callback runs at the next pump. */
  lemma NopRunsItsCallback(a: App, op: Op, cb: Callback, eventPtr: nat)
    requires Core(a) && a.host.ledger.queue == [] && eventPtr + 24 <= |a.host.mem|
    requires op.opcode == OP_NOP && op.resultPtr == 0
    ensures Core(AfterSubmit(a, op, cb))
    ensures Pump(AfterSubmit(a, op, cb), eventPtr).ran == a.ran + [Ran(|a.issued| + 1, cb.name, WAPI_OK, 0)]
  {
    var b := AfterSubmit(a, op, cb);
    SubmitInner(a, op, cb);
    NopIsAnswered(a.host, op.(userData := a.io.nextToken));
    PumpRunsTheOldest(b, eventPtr);
  }

  lemma NopIsAnswered(h: Host, op: Op)
    requires op.opcode == OP_NOP && op.resultPtr == 0
    ensures SubmitAll(h, [op]).0.ledger.queue
         == h.ledger.queue + [Event(EVENT_IO_COMPLETION, op.userData, WAPI_OK, 0, |h.ledger.subs|)]
    ensures SubmitAll(h, [op]).0.mem == h.mem
  {
    assert [op][1..] == [];
  }

  // ---- an engine that is used beside Io -------------------------------------------------

  /** What a program can do that also holds the vtable: besides its calls of Io, hand DispatchCompletion any
      event, of whatever origin, and bring the engine into any state. */
  datatype AnyStep =
    | AnySubmit(op: Op, cb: Callback)
    | AnyDispatch(ev: Event)
    | AnyTake
    | AnyEngine(host: Host)

  function AnyNext(a: App, s: AnyStep): App {
    match s
    case AnySubmit(op, cb) => AfterSubmit(a, op, cb)
    case AnyDispatch(ev) => AfterDispatch(a, ev)
    case AnyTake => AfterTake(a)
    case AnyEngine(host) => a.(host := host)
  }

  function AnyRun(a: App, steps: seq<AnyStep>): App
    decreases steps
  {
    if |steps| == 0 then a else AnyRun(AnyNext(a, steps[0]), steps[1..])
  }

  ghost predicate RunOnce(ran: seq<Ran>) { forall i, j :: 0 <= i < j < |ran| ==> ran[i].token != ran[j].token }

  ghost predicate BooksOk(a: App) {
    CallbacksOk(a.io.pending, a.io.nextToken, a.issued, a.ran) && RunOnce(a.ran)
  }

  lemma AnySubmitBooks(a: App, op: Op, cb: Callback)
    requires BooksOk(a)
    ensures var b := AfterSubmit(a, op, cb);
      BooksOk(b) && b.ran == a.ran && b.taken == a.taken && b.io.completions == a.io.completions
  {
    CallbacksAdd(a.io.pending, a.io.nextToken, a.issued, a.ran, op, cb);
  }

  lemma {:induction false} SubmitEachBooks(a: App, s: seq<(Op, Callback)>)
    requires BooksOk(a)
    ensures var b := SubmitEach(a, s);
      BooksOk(b) && b.ran == a.ran && b.taken == a.taken && b.io.completions == a.io.completions
    decreases s
  {
    if |s| > 0 {
      AnySubmitBooks(a, s[0].0, s[0].1);
      SubmitEachBooks(AfterSubmit(a, s[0].0, s[0].1), s[1..]);
    }
  }

  /** The entry is gone before the callback runs, so no event finds it again. */
  lemma AnyDispatchBooks(a: App, ev: Event)
    requires BooksOk(a) && a.taken + a.io.completions == |a.ran|
    ensures var b := AfterDispatch(a, ev); BooksOk(b) && b.taken + b.io.completions == |b.ran|
  {
    if ev.userData in a.io.pending {
      var cb := a.io.pending[ev.userData];
      var r := Ran(ev.userData, cb.name, ev.result, ev.flags);
      CallbacksRun(a.io.pending, a.io.nextToken, a.issued, a.ran, r);
      assert !HasRun(a.ran, r.token);
      SubmitEachBooks(Begun(a, a.host, ev), cb.submits);
    }
  }

  lemma {:induction false} AnyRunBooks(a: App, steps: seq<AnyStep>)
    requires BooksOk(a) && a.taken + a.io.completions == |a.ran|
    ensures var b := AnyRun(a, steps); BooksOk(b) && b.taken + b.io.completions == |b.ran|
    decreases steps
  {
    if |steps| > 0 {
      match steps[0] {
        case AnySubmit(op, cb) => AnySubmitBooks(a, op, cb);
        case AnyDispatch(ev) => AnyDispatchBooks(a, ev);
        case AnyTake =>
        case AnyEngine(host) =>
      }
      AnyRunBooks(AnyNext(a, steps[0]), steps[1..]);
    }
  }

  /** Whatever is done to the engine and whatever events DispatchCompletion is given: no token's callback runs
      twice, each run is of the callback submitted under that token, a callback waits exactly until it has
      run, and the counts taken plus the current count equal the runs. */
  lemma AnyUseRunsAtMostOnce(a: App, steps: seq<AnyStep>)
    requires FreshApp(a)
    ensures var b := AnyRun(a, steps);
      && (forall i, j :: 0 <= i < j < |b.ran| ==> b.ran[i].token != b.ran[j].token)
      && (forall i :: 0 <= i < |b.ran| ==>
            1 <= b.ran[i].token <= |b.issued| && b.ran[i].name == b.issued[b.ran[i].token - 1].1.name)
      && (forall t :: 1 <= t <= |b.issued| ==> (t in b.io.pending <==> !HasRun(b.ran, t)))
      && b.taken + b.io.completions == |b.ran|
  {
    NoCallbacks(a.io.pending, a.issued, a.ran);
    AnyRunBooks(a, steps);
  }

  /** Class Io's static state, driving one engine through its vtable. */
  class Io {
    var host: SwHost.SwHost
    var pending: map<nat, Callback>
    var nextToken: nat
    var completionsThisFrame: nat
    ghost var issued: seq<(Op, Callback)>
    ghost var ran: seq<Ran>
    ghost var taken: nat

    ghost function Snapshot(): App
      reads this, host
    {
      App(host.Snapshot(), IoState(pending, nextToken, completionsThisFrame), issued, ran, taken)
    }

    constructor Initialize(host: SwHost.SwHost)
      requires host.Valid() && IoEngine.Fresh(host.Snapshot())
      ensures this.host == host && FreshApp(Snapshot())
    {
      this.host := host;
      pending, nextToken, completionsThisFrame := map[], 1, 0;
      issued, ran, taken := [], [], 0;
    }

    method Submit(op: Op, onComplete: Callback)
      requires host.Valid()
      modifies this, host
      ensures host == old(host) && host.Valid()
      ensures Snapshot() == AfterSubmit(old(Snapshot()), op, onComplete)
    {
      var token := nextToken;
      nextToken := nextToken + 1;
      pending := pending[token := onComplete];
      issued := issued + [(op, onComplete)];
      var threw := host.Submit([op.(userData := token)]);
    }

    method DispatchCompletion(ev: Event)
      requires host.Valid()
      modifies this, host
      ensures host == old(host) && host.Valid()
      ensures Snapshot() == AfterDispatch(old(Snapshot()), ev)
    {
      if ev.userData in pending {
        var cb := pending[ev.userData];
        pending := pending - {ev.userData};
        ran := ran + [Ran(ev.userData, cb.name, ev.result, ev.flags)];
        ghost var begun := Snapshot();
        for i := 0 to |cb.submits|
          invariant host == old(host) && host.Valid()
          invariant SubmitEach(begun, cb.submits) == SubmitEach(Snapshot(), cb.submits[i..])
        {
          Submit(cb.submits[i].0, cb.submits[i].1);
        }
        completionsThisFrame := completionsThisFrame + 1;
      }
    }

    method TakeCompletionCount() returns (n: nat)
      modifies this
      ensures n == old(completionsThisFrame) && host == old(host)
      ensures Snapshot() == AfterTake(old(Snapshot()))
    {
      n := completionsThisFrame;
      completionsThisFrame := 0;
      taken := taken + n;
    }
  }
}
