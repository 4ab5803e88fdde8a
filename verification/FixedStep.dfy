/** The fixed-timestep loop of wapi_frame: how elapsed time becomes simulation steps. */
module FixedStep {
  import opened Common

  /** 1000000000 / 60, in C's integer division. */
  const SIM_STEP_NS: nat := 16666666
  const SIM_MAX_STEPS: nat := 4

  /** The two globals; a last timestamp of 0 means that none has been seen. */
  datatype Clock = Clock(lastTs: nat, accumNs: nat)

  /** A call of wapi_frame; input polled at its start may restart the round. */
  datatype Frame = Frame(ts: nat, restart: bool)

  /** What a frame or a run of frames did: calls of sim_step, time credited and time thrown away. */
  datatype Account = Account(clock: Clock, steps: nat, elapsed: nat, dropped: nat)

  function Gap(c: Clock, ts: nat): nat { if c.lastTs != 0 && ts > c.lastTs then ts - c.lastTs else 0 }

  function Restarted(c: Clock, restart: bool): Clock { if restart then c.(accumNs := 0) else c }

  /** One frame in closed form: whole steps up to four, then the rest is kept unless it exceeds four steps. */
  function FrameAccount(c: Clock, f: Frame): Account {
    var due := Restarted(c, f.restart).accumNs + Gap(c, f.ts);
    var steps := Min(due / SIM_STEP_NS, SIM_MAX_STEPS);
    var left := due - steps * SIM_STEP_NS;
    var drop := left > SIM_STEP_NS * SIM_MAX_STEPS;
    Account(Clock(f.ts, if drop then 0 else left), steps, Gap(c, f.ts),
            c.accumNs - Restarted(c, f.restart).accumNs + if drop then left else 0)
  }

  function RunFrames(c: Clock, fs: seq<Frame>): Account
    decreases |fs|
  {
    if |fs| == 0 then Account(c, 0, 0, 0)
    else
      var r := RunFrames(c, fs[..|fs| - 1]);
      var a := FrameAccount(r.clock, fs[|fs| - 1]);
      Account(a.clock, r.steps + a.steps, r.elapsed + a.elapsed, r.dropped + a.dropped)
  }

  class GameClock {
    var simLastTs: nat
    var simAccumNs: nat
    ghost var simSteps: nat            // calls of sim_step

    ghost function Now(): Clock
      reads this
    {
      Clock(simLastTs, simAccumNs)
    }

    constructor ()
      ensures Now() == Clock(0, 0) && simSteps == 0
    {
      simLastTs, simAccumNs, simSteps := 0, 0, 0;
    }

    method WapiFrame(ts: nat, restart: bool) returns (steps: nat)
      modifies this
      ensures var a := FrameAccount(old(Now()), Frame(ts, restart));
        Now() == a.clock && steps == a.steps && simSteps == old(simSteps) + a.steps
    {
      if restart { simAccumNs := 0; }
      if simLastTs == 0 {
        simLastTs := ts;
      } else if ts > simLastTs {
        simAccumNs := simAccumNs + (ts - simLastTs);
        simLastTs := ts;
      } else {
        simLastTs := ts;
      }
      ghost var due := simAccumNs;
      steps := 0;
      while simAccumNs >= SIM_STEP_NS && steps < SIM_MAX_STEPS
        invariant simLastTs == ts && steps <= SIM_MAX_STEPS && simSteps == old(simSteps) + steps
        invariant due == steps * SIM_STEP_NS + simAccumNs
        decreases SIM_MAX_STEPS - steps
      {
        simSteps := simSteps + 1;
        simAccumNs := simAccumNs - SIM_STEP_NS;
        steps := steps + 1;
      }
      if simAccumNs > SIM_STEP_NS * SIM_MAX_STEPS { simAccumNs := 0; }
    }
  }

  /** No time is lost unaccounted: on every run, with gaps, clock jumps and restarts of any size, the
      time credited is the steps taken, what is still owed and what was thrown away. */
  lemma {:induction false} TimeIsConserved(c: Clock, fs: seq<Frame>)
    ensures var r := RunFrames(c, fs);
      c.accumNs + r.elapsed == r.steps * SIM_STEP_NS + r.clock.accumNs + r.dropped
    ensures |fs| > 0 ==> RunFrames(c, fs).clock.accumNs <= SIM_MAX_STEPS * SIM_STEP_NS
    ensures RunFrames(c, fs).steps <= SIM_MAX_STEPS * |fs|
    decreases |fs|
  {
    if |fs| > 0 { TimeIsConserved(c, fs[..|fs| - 1]); }
  }

  /** From less than a step owed, a frame keeps up (nothing thrown away, less than a step owed after it)
      exactly when it brings the debt to less than five steps; beyond eight it throws the rest away. */
  lemma KeepsUpExactly(c: Clock, f: Frame)
    requires c.accumNs < SIM_STEP_NS && !f.restart
    ensures var a := FrameAccount(c, f);
      (a.dropped == 0 && a.clock.accumNs < SIM_STEP_NS) <==>
        c.accumNs + Gap(c, f.ts) < (SIM_MAX_STEPS + 1) * SIM_STEP_NS
    ensures FrameAccount(c, f).dropped > 0 <==> c.accumNs + Gap(c, f.ts) > 2 * SIM_MAX_STEPS * SIM_STEP_NS
  {
  }

  /** Sixty steps make a second, but for the nanoseconds that the integer division drops. */
  lemma SixtyStepsASecond()
    ensures 60 * SIM_STEP_NS <= 1_000_000_000 < 60 * (SIM_STEP_NS + 1)
  {
  }

  /** A frame that restarts the round starts from no debt; the frame's own gap still counts. */
  lemma RestartForgetsTheDebt(c: Clock, ts: nat)
    ensures var a, b := FrameAccount(c, Frame(ts, true)), FrameAccount(c.(accumNs := 0), Frame(ts, false));
      a.clock == b.clock && a.steps == b.steps && a.elapsed == b.elapsed && a.dropped == b.dropped + c.accumNs
  {
  }

  /** The first timestamp of all, and one that goes back, credit no time; any other credits the time since. */
  lemma TimeCredited(c: Clock, f: Frame)
    ensures FrameAccount(c, f).clock.lastTs == f.ts
    ensures FrameAccount(c, f).elapsed == if c.lastTs == 0 || f.ts < c.lastTs then 0 else f.ts - c.lastTs
  {
  }

  // ---- the speed of the simulation, read off the timestamps alone ----------------------

  function EndTs(c: Clock, fs: seq<Frame>): nat { if |fs| == 0 then c.lastTs else fs[|fs| - 1].ts }

  /** The gap a frame at ts closes: none after a missing or a later timestamp. */
  function GapAfter(c: Clock, fs: seq<Frame>, ts: nat): nat { Gap(Clock(EndTs(c, fs), 0), ts) }

  /** The time that passes over the frames: the sum of the positive gaps. */
  function Passed(c: Clock, fs: seq<Frame>): nat {
    if |fs| == 0 then 0
    else Passed(c, fs[..|fs| - 1]) + GapAfter(c, fs[..|fs| - 1], fs[|fs| - 1].ts)
  }

  /** No positive gap exceeds four steps and no round is restarted; the clock may jump back at will. */
  predicate Unhurried(c: Clock, fs: seq<Frame>) {
    |fs| == 0
    || (var was, f := fs[..|fs| - 1], fs[|fs| - 1];
        Unhurried(c, was) && !f.restart && GapAfter(c, was, f.ts) <= SIM_MAX_STEPS * SIM_STEP_NS)
  }

  lemma {:induction false} ElapsedIsPassed(c: Clock, fs: seq<Frame>)
    ensures RunFrames(c, fs).clock.lastTs == EndTs(c, fs) && RunFrames(c, fs).elapsed == Passed(c, fs)
    decreases |fs|
  {
    if |fs| > 0 { ElapsedIsPassed(c, fs[..|fs| - 1]); }
  }

  lemma {:induction false} UnhurriedKeepsUp(c: Clock, fs: seq<Frame>)
    requires Unhurried(c, fs) && c.accumNs < SIM_STEP_NS
    ensures RunFrames(c, fs).dropped == 0 && RunFrames(c, fs).clock.accumNs < SIM_STEP_NS
    decreases |fs|
  {
    if |fs| > 0 {
      var was := fs[..|fs| - 1];
      UnhurriedKeepsUp(c, was);
      ElapsedIsPassed(c, was);
      KeepsUpExactly(RunFrames(c, was).clock, fs[|fs| - 1]);
    }
  }

  /** From any state that owes less than a step, the very first one included, and whatever backward jumps
      the clock makes: the steps taken are the whole steps in the time that passed, the remainder is owed,
      and nothing is thrown away. */
  lemma {:induction false} StepsFollowTime(c: Clock, fs: seq<Frame>)
    requires Unhurried(c, fs) && c.accumNs < SIM_STEP_NS
    ensures var r := RunFrames(c, fs);
      && r.steps == (c.accumNs + Passed(c, fs)) / SIM_STEP_NS
      && r.clock.accumNs == (c.accumNs + Passed(c, fs)) % SIM_STEP_NS
      && r.dropped == 0
  {
    UnhurriedKeepsUp(c, fs);
    ElapsedIsPassed(c, fs);
    TimeIsConserved(c, fs);
  }

  /** The simulation's speed does not depend on the frame rate: however the same time is cut into frames,
      the steps taken and the debt left over are the same. */
  lemma SpeedIndependentOfFrameRate(c: Clock, fs: seq<Frame>, gs: seq<Frame>)
    requires Unhurried(c, fs) && Unhurried(c, gs) && c.accumNs < SIM_STEP_NS && Passed(c, fs) == Passed(c, gs)
    ensures RunFrames(c, fs).steps == RunFrames(c, gs).steps
    ensures RunFrames(c, fs).clock.accumNs == RunFrames(c, gs).clock.accumNs
  {
    StepsFollowTime(c, fs);
    StepsFollowTime(c, gs);
  }

  /** Timestamps that never go back. */
  predicate Forward(c: Clock, fs: seq<Frame>) {
    |fs| == 0 || (Forward(c, fs[..|fs| - 1]) && EndTs(c, fs[..|fs| - 1]) <= fs[|fs| - 1].ts)
  }

  /** With a clock that runs forward, once started, the time that passed is the last timestamp less the first. */
  lemma {:induction false} ForwardPasses(c: Clock, fs: seq<Frame>)
    requires c.lastTs > 0 && Forward(c, fs)
    ensures c.lastTs <= EndTs(c, fs) && Passed(c, fs) == EndTs(c, fs) - c.lastTs
    decreases |fs|
  {
    if |fs| > 0 { ForwardPasses(c, fs[..|fs| - 1]); }
  }

  /** So two ways of cutting one stretch of a forward clock into frames end in the same state, after the
      stretch's whole number of steps. */
  lemma SameStretchSameSteps(c: Clock, fs: seq<Frame>, gs: seq<Frame>)
    requires Unhurried(c, fs) && Unhurried(c, gs) && c.accumNs < SIM_STEP_NS
    requires c.lastTs > 0 && Forward(c, fs) && Forward(c, gs) && EndTs(c, fs) == EndTs(c, gs)
    ensures RunFrames(c, fs).steps == RunFrames(c, gs).steps == (c.accumNs + (EndTs(c, fs) - c.lastTs)) / SIM_STEP_NS
    ensures RunFrames(c, fs).clock == RunFrames(c, gs).clock
  {
    ForwardPasses(c, fs);
    ForwardPasses(c, gs);
    StepsFollowTime(c, fs);
    SpeedIndependentOfFrameRate(c, fs, gs);
    ElapsedIsPassed(c, fs);
    ElapsedIsPassed(c, gs);
  }
}
