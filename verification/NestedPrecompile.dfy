/** A small transaction for which the limit of the execution tracer runs out: a precompile reached
    through two frames. */
module NestedPrecompile {
  import opened Text
  import opened ExecutionTracer
  import opened GasForwarding

  const PLENTY := 100000

  /** A step that spends `own` of plenty of gas. */
  function Spending(opcode: string, own: nat, rest: Body): Body {
    Op(opcode, PLENTY, own, own, rest)
  }

  function Stop(): Body {
    Spending("STOP", 0, Done)
  }

  /** A frame that spends `own` gas, makes one call, and stops. */
  function Calling(own: nat, f: Frame): Frame {
    Frame(Spending("CALL", own, Call(f, Stop())), own + f.used, false, "")
  }

  function Precompile(p: nat): Frame {
    Frame(Done, p, false, "")
  }

  function Nested(own: nat, p: nat): Frame {
    Calling(own, Calling(own, Precompile(p)))
  }

  /** A transaction that makes one call once its execution phase has begun. */
  function Executing(f: Frame): Body {
    Spending("NUMBER", 2, Spending("NUMBER", 2, Spending("NUMBER", 2, Spending("CALL", 100, Call(f, Stop())))))
  }

  /** A last step that spends nothing. */
  predicate Stops(b: Body) {
    b.Op? && b.own == 0 && b.rest.Done? && b.opcode != "NUMBER"
  }

  lemma StopDoes(b: Body, t: Tally, gas: nat)
    requires Stops(b)
    ensures Resumes(b) && RecordedBody(b) && OwnGas(b) == 0 && CalleesUsed(b) == 0
    ensures TallyBody(b, t) == t && ExecuteBody(b, gas) == Some(gas)
    ensures ExecutionFrames(b, EXECUTION_MARKER) == [] && ExecutionGas(b, EXECUTION_MARKER) == NoGas()
  {
    hide NoGas;
  }

  lemma StopStops()
    ensures Stops(Stop())
  {
  }

  /** A body that spends `b.own`, calls, and stops. */
  predicate CallsOnce(b: Body) {
    b.Op? && b.rest.Call? && Stops(b.rest.rest)
  }

  lemma CallsOnceTally(b: Body, t: Tally)
    requires CallsOnce(b)
    ensures TallyBody(b, t) == AfterCall(t, b.rest.callee)
  {
    hide NoGas, FrameGas, Settle, Plus, Stops;
    StopDoes(b.rest.rest, AfterCall(t, b.rest.callee), 0);
    assert TallyBody(b.rest, t) == TallyBody(b.rest.rest, AfterCall(t, b.rest.callee));
  }

  lemma CallsOnceRecorded(b: Body)
    requires CallsOnce(b) && EvmFrame(b.rest.callee) && Recorded(b.rest.callee)
    ensures Resumes(b) && RecordedBody(b)
    ensures OwnGas(b) == b.own && CalleesUsed(b) == b.rest.callee.used
  {
    StopDoes(b.rest.rest, Tally(NoGas(), NoGas()), 0);
    assert RecordedBody(b.rest) && Resumes(b.rest);
    assert OwnGas(b.rest) == 0 && CalleesUsed(b.rest) == b.rest.callee.used;
  }

  /** What remains of an amount after spending `own`, less the 64th kept back. */
  function Passed(gas: nat, own: nat): nat
    requires gas >= own
  {
    (gas - own) - (gas - own) / 64
  }

  lemma CallsOnceRuns(b: Body, gas: nat)
    requires CallsOnce(b)
    ensures ExecuteBody(b, gas).Some? <==> gas >= b.own && Execute(b.rest.callee, Passed(gas, b.own)).Some?
  {
    hide Execute, Stops;
    if gas >= b.own {
      var left, given := gas - b.own, Passed(gas, b.own);
      assert ExecuteBody(b, gas) == ExecuteBody(b.rest, left);
      var back := Execute(b.rest.callee, given);
      if back.Some? { StopDoes(b.rest.rest, Tally(NoGas(), NoGas()), left - given + back.value); }
    }
  }

  /** A frame with such a body that has spent what it records. */
  predicate IsCalling(f: Frame, own: nat, callee: Frame) {
    CallsOnce(f.body) && f.body.own == own && f.body.rest.callee == callee && f.used == own + callee.used
  }

  lemma CallingIs(own: nat, f: Frame)
    ensures IsCalling(Calling(own, f), own, f)
  {
    StopStops();
    hide Stop, Stops;
  }

  lemma CallingGas(f: Frame, own: nat, callee: Frame)
    requires IsCalling(f, own, callee)
    ensures FrameGas(f) == (var t := AfterCall(Tally(NoGas(), NoGas()), callee); Plus(t.own, Settle(f.used, t.nested)))
  {
    hide TallyBody, AfterCall, Settle, Plus, NoGas;
    CallsOnceTally(f.body, Tally(NoGas(), NoGas()));
  }

  lemma CallingRecorded(f: Frame, own: nat, callee: Frame)
    requires IsCalling(f, own, callee) && EvmFrame(callee) && Recorded(callee)
    ensures EvmFrame(f) && Recorded(f)
  {
    CallsOnceRecorded(f.body);
    hide OwnGas, CalleesUsed, RecordedBody, Resumes;
  }

  lemma CallingRuns(f: Frame, own: nat, callee: Frame, gas: nat)
    requires IsCalling(f, own, callee)
    ensures Execute(f, gas).Some? <==> gas >= own && Execute(callee, Passed(gas, own)).Some?
  {
    hide ExecuteBody, Passed;
    assert Execute(f, gas) == ExecuteBody(f.body, gas);
    hide Execute;
    CallsOnceRuns(f.body, gas);
  }

  // ---------------------------------------------------------------- two frames and a precompile

  /** `f` calls `g`, which calls a precompile that costs `p`, each after spending `own`. */
  predicate IsNested(f: Frame, g: Frame, own: nat, p: nat) {
    IsCalling(f, own, g) && IsCalling(g, own, Precompile(p))
  }

  /** The price is added twice, enlarged once, and taken off once, while the run passes gas on twice. */
  lemma NestedGas(f: Frame, g: Frame, own: nat, p: nat)
    requires IsNested(f, g, own, p)
    ensures FrameGas(f).required == WithReserve(2 * p + own) + own - p
  {
    CallingGas(g, own, Precompile(p));
    CallingGas(f, own, g);
    hide FrameGas, WithReserve, CallsOnce;
    assert AfterCall(Tally(NoGas(), NoGas()), Precompile(p)) == Tally(GasItem(p, p + WithReserve(0)), NoGas());
    ReserveOfNothing();
  }

  lemma ReserveOfNothing()
    ensures WithReserve(0) == 0
  {
  }

  lemma NestedRuns(f: Frame, g: Frame, own: nat, p: nat, gas: nat)
    requires IsNested(f, g, own, p)
    ensures Execute(f, gas).Some?
            <==> gas >= own && Passed(gas, own) >= own && Passed(Passed(gas, own), own) >= p
  {
    hide CallsOnce, Passed;
    CallingRuns(f, own, g, gas);
    if gas >= own {
      CallingRuns(g, own, Precompile(p), Passed(gas, own));
    }
  }

  lemma NestedRecorded(f: Frame, g: Frame, own: nat, p: nat)
    requires IsNested(f, g, own, p)
    ensures EvmFrame(f) && f.body.Op? && Recorded(f)
  {
    CallingRecorded(g, own, Precompile(p));
    hide Recorded, EvmFrame;
    CallingRecorded(f, own, g);
  }

  /** A transaction that starts its execution phase and then makes one call. */
  predicate IsExecuting(tx: Body, f: Frame) {
    && tx.Op? && tx.opcode == "NUMBER" && tx.rest.Op? && tx.rest.opcode == "NUMBER"
    && tx.rest.rest.Op? && tx.rest.rest.opcode == "NUMBER"
    && CallsOnce(tx.rest.rest.rest) && tx.rest.rest.rest.opcode != "NUMBER" && tx.rest.rest.rest.rest.callee == f
  }

  lemma ExecutingIs(f: Frame)
    ensures IsExecuting(Executing(f), f)
  {
    StopStops();
    hide Stop, Stops;
  }

  lemma ExecutingReports(tx: Body, f: Frame)
    requires IsExecuting(tx, f) && EvmFrame(f) && f.body.Op?
    ensures var r := Run(INITIAL, BodyEvents(tx, 1));
            && Resumes(tx) && ExecutionFrames(tx, 0) == [f]
            && r.Some? && r.value.executionGasLimit == FrameGas(f).required
  {
    var four := tx.rest.rest.rest;
    OneCallFrames(four, f);
    hide CallsOnce, FrameGas, Run, BodyEvents;
    assert ExecutionFrames(tx.rest.rest, 2) == [f] && ExecutionGas(tx.rest.rest, 2) == FrameGas(f);
    assert ExecutionFrames(tx.rest, 1) == [f] && ExecutionGas(tx.rest, 1) == FrameGas(f);
    assert Resumes(tx.rest.rest) && Resumes(tx.rest);
    LimitIsTotalGas(tx);
  }

  lemma OneCallFrames(b: Body, f: Frame)
    requires CallsOnce(b) && b.opcode != "NUMBER" && b.rest.callee == f && EvmFrame(f) && f.body.Op?
    ensures Resumes(b) && ExecutionFrames(b, EXECUTION_MARKER) == [f]
    ensures ExecutionGas(b, EXECUTION_MARKER) == FrameGas(f)
  {
    var call := b.rest;
    StopDoes(call.rest, Tally(NoGas(), NoGas()), 0);
    PlusNothing(FrameGas(f));
    hide FrameGas, EvmFrame, NoGas, Plus;
    assert Resumes(call);
    assert ExecutionFrames(call, EXECUTION_MARKER) == [f] + ExecutionFrames(call.rest, EXECUTION_MARKER);
    assert ExecutionGas(call, EXECUTION_MARKER)
           == Plus(FrameGas(f), ExecutionGas(call.rest, EXECUTION_MARKER));
  }

  /** The limit reported for the nested precompile, and which amounts get through. */
  lemma NestedPrecompileLimit(own: nat, p: nat, gas: nat)
    ensures var f := Nested(own, p); var r := Run(INITIAL, BodyEvents(Executing(f), 1));
            && Resumes(Executing(f)) && ExecutionFrames(Executing(f), 0) == [f] && Recorded(f)
            && r.Some? && r.value.executionGasLimit == WithReserve(2 * p + own) + own - p
            && (Execute(f, gas).Some?
                <==> gas >= own && Passed(gas, own) >= own && Passed(Passed(gas, own), own) >= p)
  {
    var g := Calling(own, Precompile(p));
    var f := Nested(own, p);
    CallingIs(own, Precompile(p));
    CallingIs(own, g);
    hide *;
    NestedIs(own, p);
    NestedRecorded(f, g, own, p);
    ExecutingIs(f);
    ExecutingReports(Executing(f), f);
    NestedGas(f, g, own, p);
    NestedRuns(f, g, own, p, gas);
  }

  lemma NestedIs(own: nat, p: nat)
    ensures IsNested(Nested(own, p), Calling(own, Precompile(p)), own, p)
  {
    CallingIs(own, Precompile(p));
    CallingIs(own, Calling(own, Precompile(p)));
    hide Calling, IsCalling;
  }

  /** Two frames that spend 121 gas before they call, and a precompile that costs 4223: the limit
      reported is 4601, with which the precompile is passed 4222. */
  lemma PrecompileLimitTooSmall()
    ensures var f := Nested(121, 4223); var r := Run(INITIAL, BodyEvents(Executing(f), 1));
            && Resumes(Executing(f)) && Recorded(f) && ExecutionFrames(Executing(f), 0) == [f]
            && r.Some? && r.value.executionGasLimit == 4601
            && Execute(f, 4601) == None && Execute(f, 4604).Some?
  {
    hide Nested, Executing, Run, BodyEvents, Execute, Recorded, Resumes, ExecutionFrames;
    NestedPrecompileLimit(121, 4223, 4601);
    NestedPrecompileLimit(121, 4223, 4604);
  }

  /** Without a reserve the recorded gas is not enough as soon as a 64th of the price is a unit. */
  lemma UsedAloneTooSmall(own: nat, p: nat)
    ensures var f := Calling(own, Precompile(p));
            Recorded(f) && f.used == own + p && (Execute(f, f.used) == None <==> p >= 64)
  {
    var f := Calling(own, Precompile(p));
    CallingIs(own, Precompile(p));
    CallingRecorded(f, own, Precompile(p));
    hide Calling, CallsOnce;
    CallingRuns(f, own, Precompile(p), own + p);
  }
}
