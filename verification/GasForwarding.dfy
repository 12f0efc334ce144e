/** Re-execution of a recorded call tree under EIP-150: a call receives all but one 64th of the
    gas that remains, and returns what it does not use. The theorems say that the gas limit the
    execution tracer reports is enough, and when it is not. */
module GasForwarding {
  import opened ExecutionTracer
  import opened Text

  /** The gas left after running `f` with `gas`; None when it, or a frame it calls, runs out. */
  function Execute(f: Frame, gas: nat): Option<nat> {
    if f.body.Done? then
      if gas < f.used then None else Some(gas - f.used)
    else
      ExecuteBody(f.body, gas)
  }

  function ExecuteBody(b: Body, gas: nat): Option<nat> {
    match b
    case Done => Some(gas)
    case Op(_, _, _, own, rest) =>
      if gas < own then None else ExecuteBody(rest, gas - own)
    case Call(f, rest) =>
      var given := gas - gas / 64;
      var left := Execute(f, given);
      if left.None? then None else ExecuteBody(rest, gas - given + left.value)
  }

  function OwnGas(b: Body): nat {
    match b
    case Done => 0
    case Op(_, _, _, own, rest) => own + OwnGas(rest)
    case Call(_, rest) => OwnGas(rest)
  }

  /** The gas recorded for a frame with code is what its opcodes and its callees used. */
  predicate Recorded(f: Frame) {
    f.body.Done? || (f.used == OwnGas(f.body) + CalleesUsed(f.body) && RecordedBody(f.body))
  }

  predicate RecordedBody(b: Body) {
    match b
    case Done => true
    case Op(_, _, _, _, rest) => RecordedBody(rest)
    case Call(f, rest) => Recorded(f) && RecordedBody(rest)
  }

  lemma ReserveMonotone(a: int, b: int)
    requires 0 <= b
    ensures WithReserve(a + b) >= WithReserve(a) + b
  {
  }

  lemma {:induction false} RequiredCoversUsed(f: Frame)
    requires Recorded(f)
    ensures Required(f) >= f.used
    decreases f
  {
    CalleesRequiredCoversUsed(f.body, f.body.Done?);
  }

  lemma {:induction false} CalleesRequiredCoversUsed(b: Body, empty: bool)
    requires if empty then b.Done? else RecordedBody(b)
    ensures CalleesRequired(b) >= CalleesUsed(b)
    decreases b
  {
    hide WithReserve;
    match b
    case Done =>
    case Op(_, _, _, _, rest) => CalleesRequiredCoversUsed(rest, false);
    case Call(f, rest) =>
      RequiredCoversUsed(f);
      CalleesRequiredCoversUsed(rest, false);
  }

  /** Passing on all but one 64th of at least ceil(64 r / 63) leaves at least r. */
  lemma ForwardedIsEnough(gas: nat, r: int)
    requires gas >= WithReserve(r)
    ensures gas - gas / 64 >= r
  {
  }

  /** Any gas from the requirement up runs the tree to the end, and costs exactly what was
      recorded. */
  lemma {:induction false} RequiredIsEnough(f: Frame, gas: nat)
    requires Recorded(f) && gas >= Required(f)
    ensures Execute(f, gas) == Some(gas - f.used)
    decreases f
  {
    if f.body.Op? || f.body.Call? {
      BodyIsEnough(f.body, gas);
    }
  }

  /** At every point of a body, the rest of its own gas plus the enlarged requirement of the
      calls still to come is enough; siblings in sequence share one reserve. */
  lemma {:induction false} BodyIsEnough(b: Body, gas: nat)
    requires RecordedBody(b) && gas >= OwnGas(b) + WithReserve(CalleesRequired(b))
    ensures OwnGas(b) + CalleesUsed(b) <= gas
    ensures ExecuteBody(b, gas) == Some(gas - OwnGas(b) - CalleesUsed(b))
    decreases b
  {
    CalleesRequiredCoversUsed(b, false);
    ReserveMonotone(0, CalleesRequired(b));
    match b
    case Done =>
    case Op(_, _, _, own, rest) => BodyIsEnough(rest, gas - own);
    case Call(f, rest) =>
      RequiredCoversUsed(f);
      CalleesRequiredCoversUsed(rest, false);
      ReserveMonotone(Required(f), CalleesRequired(rest));
      ReserveMonotone(CalleesRequired(rest), Required(f));
      ForwardedIsEnough(gas, Required(f));
      var given := gas - gas / 64;
      RequiredIsEnough(f, given);
      BodyIsEnough(rest, gas - f.used);
  }

  lemma {:induction false} PartOfTotal(frames: seq<Frame>, f: Frame)
    requires f in frames
    requires forall g | g in frames :: Recorded(g)
    ensures TotalRequired(frames) >= Required(f)
    decreases |frames|
  {
    hide Required, Recorded;
    RequiredCoversUsed(frames[0]);
    NonNegativeTotal(frames[1..]);
    if f != frames[0] {
      PartOfTotal(frames[1..], f);
    }
  }

  lemma {:induction false} NonNegativeTotal(frames: seq<Frame>)
    requires forall g | g in frames :: Recorded(g)
    ensures TotalRequired(frames) >= 0
    decreases |frames|
  {
    hide Required, Recorded;
    if frames != [] {
      RequiredCoversUsed(frames[0]);
      NonNegativeTotal(frames[1..]);
    }
  }

  // ---------------------------------------------------------------- calls without code

  /** No call without code in the tree costs anything. Sending value to an account costs its caller,
      not the call, so such calls are free; calls to precompiles are not. */
  predicate Free(f: Frame) {
    if f.body.Done? then f.used == 0 else Tame(f.body, false)
  }

  /** Every callee is free; `direct` calls without code may cost anything. */
  predicate Tame(b: Body, direct: bool) {
    match b
    case Done => true
    case Op(_, _, _, _, rest) => Tame(rest, direct)
    case Call(f, rest) => (Free(f) || (direct && f.body.Done?)) && Tame(rest, direct)
  }

  /** A call at depth 2 below which only that call itself makes priced calls without code. */
  predicate Fits(f: Frame) {
    if f.body.Done? then f.used == 0 else Tame(f.body, true)
  }

  lemma ReserveSubadditive(a: int, b: int)
    ensures WithReserve(a + b) <= WithReserve(a) + WithReserve(b)
  {
  }

  lemma ReserveUp(a: int, b: int)
    requires a <= b
    ensures WithReserve(a) <= WithReserve(b)
  {
  }

  lemma ReserveAtMostDouble(p: nat)
    ensures WithReserve(p) <= 2 * p
  {
  }

  lemma CodelessRequired(f: Frame)
    requires f.body.Done?
    ensures Required(f) == f.used
  {
  }

  lemma {:induction false} TameUsed(b: Body, t: Tally)
    requires Tame(b, false)
    ensures TallyBody(b, t).own.used == t.own.used
    decreases b
  {
    hide FrameGas, WithReserve;
    match b
    case Done =>
    case Op(_, _, _, _, rest) => TameUsed(rest, t);
    case Call(f, rest) =>
      TameUsed(rest, AfterCall(t, f));
  }

  lemma FreeUsed(f: Frame)
    requires Free(f) && !f.body.Done?
    ensures FrameGas(f).used == f.used
  {
    hide WithReserve, TallyBody;
    TameUsed(f.body, Tally(NoGas(), NoGas()));
  }

  /** What the item of a frame has beyond its gas used once the callees are settled. */
  function Settled(t: Tally): int {
    t.own.required - t.nested.used + WithReserve(t.nested.required)
  }

  /** Settling a call without code at its caller's depth counts its price once more and splits the
      reserve of the callees in two, which only adds up to more. */
  lemma CodelessCovers(t: Tally, p: nat, r: int)
    ensures var u := Tally(Plus(t.own, Settle(p, t.nested)), NoGas());
            u.own.required - u.nested.used + WithReserve(u.nested.required + r)
            >= t.own.required - t.nested.used - p + WithReserve(t.nested.required + (p + r))
  {
    hide WithReserve;
    ReserveAtMostDouble(p);
    ReserveSubadditive(p, r);
    ReserveSubadditive(t.nested.required, p + r);
  }

  /** Over any body whose only priced calls without code are its own, the streamed item is at least
      the recursive requirement. */
  lemma {:induction false} TallyCovers(b: Body, direct: bool, t: Tally)
    requires Tame(b, direct)
    ensures Settled(TallyBody(b, t))
            >= t.own.required - t.nested.used - CalleesUsed(b) + WithReserve(t.nested.required + CalleesRequired(b))
    decreases b
  {
    hide WithReserve, FrameGas, Required, Free, Plus, Settle, NoGas;
    match b
    case Done =>
    case Op(_, _, _, _, rest) => TallyCovers(rest, direct, t);
    case Call(f, rest) =>
      if f.body.Done? {
        CodelessRequired(f);
        CodelessCovers(t, f.used, CalleesRequired(rest));
        TallyCovers(rest, direct, Tally(Plus(t.own, Settle(f.used, t.nested)), NoGas()));
      } else {
        var u := t.(nested := Plus(t.nested, FrameGas(f)));
        FreeUsed(f);
        FreeCovers(f);
        TallyCovers(rest, direct, u);
        NestedCovers(t, f, CalleesRequired(rest));
      }
  }

  lemma NestedCovers(t: Tally, f: Frame, r: int)
    requires FrameGas(f).used == f.used && FrameGas(f).required >= Required(f)
    ensures var u := t.(nested := Plus(t.nested, FrameGas(f)));
            u.own.required - u.nested.used + WithReserve(u.nested.required + r)
            >= t.own.required - t.nested.used - f.used + WithReserve(t.nested.required + (Required(f) + r))
  {
    hide WithReserve, FrameGas, Required;
    ReserveUp(t.nested.required + (Required(f) + r), t.nested.required + FrameGas(f).required + r);
  }

  lemma {:induction false} FreeCovers(f: Frame)
    requires Free(f) && !f.body.Done?
    ensures FrameGas(f).required >= Required(f)
    decreases f, 0
  {
    TallyCovers(f.body, false, Tally(NoGas(), NoGas()));
    FrameGasIsSettled(f);
  }

  lemma FrameGasIsSettled(f: Frame)
    ensures FrameGas(f).required == f.used + Settled(TallyBody(f.body, Tally(NoGas(), NoGas())))
    ensures FrameGas(f).used == f.used + TallyBody(f.body, Tally(NoGas(), NoGas())).own.used
  {
    hide WithReserve, TallyBody;
  }

  /** The item of a call at depth 2 that makes precompile calls of any price itself, and none further
      down, is at least its requirement. */
  lemma DirectCovers(f: Frame)
    requires !f.body.Done? && Tame(f.body, true)
    ensures FrameGas(f).required >= Required(f)
  {
    TallyCovers(f.body, true, Tally(NoGas(), NoGas()));
    FrameGasIsSettled(f);
    assert NoGas().required == 0 && NoGas().used == 0;
    hide TallyBody, FrameGas, WithReserve;
  }

  lemma {:induction false} TotalCovers(tx: Body, marker: nat)
    requires Resumes(tx)
    requires forall f | f in ExecutionFrames(tx, marker) :: Fits(f)
    ensures ExecutionGas(tx, marker).required >= TotalRequired(ExecutionFrames(tx, marker))
    decreases tx
  {
    hide FrameGas, Required, Tame;
    match tx
    case Done =>
    case Op(opcode, _, _, _, rest) => TotalCovers(rest, MarkerAfter(opcode, marker));
    case Call(f, rest) =>
      if marker == EXECUTION_MARKER {
        assert f in ExecutionFrames(tx, marker);
        if f.body.Done? {
          CodelessRequired(f);
        } else {
          DirectCovers(f);
        }
        assert forall g | g in ExecutionFrames(rest, marker) :: g in ExecutionFrames(tx, marker);
      }
      TotalCovers(rest, marker);
  }

  /** The point of the tracer: for every transaction whose execution phase makes no priced call
      without code more than one frame down, the reported limit runs each of its calls to the end at
      exactly the recorded cost. */
  lemma LimitIsEnough(tx: Body, f: Frame)
    requires tx.Op? && Resumes(tx)
    requires forall g | g in ExecutionFrames(tx, 0) :: Fits(g) && Recorded(g)
    requires f in ExecutionFrames(tx, 0)
    ensures var r := Run(INITIAL, BodyEvents(tx, 1));
            && r.Some? && r.value.executionGasLimit >= f.used
            && Execute(f, r.value.executionGasLimit) == Some(r.value.executionGasLimit - f.used)
  {
    hide Run, BodyEvents, Execute, Required, Fits, Resumes;
    LimitIsTotalGas(tx);
    TotalCovers(tx, 0);
    PartOfTotal(ExecutionFrames(tx, 0), f);
    RequiredCoversUsed(f);
    RequiredIsEnough(f, Run(INITIAL, BodyEvents(tx, 1)).value.executionGasLimit);
  }
}
