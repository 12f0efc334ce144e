/** The execution tracer of pkg/tracer/BundlerExecutionTracer.js: a fold of the EVM's
    enter/step/exit callbacks into a depth-indexed array of gas items, from which the gas an
    execution phase needs under the "all but one 64th" rule is read off.

    A call tree is turned into the callbacks geth fires for it; the theorems say what the
    streaming accounting computes for every tree and every run of a transaction. */
module ExecutionTracer {
  import opened Text

  // ---------------------------------------------------------------- call trees and callbacks

  /** What a frame does, in order: opcodes of its own and calls into nested frames. `own` is the
      gas the opcode burns itself, apart from gas it hands to a nested frame. */
  datatype Body =
    | Done
    | Op(opcode: string, gas: int, cost: int, own: nat, rest: Body)
    | Call(callee: Frame, rest: Body)

  /** A call frame. `used` is what getGasUsed reports when the frame exits. A frame whose body is
      Done is a call to a precompile, a call to an account without code, or a SELFDESTRUCT. */
  datatype Frame = Frame(body: Body, used: nat, reverted: bool, output: string)

  datatype Event =
    | Enter
    | Step(depth: nat, opcode: string, gas: int, cost: int)
    | Exit(gasUsed: nat, reverted: bool, output: string)

  function FrameEvents(f: Frame, depth: nat): seq<Event> {
    [Enter] + BodyEvents(f.body, depth) + [Exit(f.used, f.reverted, f.output)]
  }

  function BodyEvents(b: Body, depth: nat): seq<Event> {
    match b
    case Done => []
    case Op(opcode, gas, cost, _, rest) => [Step(depth, opcode, gas, cost)] + BodyEvents(rest, depth)
    case Call(f, rest) => FrameEvents(f, depth + 1) + BodyEvents(rest, depth)
  }

  /** The EVM resumes a caller with an opcode after every call into code. A call without code may be
      followed by anything: SELFDESTRUCT is reported as one, and ends its frame. */
  predicate Resumes(b: Body) {
    match b
    case Done => true
    case Op(_, _, _, _, rest) => Resumes(rest)
    case Call(f, rest) => EvmFrame(f) && (rest.Op? || f.body.Done?) && Resumes(rest)
  }

  /** A frame with code starts with an opcode of its own. */
  predicate EvmFrame(f: Frame) {
    (f.body.Done? || f.body.Op?) && Resumes(f.body)
  }

  /** No precompile and no code-less account anywhere in the tree. */
  predicate AllCode(f: Frame) {
    f.body.Op? && AllCodeBody(f.body)
  }

  predicate AllCodeBody(b: Body) {
    match b
    case Done => true
    case Op(_, _, _, _, rest) => AllCodeBody(rest)
    case Call(f, rest) => AllCode(f) && AllCodeBody(rest)
  }

  // ---------------------------------------------------------------- the tracer

  datatype GasItem = GasItem(used: int, required: int)

  const VALIDATION_MARKER: nat := 1
  const EXECUTION_MARKER: nat := 3

  function NoGas(): GasItem {
    GasItem(0, 0)
  }

  /** ceil(64 * required / 63). */
  function WithReserve(required: int): int {
    (64 * required + 62) / 63
  }

  /** The fields of the tracer object, as a value. The gas stack maps a depth to its item; a
      missing depth is JavaScript's `undefined`. */
  datatype State = State(
    reverts: seq<string>,
    validationOOG: bool,
    executionOOG: bool,
    executionGasLimit: int,
    depth: nat,
    gasStack: map<int, GasItem>,
    marker: nat)

  const INITIAL := State([], false, false, 0, 0, map[], 0)

  function Slot(s: State, depth: nat): GasItem {
    if depth in s.gasStack then s.gasStack[depth] else NoGas()
  }

  /** What a frame that exits adds to the item of its depth, given what its callees left. */
  function Settle(used: int, nested: GasItem): GasItem {
    GasItem(used, used - nested.used + WithReserve(nested.required))
  }

  function Plus(a: GasItem, b: GasItem): GasItem {
    GasItem(a.used + b.used, a.required + b.required)
  }

  lemma PlusNothing(a: GasItem)
    ensures Plus(a, NoGas()) == a && Plus(NoGas(), a) == a
  {
  }

  /** The effect of one callback; None is the TypeError of updating an undefined slot. */
  function Next(s: State, e: Event): Option<State> {
    match e
    case Enter =>
      Some(if s.marker == EXECUTION_MARKER && s.depth + 1 !in s.gasStack
           then s.(gasStack := s.gasStack[s.depth + 1 := NoGas()]) else s)
    case Exit(used, reverted, output) =>
      var reverts := if reverted then s.reverts + [output] else s.reverts;
      if s.marker != EXECUTION_MARKER then Some(s)
      else if s.depth < 2 then Some(s.(reverts := reverts))
      else if s.depth !in s.gasStack then None
      else
        var item := Plus(s.gasStack[s.depth], Settle(used, Slot(s, s.depth + 1)));
        Some(s.(reverts := reverts,
                gasStack := s.gasStack[s.depth + 1 := NoGas()][s.depth := item],
                executionGasLimit := item.required))
    case Step(depth, opcode, gas, cost) =>
      var marker := if depth == 1 && opcode == "NUMBER" then s.marker + 1 else s.marker;
      Some(s.(depth := depth,
              marker := marker,
              validationOOG := s.validationOOG
                               || (gas < cost && VALIDATION_MARKER <= marker < EXECUTION_MARKER),
              executionOOG := s.executionOOG || (gas < cost && marker == EXECUTION_MARKER)))
  }

  function Run(s: State, events: seq<Event>): Option<State>
    decreases |events|
  {
    if events == [] then Some(s)
    else
      var next := Next(s, events[0]);
      if next.None? then None else Run(next.value, events[1..])
  }

  /** The tracer object itself; each callback updates its fields in place. */
  class Tracer {
    var reverts: seq<string>
    var validationOOG: bool
    var executionOOG: bool
    var executionGasLimit: int
    var depth: nat
    var gasStack: map<int, GasItem>
    var marker: nat

    function View(): State
      reads this
    {
      State(reverts, validationOOG, executionOOG, executionGasLimit, depth, gasStack, marker)
    }

    constructor ()
      ensures View() == INITIAL
    {
      reverts, validationOOG, executionOOG, executionGasLimit := [], false, false, 0;
      depth, gasStack, marker := 0, map[], 0;
    }

    predicate IsValidation()
      reads this
    {
      marker >= VALIDATION_MARKER && marker < EXECUTION_MARKER
    }

    predicate IsExecution()
      reads this
    {
      marker == EXECUTION_MARKER
    }

    method OnEnter()
      modifies this
      ensures Next(old(View()), Enter) == Some(View())
    {
      if IsExecution() {
        var next := depth + 1;
        if next !in gasStack {
          gasStack := gasStack[next := NoGas()];
        }
      }
    }

    method OnStep(logDepth: nat, opcode: string, gas: int, cost: int)
      modifies this
      ensures Next(old(View()), Step(logDepth, opcode, gas, cost)) == Some(View())
    {
      depth := logDepth;
      if depth == 1 && opcode == "NUMBER" {
        marker := marker + 1;
      }
      if gas < cost && IsValidation() {
        validationOOG := true;
      }
      if gas < cost && IsExecution() {
        executionOOG := true;
      }
    }

    /** `thrown` is the TypeError JavaScript raises on `undefined.used`. */
    method OnExit(gasUsed: nat, reverted: bool, output: string) returns (thrown: bool)
      modifies this
      ensures thrown <==> Next(old(View()), Exit(gasUsed, reverted, output)).None?
      ensures !thrown ==> Next(old(View()), Exit(gasUsed, reverted, output)) == Some(View())
    {
      hide NoGas, WithReserve, Plus, Settle;
      thrown := false;
      if IsExecution() {
        if reverted {
          reverts := reverts + [output];
        }
        if depth >= 2 {
          var nested := if depth + 1 in gasStack then gasStack[depth + 1] else NoGas();
          gasStack := gasStack[depth + 1 := NoGas()];
          if depth !in gasStack {
            return true;
          }
          var item := Plus(gasStack[depth], Settle(gasUsed, nested));
          gasStack := gasStack[depth := item];
          executionGasLimit := item.required;
        }
      }
    }
  }

  // ---------------------------------------------------------------- what the fold computes

  /** The items of two adjacent depths while a frame's body runs: what has been added at the
      frame's own depth, and what its callees have left one depth deeper. */
  datatype Tally = Tally(own: GasItem, nested: GasItem)

  function TallyBody(b: Body, t: Tally): Tally {
    match b
    case Done => t
    case Op(_, _, _, _, rest) => TallyBody(rest, t)
    case Call(f, rest) => TallyBody(rest, AfterCall(t, f))
  }

  /** A tally once one more call is done: a call that takes no step is settled at the depth of its
      caller. */
  function AfterCall(t: Tally, f: Frame): Tally
    decreases f, 1
  {
    if f.body.Done? then Tally(Plus(t.own, Settle(f.used, t.nested)), NoGas())
    else t.(nested := Plus(t.nested, FrameGas(f)))
  }

  /** What one frame with code adds to the gas stack at its depth. */
  function FrameGas(f: Frame): GasItem
    decreases f, 0
  {
    var t := TallyBody(f.body, Tally(NoGas(), NoGas()));
    Plus(t.own, Settle(f.used, t.nested))
  }

  /** The gas a call tree needs, by recursion on the tree: its own gas, plus what its callees
      need enlarged so that the 63/64 passed on to them is enough. */
  function Required(f: Frame): int {
    f.used - CalleesUsed(f.body) + WithReserve(CalleesRequired(f.body))
  }

  function CalleesUsed(b: Body): nat {
    match b
    case Done => 0
    case Op(_, _, _, _, rest) => CalleesUsed(rest)
    case Call(f, rest) => f.used + CalleesUsed(rest)
  }

  function CalleesRequired(b: Body): int {
    match b
    case Done => 0
    case Op(_, _, _, _, rest) => CalleesRequired(rest)
    case Call(f, rest) => Required(f) + CalleesRequired(rest)
  }

  lemma {:induction false} TallyShift(b: Body, t: Tally, more: GasItem)
    ensures TallyBody(b, t.(own := Plus(more, t.own)))
            == (var r := TallyBody(b, t); r.(own := Plus(more, r.own)))
    decreases b
  {
    match b
    case Done =>
    case Op(_, _, _, _, rest) => TallyShift(rest, t, more);
    case Call(f, rest) =>
      if f.body.Done? {
        TallyShift(rest, Tally(Plus(t.own, Settle(f.used, t.nested)), NoGas()), more);
      } else {
        TallyShift(rest, t.(nested := Plus(t.nested, FrameGas(f))), more);
      }
  }

  lemma {:induction false} AllCodeBodyTally(b: Body, t: Tally)
    requires AllCodeBody(b)
    ensures TallyBody(b, t)
            == Tally(t.own, Plus(t.nested, GasItem(CalleesUsed(b), CalleesRequired(b))))
    decreases b
  {
    match b
    case Done =>
    case Op(_, _, _, _, rest) => AllCodeBodyTally(rest, t);
    case Call(f, rest) =>
      AllCodeFrameGas(f);
      AllCodeBodyTally(rest, t.(nested := Plus(t.nested, FrameGas(f))));
  }

  /** Without code-less callees the streaming fold is the recursive definition. */
  lemma {:induction false} AllCodeFrameGas(f: Frame)
    requires AllCode(f)
    ensures FrameGas(f) == GasItem(f.used, Required(f))
    decreases f
  {
    hide NoGas, WithReserve, TallyBody, CalleesUsed, CalleesRequired, AllCodeBody, Plus;
    AllCodeBodyTally(f.body, Tally(NoGas(), NoGas()));
    var callees := GasItem(CalleesUsed(f.body), CalleesRequired(f.body));
    PlusNothing(callees);
    PlusNothing(Settle(f.used, callees));
  }

  // ---------------------------------------------------------------- running callbacks

  lemma {:induction false} RunConcat(s: State, a: seq<Event>, b: seq<Event>)
    ensures Run(s, a + b)
            == (var r := Run(s, a); if r.None? then None else Run(r.value, b))
    decreases |a|
  {
    if a == [] {
      assert a + b == b;
    } else {
      assert (a + b)[1..] == a[1..] + b;
      var next := Next(s, a[0]);
      if next.Some? {
        RunConcat(next.value, a[1..], b);
      }
    }
  }

  /** Nothing is accumulated deeper than `depth`. */
  ghost predicate ClearBelow(s: State, depth: nat) {
    forall d | d in s.gasStack :: d > depth ==> s.gasStack[d] == NoGas()
  }

  /** Items at `depth` and above are untouched by going from `s` to `t`. */
  ghost predicate SameUpTo(s: State, t: State, depth: int) {
    && t.marker == s.marker
    && forall d | d in s.gasStack && d <= depth :: d in t.gasStack && t.gasStack[d] == s.gasStack[d]
  }

  ghost predicate BodyDone(s: State, b: Body, depth: nat, r: Option<State>)
    requires depth >= 1 && depth in s.gasStack
  {
    var tally := TallyBody(b, Tally(s.gasStack[depth], Slot(s, depth + 1)));
    && r.Some?
    && r.value.depth == depth
    && depth in r.value.gasStack
    && r.value.gasStack[depth] == tally.own
    && Slot(r.value, depth + 1) == tally.nested
    && ClearBelow(r.value, depth + 1)
    && SameUpTo(s, r.value, depth - 1)
  }

  /** The body of a frame in the execution phase leaves exactly its tally on the gas stack. */
  lemma {:induction false} RunBody(s: State, b: Body, depth: nat)
    requires depth >= 2 && s.marker == EXECUTION_MARKER
    requires Resumes(b) && (s.depth == depth || b.Op?)
    requires depth in s.gasStack && ClearBelow(s, depth + 1)
    ensures BodyDone(s, b, depth, Run(s, BodyEvents(b, depth)))
    decreases b
  {
    hide NoGas, WithReserve, Settle, Plus, FrameGas, FrameEvents;
    match b
    case Done =>
    case Op(opcode, gas, cost, _, rest) =>
      var step := Step(depth, opcode, gas, cost);
      RunBody(Next(s, step).value, rest, depth);
      RunConcat(s, [step], BodyEvents(rest, depth));
    case Call(f, rest) =>
      RunFrame(s, f, depth + 1);
      var mid := Run(s, FrameEvents(f, depth + 1)).value;
      assert Tally(mid.gasStack[depth], Slot(mid, depth + 1))
             == AfterCall(Tally(s.gasStack[depth], Slot(s, depth + 1)), f);
      RunBody(mid, rest, depth);
      RunConcat(s, FrameEvents(f, depth + 1), BodyEvents(rest, depth));
  }

  /** A frame called from `depth - 1`: with code it adds FrameGas at its own depth, without code
      it is settled at the depth of its caller, if that is at least 2. Either way the final limit
      is the amount required so far at the depth it was settled at. */
  ghost predicate FrameDone(s: State, f: Frame, depth: nat, r: Option<State>)
    requires depth >= 2
  {
    && r.Some?
    && ClearBelow(r.value, depth)
    && if f.body.Op? then
         && SameUpTo(s, r.value, depth - 1)
         && Slot(r.value, depth) == Plus(Slot(s, depth), FrameGas(f))
         && r.value.executionGasLimit == Slot(r.value, depth).required
       else
         && SameUpTo(s, r.value, depth - 2)
         && r.value.depth == depth - 1
         && (depth == 2 ==>
               && Slot(r.value, 2) == Slot(s, 2)
               && r.value.executionGasLimit == s.executionGasLimit)
         && (depth > 2 ==>
               && depth - 1 in r.value.gasStack
               && Slot(r.value, depth - 1) == Plus(Slot(s, depth - 1), Settle(f.used, Slot(s, depth)))
               && Slot(r.value, depth) == NoGas())
  }

  /** Exiting a frame at `depth` settles it there and clears the slot of its callees. */
  lemma ExitSettles(s: State, f: Frame, depth: nat)
    requires depth >= 2 && s.marker == EXECUTION_MARKER && s.depth == depth
    requires depth in s.gasStack && ClearBelow(s, depth + 1)
    ensures var r := Next(s, Exit(f.used, f.reverted, f.output));
            && r.Some?
            && depth in r.value.gasStack
            && Slot(r.value, depth) == Plus(Slot(s, depth), Settle(f.used, Slot(s, depth + 1)))
            && r.value.executionGasLimit == Slot(r.value, depth).required
            && r.value.depth == depth
            && ClearBelow(r.value, depth)
            && SameUpTo(s, r.value, depth - 1)
  {
    hide NoGas, WithReserve;
  }

  lemma RunThree(s: State, first: Event, middle: seq<Event>, last: Event)
    requires Next(s, first).Some? && Run(Next(s, first).value, middle).Some?
    ensures Run(s, [first] + middle + [last])
            == Next(Run(Next(s, first).value, middle).value, last)
  {
    RunConcat(s, [first] + middle, [last]);
    RunConcat(s, [first], middle);
    var inside := Run(Next(s, first).value, middle).value;
    assert Run(s, [first]) == Next(s, first);
    assert Run(inside, [last]) == Next(inside, last);
  }

  /** Entering changes no item, and neither entering nor leaving changes the depth. */
  lemma EnterIsSilent(s: State, depth: nat)
    requires s.marker == EXECUTION_MARKER && s.depth == depth - 1 && ClearBelow(s, depth)
    ensures var next := Next(s, Enter);
            && next.Some?
            && var r := next.value;
            && r.marker == s.marker && r.depth == s.depth && r.executionGasLimit == s.executionGasLimit
            && ClearBelow(r, depth) && SameUpTo(s, r, depth - 1)
            && (forall d: nat :: Slot(r, d) == Slot(s, d))
            && (depth - 1 in s.gasStack ==> depth - 1 in r.gasStack)
  {
  }

  lemma CodelessFrame(s: State, f: Frame, depth: nat)
    requires depth >= 2 && s.marker == EXECUTION_MARKER && s.depth == depth - 1
    requires f.body.Done?
    requires depth > 2 ==> depth - 1 in s.gasStack
    requires ClearBelow(s, depth)
    ensures FrameDone(s, f, depth, Run(s, FrameEvents(f, depth)))
  {
    EnterIsSilent(s, depth);
    var entered := Next(s, Enter).value;
    RunThree(s, Enter, [], Exit(f.used, f.reverted, f.output));
    assert Run(s, FrameEvents(f, depth)) == Next(entered, Exit(f.used, f.reverted, f.output));
    hide NoGas, WithReserve, TallyBody, Settle, Plus, Run;
    if depth > 2 {
      hide Next;
      ExitSettles(entered, f, depth - 1);
    }
  }

  lemma EnteredFrame(s: State, depth: nat)
    requires depth >= 2 && s.marker == EXECUTION_MARKER && s.depth == depth - 1
    requires ClearBelow(s, depth)
    ensures var r := Next(s, Enter).value;
            && depth in r.gasStack && r.depth == s.depth
            && Slot(r, depth) == Slot(s, depth)
            && Slot(r, depth + 1) == NoGas()
            && ClearBelow(r, depth + 1)
            && SameUpTo(s, r, depth - 1)
  {
  }

  /** A frame's gas, when its body starts from what `before` already holds at its depth. */
  lemma FrameGasAfter(before: GasItem, f: Frame)
    ensures var t := TallyBody(f.body, Tally(before, NoGas()));
            Plus(t.own, Settle(f.used, t.nested)) == Plus(before, FrameGas(f))
  {
    hide NoGas, WithReserve, TallyBody;
    TallyShift(f.body, Tally(NoGas(), NoGas()), before);
    PlusNothing(before);
  }

  lemma {:induction false} RunFrame(s: State, f: Frame, depth: nat)
    requires depth >= 2 && s.marker == EXECUTION_MARKER && s.depth == depth - 1
    requires EvmFrame(f)
    requires depth > 2 ==> depth - 1 in s.gasStack
    requires ClearBelow(s, depth)
    ensures FrameDone(s, f, depth, Run(s, FrameEvents(f, depth)))
    decreases f
  {
    if f.body.Done? {
      CodelessFrame(s, f, depth);
    } else {
      hide NoGas, WithReserve, TallyBody, Resumes, BodyEvents, Run, Next, ClearBelow, Settle, Plus, FrameGas;
      var body := BodyEvents(f.body, depth);
      EnteredFrame(s, depth);
      var entered := Next(s, Enter).value;
      RunBody(entered, f.body, depth);
      var inside := Run(entered, body).value;
      RunThree(s, Enter, body, Exit(f.used, f.reverted, f.output));
      ExitSettles(inside, f, depth);
      FrameGasAfter(Slot(s, depth), f);
    }
  }

  // ---------------------------------------------------------------- a whole transaction

  /** Outside the execution phase a frame leaves the gas stack and the limit alone. */
  ghost predicate Idle(s: State, r: Option<State>) {
    && r.Some? && r.value.marker == s.marker
    && r.value.gasStack == s.gasStack && r.value.executionGasLimit == s.executionGasLimit
  }

  lemma {:induction false} IdleBody(s: State, b: Body, depth: nat)
    requires depth >= 2 && s.marker != EXECUTION_MARKER
    ensures Idle(s, Run(s, BodyEvents(b, depth)))
    decreases b
  {
    match b
    case Done =>
    case Op(opcode, gas, cost, _, rest) =>
      var step := Step(depth, opcode, gas, cost);
      RunConcat(s, [step], BodyEvents(rest, depth));
      IdleBody(Next(s, step).value, rest, depth);
    case Call(f, rest) =>
      IdleFrame(s, f, depth + 1);
      RunConcat(s, FrameEvents(f, depth + 1), BodyEvents(rest, depth));
      IdleBody(Run(s, FrameEvents(f, depth + 1)).value, rest, depth);
  }

  lemma {:induction false} IdleFrame(s: State, f: Frame, depth: nat)
    requires depth >= 2 && s.marker != EXECUTION_MARKER
    ensures Idle(s, Run(s, FrameEvents(f, depth)))
    decreases f
  {
    IdleBody(s, f.body, depth);
    RunThree(s, Enter, BodyEvents(f.body, depth), Exit(f.used, f.reverted, f.output));
  }

  function MarkerAfter(opcode: string, marker: nat): nat {
    if opcode == "NUMBER" then marker + 1 else marker
  }

  /** What the calls of the execution phase add at depth 2; calls without code are not counted
      there. */
  function ExecutionGas(tx: Body, marker: nat): GasItem {
    match tx
    case Done => NoGas()
    case Op(opcode, _, _, _, rest) => ExecutionGas(rest, MarkerAfter(opcode, marker))
    case Call(f, rest) => Plus(CallGas(f, marker), ExecutionGas(rest, marker))
  }

  function CallGas(f: Frame, marker: nat): GasItem {
    if marker == EXECUTION_MARKER && f.body.Op? then FrameGas(f) else NoGas()
  }

  /** The calls a transaction makes while its phase marker says execution. */
  function ExecutionFrames(tx: Body, marker: nat): seq<Frame> {
    match tx
    case Done => []
    case Op(opcode, _, _, _, rest) => ExecutionFrames(rest, MarkerAfter(opcode, marker))
    case Call(f, rest) =>
      if marker == EXECUTION_MARKER then [f] + ExecutionFrames(rest, marker)
      else ExecutionFrames(rest, marker)
  }

  function TotalRequired(frames: seq<Frame>): int {
    if frames == [] then 0 else Required(frames[0]) + TotalRequired(frames[1..])
  }

  ghost predicate BetweenCalls(s: State) {
    ClearBelow(s, 2) && s.executionGasLimit == Slot(s, 2).required
  }

  lemma StepBetweenCalls(s: State, opcode: string, gas: int, cost: int)
    requires BetweenCalls(s)
    ensures var next := Next(s, Step(1, opcode, gas, cost));
            && next.Some?
            && var r := next.value;
            && BetweenCalls(r) && r.depth == 1 && r.marker == MarkerAfter(opcode, s.marker)
            && Slot(r, 2) == Slot(s, 2)
  {
  }

  lemma CodelessKeepsDepth(s: State, f: Frame, depth: nat)
    requires f.body.Done? && Run(s, FrameEvents(f, depth)).Some?
    ensures Run(s, FrameEvents(f, depth)).value.depth == s.depth
  {
    var exit := Exit(f.used, f.reverted, f.output);
    assert FrameEvents(f, depth) == [Enter] + [exit];
    RunConcat(s, [Enter], [exit]);
    assert Run(s, [Enter]) == Next(s, Enter);
    var entered := Next(s, Enter).value;
    assert Run(entered, [exit]) == Next(entered, exit);
  }

  /** One call made at depth 1 adds exactly its gas to slot 2, if the phase is execution. */
  lemma RunTopCall(s: State, f: Frame)
    requires s.depth == 1 && EvmFrame(f) && BetweenCalls(s)
    ensures var r := Run(s, FrameEvents(f, 2));
            && r.Some? && BetweenCalls(r.value) && r.value.marker == s.marker
            && Slot(r.value, 2) == Plus(Slot(s, 2), CallGas(f, s.marker))
            && (f.body.Done? ==> r.value.depth == 1)
  {
    hide NoGas, WithReserve, FrameGas, FrameEvents, Run, EvmFrame, Settle, Plus;
    PlusNothing(Slot(s, 2));
    if s.marker == EXECUTION_MARKER {
      RunFrame(s, f, 2);
    } else {
      IdleFrame(s, f, 2);
    }
    if f.body.Done? { CodelessKeepsDepth(s, f, 2); }
  }

  lemma {:induction false} RunTransaction(s: State, tx: Body)
    requires (s.depth == 1 || tx.Op?) && Resumes(tx) && BetweenCalls(s)
    ensures var r := Run(s, BodyEvents(tx, 1));
            && r.Some? && BetweenCalls(r.value)
            && Slot(r.value, 2) == Plus(Slot(s, 2), ExecutionGas(tx, s.marker))
    decreases tx
  {
    hide NoGas, WithReserve, CallGas, FrameEvents, BetweenCalls, Next, MarkerAfter, Slot;
    match tx
    case Done => PlusNothing(Slot(s, 2));
    case Op(opcode, gas, cost, _, rest) =>
      var step := Step(1, opcode, gas, cost);
      StepBetweenCalls(s, opcode, gas, cost);
      var next := Next(s, step).value;
      RunTransaction(next, rest);
      RunConcat(s, [step], BodyEvents(rest, 1));
      assert Run(s, [step]) == Next(s, step);
    case Call(f, rest) =>
      RunTopCall(s, f);
      RunTransaction(Run(s, FrameEvents(f, 2)).value, rest);
      RunConcat(s, FrameEvents(f, 2), BodyEvents(rest, 1));
  }

  /** For every transaction the tracer never touches an undefined slot, and the limit it reports
      is the total over the calls of the execution phase. */
  lemma LimitIsTotalGas(tx: Body)
    requires tx.Op? && Resumes(tx)
    ensures var r := Run(INITIAL, BodyEvents(tx, 1));
            && r.Some? && ClearBelow(r.value, 2)
            && r.value.executionGasLimit == ExecutionGas(tx, 0).required
  {
    hide ExecutionGas, Run, BodyEvents, Resumes;
    RunTransaction(INITIAL, tx);
  }

  lemma {:induction false} TotalOfAllCode(tx: Body, marker: nat)
    requires forall f | f in ExecutionFrames(tx, marker) :: AllCode(f)
    ensures ExecutionGas(tx, marker).required == TotalRequired(ExecutionFrames(tx, marker))
    decreases tx
  {
    hide FrameGas, Required, AllCodeBody;
    match tx
    case Done =>
    case Op(opcode, _, _, _, rest) => TotalOfAllCode(rest, MarkerAfter(opcode, marker));
    case Call(f, rest) =>
      if marker == EXECUTION_MARKER {
        assert f in ExecutionFrames(tx, marker);
        AllCodeFrameGas(f);
      }
      TotalOfAllCode(rest, marker);
  }

  /** When no precompile or code-less account is called, the limit is the recursive requirement
      summed over the calls of the execution phase. */
  lemma LimitIsTotalRequired(tx: Body)
    requires tx.Op? && Resumes(tx)
    requires forall f | f in ExecutionFrames(tx, 0) :: AllCode(f)
    ensures var r := Run(INITIAL, BodyEvents(tx, 1));
            r.Some? && r.value.executionGasLimit == TotalRequired(ExecutionFrames(tx, 0))
  {
    LimitIsTotalGas(tx);
    TotalOfAllCode(tx, 0);
  }
}
