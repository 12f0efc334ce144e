/** What the execution tracer's flags and reverts mean, read off the callbacks alone: which phase an
    opcode belongs to is how many NUMBER opcodes the transaction's own frame has run up to it, validation
    being the first two and execution the third. */
module TracerFlags {
  import opened Text
  import opened ExecutionTracer

  /** The phase once a callback is done. */
  function PhaseAfter(e: Event, phase: nat): nat {
    if e.Step? && e.depth == 1 && e.opcode == "NUMBER" then phase + 1 else phase
  }

  /** Some opcode has less gas than it costs, in a phase from `lo` up to but not including `hi`. */
  predicate RunsShort(events: seq<Event>, phase: nat, lo: nat, hi: nat)
    decreases |events|
  {
    && events != []
    && var now := PhaseAfter(events[0], phase);
    || (events[0].Step? && events[0].gas < events[0].cost && lo <= now < hi)
    || RunsShort(events[1..], now, lo, hi)
  }

  /** The outputs of the frames that fail while the operation is executed. */
  function FailedOutputs(events: seq<Event>, phase: nat): seq<string>
    decreases |events|
  {
    if events == [] then []
    else
      (if events[0].Exit? && events[0].reverted && phase == 3 then [events[0].output] else [])
      + FailedOutputs(events[1..], PhaseAfter(events[0], phase))
  }

  function Phase(events: seq<Event>, phase: nat): nat
    decreases |events|
  {
    if events == [] then phase else Phase(events[1..], PhaseAfter(events[0], phase))
  }

  /** What one callback adds. */
  lemma OneCallback(s: State, e: Event)
    requires Next(s, e).Some?
    ensures var t := Next(s, e).value; var now := PhaseAfter(e, s.marker);
            && (t.validationOOG <==> s.validationOOG || (e.Step? && e.gas < e.cost && 1 <= now < 3))
            && (t.executionOOG <==> s.executionOOG || (e.Step? && e.gas < e.cost && now == 3))
            && t.reverts == s.reverts + (if e.Exit? && e.reverted && s.marker == 3 then [e.output] else [])
            && t.marker == now
  {
    hide NoGas, WithReserve, Settle, Plus, Slot;
  }

  /** A run of callbacks reports that validation ran out of gas exactly when an opcode of the first two
      phases did, that execution did exactly when one of the third did, and the outputs of exactly the
      frames that failed in the third. */
  lemma {:induction false} FlagsSayWhere(s: State, events: seq<Event>)
    requires Run(s, events).Some?
    ensures var t := Run(s, events).value;
            && (t.validationOOG <==> s.validationOOG || RunsShort(events, s.marker, 1, 3))
            && (t.executionOOG <==> s.executionOOG || RunsShort(events, s.marker, 3, 4))
            && t.reverts == s.reverts + FailedOutputs(events, s.marker)
            && t.marker == Phase(events, s.marker)
    decreases |events|
  {
    hide Next, PhaseAfter;
    if events != [] {
      OneCallback(s, events[0]);
      FlagsSayWhere(Next(s, events[0]).value, events[1..]);
    }
  }

  /** For every transaction the tracer gets through: the flags are about its opcodes, frame by frame. */
  lemma TransactionFlags(tx: Body)
    requires tx.Op? && Resumes(tx)
    ensures var r := Run(INITIAL, BodyEvents(tx, 1)); var events := BodyEvents(tx, 1);
            && r.Some?
            && (r.value.validationOOG <==> RunsShort(events, 0, 1, 3))
            && (r.value.executionOOG <==> RunsShort(events, 0, 3, 4))
            && r.value.reverts == FailedOutputs(events, 0)
  {
    hide Run, BodyEvents, Resumes, RunsShort, FailedOutputs;
    LimitIsTotalGas(tx);
    FlagsSayWhere(INITIAL, BodyEvents(tx, 1));
  }

  /** An opcode that stores during validation with too little gas is validation's, and not execution's. */
  lemma ValidationRunsShort()
    ensures var r := Run(INITIAL, [Step(1, "NUMBER", 9, 2), Step(2, "SSTORE", 100, 2900)]);
            r.Some? && r.value.validationOOG && !r.value.executionOOG
  {
    var first, second := Step(1, "NUMBER", 9, 2), Step(2, "SSTORE", 100, 2900);
    var mid := Next(INITIAL, first).value;
    assert [first, second][1..] == [second] && [second][1..] == [];
    assert mid.marker == 1;
    assert Run(mid, [second]) == Some(Next(mid, second).value);
  }
}
