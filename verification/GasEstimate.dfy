/** The gas estimator of pkg/gas/estimate.go. Every call to the node is a question to an arbitrary
    oracle, which may answer differently each time it is asked; `history` records what was asked
    and answered, in order. */
module GasEstimate {
  import opened Arithmetic
  import opened Text

  const BINARY_SEARCH_CUTOFF := 30000
  const MAX_RETRIES: nat := 7
  const BASE_VGL_BUFFER := 25

  // ---------------------------------------------------------------- the oracle

  /** What the estimator asks: to decode the operation and copy the overrides of an attempt, to
      simulate it with a verification gas limit and no call gas, to trace it with fees set to 0,
      and to trace it with its own fees. */
  datatype Query =
    | Prepare
    | Simulate(vgl: int)
    | TraceFree(vgl: int, cgl: int)
    | TraceFull(vgl: int, cgl: int)

  /** Accepted carries the traced execution gas limit. Malformed is an error met before the node
      is called, which the estimator returns as it is. */
  datatype Outcome =
    | Accepted(executionGasLimit: int)
    | Failed(err: string)
    | Malformed(err: string)

  datatype Exchange = Exchange(query: Query, outcome: Outcome)

  type Oracle = (seq<Exchange>, Query) -> Outcome

  // ---------------------------------------------------------------- classifying errors

  predicate IsPrefundNotPaid(err: string) {
    Contains(err, "AA21 didn't pay prefund") || Contains(err, "AA31 paymaster deposit too low")
  }

  predicate IsValidationOOG(err: string) {
    || Contains(err, "AA40 over verificationGasLimit")
    || Contains(err, "AA41 too little verificationGas")
    || Contains(err, "AA51 prefund below actualGasCost")
    || Contains(err, "AA13 initCode failed or OOG")
    || Contains(err, "AA23 reverted")
    || Contains(err, "AA33 reverted")
    || Contains(err, "return data out of bounds")
    || Contains(err, "validation OOG")
  }

  predicate IsExecutionOOG(err: string) {
    Contains(err, "execution OOG")
  }

  predicate IsExecutionReverted(err: string) {
    Contains(err, "execution reverted")
  }

  /** Which of the two binary searches is running: for the verification gas limit, or for the call
      gas limit under a settled verification gas limit. */
  datatype Target = Verification | CallGas(vgl: int) {
    function Ask(m: int): Query {
      match this
      case Verification => Simulate(m)
      case CallGas(vgl) => TraceFull(vgl, m)
    }

    predicate IsTooLow(err: string) {
      match this
      case Verification => IsValidationOOG(err)
      case CallGas(_) => IsExecutionOOG(err) || IsExecutionReverted(err)
    }
  }

  datatype Verdict = Works | TooHigh | TooLow | Unexpected

  /** A prefund error wins over an out-of-gas error when a message matches both. */
  function Judge(target: Target, outcome: Outcome): Verdict {
    match outcome
    case Accepted(_) => Works
    case Malformed(_) => Unexpected
    case Failed(err) =>
      if IsPrefundNotPaid(err) then TooHigh
      else if target.IsTooLow(err) then TooLow
      else Unexpected
  }

  function ErrorOf(outcome: Outcome): Option<string> {
    match outcome
    case Accepted(_) => None
    case Failed(err) => Some(err)
    case Malformed(err) => Some(err)
  }

  /** The estimator's results: a pair of limits without an error, or an error. */
  datatype Result = Estimated(vgl: int, cgl: int) | Error(err: string)

  // ---------------------------------------------------------------- the record of a run

  /** Every recorded answer is what the oracle says at that point. */
  ghost predicate Truthful(ask: Oracle, history: seq<Exchange>) {
    forall k | 0 <= k < |history| :: history[k].outcome == ask(history[..k], history[k].query)
  }

  ghost predicate Grows(before: seq<Exchange>, after: seq<Exchange>) {
    |before| <= |after| && after[..|before|] == before
  }

  /** `query` was asked after position `from` and accepted. */
  ghost predicate AcceptedSince(history: seq<Exchange>, from: nat, query: Query) {
    exists k :: from <= k < |history| && history[k].query == query && history[k].outcome.Accepted?
  }

  /** The number of attempts in a record: each one starts by preparing the operation. */
  function Attempts(history: seq<Exchange>): nat {
    if history == [] then 0
    else Attempts(history[..|history| - 1]) + if history[|history| - 1].query.Prepare? then 1 else 0
  }

  method AskOracle(ask: Oracle, query: Query, history: seq<Exchange>)
    returns (outcome: Outcome, record: seq<Exchange>)
    requires Truthful(ask, history)
    ensures outcome == ask(history, query)
    ensures record == history + [Exchange(query, outcome)] && Grows(history, record)
    ensures Truthful(ask, record)
    ensures Attempts(record) == Attempts(history) + if query.Prepare? then 1 else 0
  {
    outcome := ask(history, query);
    record := history + [Exchange(query, outcome)];
    assert record[..|history|] == history;
    forall k | 0 <= k < |history| ensures record[..k] == history[..k] {}
  }

  // ---------------------------------------------------------------- binary search

  /** The node says that the prefund is missing. */
  predicate LacksPrefund(outcome: Outcome) {
    outcome.Failed? && IsPrefundNotPaid(outcome.err)
  }

  /** The node says that validation ran out of gas, or, when it is the call gas limit that is looked for,
      that the execution did or reverted; and not that the prefund is missing. */
  predicate LacksGas(target: Target, outcome: Outcome) {
    && outcome.Failed? && !IsPrefundNotPaid(outcome.err)
    && (if target.Verification? then IsValidationOOG(outcome.err)
        else IsExecutionOOG(outcome.err) || IsExecutionReverted(outcome.err))
  }

  /** The node answers limits below `t` with an out-of-gas error, accepts those in [t, u], and answers
      those above `u` with a missing prefund. */
  ghost predicate Threshold(ask: Oracle, target: Target, t: int, u: int) {
    forall h: seq<Exchange>, m: int {:trigger ask(h, target.Ask(m))} ::
      var outcome := ask(h, target.Ask(m));
      if m < t then LacksGas(target, outcome) else if m <= u then outcome.Accepted? else LacksPrefund(outcome)
  }

  lemma VerdictOf(target: Target, outcome: Outcome)
    ensures Judge(target, outcome) ==
            if outcome.Accepted? then Works else if LacksPrefund(outcome) then TooHigh
            else if LacksGas(target, outcome) then TooLow else Unexpected
  {
    hide IsPrefundNotPaid, IsValidationOOG, IsExecutionOOG, IsExecutionReverted;
  }

  /** Where a search goes after an answer: below a limit that was accepted or lacked the prefund, above one
      that lacked gas, and nowhere after any other answer. */
  predicate Steers(target: Target, prev: Exchange, query: Query) {
    if prev.outcome.Accepted? || LacksPrefund(prev.outcome) then AskedLimit(query) < AskedLimit(prev.query)
    else LacksGas(target, prev.outcome) && AskedLimit(query) > AskedLimit(prev.query)
  }

  ghost predicate Steered(record: seq<Exchange>, from: nat, target: Target) {
    forall k | from < k < |record| :: Steers(target, record[k - 1], record[k].query)
  }

  ghost predicate StartsAbove(record: seq<Exchange>, from: nat, limit: int) {
    |record| > from ==> AskedLimit(record[from].query) > limit
  }

  /** The range that is left lies where the last answer points. */
  ghost predicate Heading(record: seq<Exchange>, from: nat, target: Target, l: int, r: int) {
    |record| > from ==>
      var last := record[|record| - 1];
      if last.outcome.Accepted? || LacksPrefund(last.outcome) then r < AskedLimit(last.query)
      else LacksGas(target, last.outcome) && l > AskedLimit(last.query)
  }

  lemma SteersOn(record: seq<Exchange>, from: nat, target: Target, l: int, r: int, m: int, outcome: Outcome)
    requires Steered(record, from, target) && Heading(record, from, target, l, r) && l <= m <= r
    ensures var next := record + [Exchange(target.Ask(m), outcome)];
            && Steered(next, from, target)
            && match Judge(target, outcome)
               case TooLow => Heading(next, from, target, m + 1, r)
               case Unexpected => true
               case _ => Heading(next, from, target, l, m - 1)
  {
    hide LacksPrefund, LacksGas, Judge;
    VerdictOf(target, outcome);
    var next := record + [Exchange(target.Ask(m), outcome)];
    forall k | from < k < |next| ensures Steers(target, next[k - 1], next[k].query) {
      if k < |record| { assert next[k - 1] == record[k - 1] && next[k] == record[k]; }
    }
  }

  /** What a search leaves: the limit it settled on (0 for none), the error of the last answer, an
      unexpected error that ends the estimate, and the record. */
  datatype Found = Found(limit: int, simErr: Option<string>, fatal: Option<string>,
                         record: seq<Exchange>)

  function AskedLimit(query: Query): int {
    match query
    case Prepare => 0
    case Simulate(vgl) => vgl
    case TraceFree(_, cgl) => cgl
    case TraceFull(_, cgl) => cgl
  }

  /** Since `from`, only this search's questions were asked, and none with a limit below `limit`
      was accepted. */
  ghost predicate SearchedSince(record: seq<Exchange>, from: nat, target: Target, limit: int) {
    forall k | from <= k < |record| ::
      && record[k].query == target.Ask(AskedLimit(record[k].query))
      && (record[k].outcome.Accepted? ==> 0 < limit <= AskedLimit(record[k].query))
  }

  /** After `n` halvings of a range of width `total`, `width` is what may remain. */
  ghost predicate Halved(n: nat, width: int, total: int) {
    Pow(2, n) * width <= total
  }

  lemma HalvingStep(n: nat, width: int, next: int, total: int)
    requires Halved(n, width, total) && width >= BINARY_SEARCH_CUTOFF && 2 * next <= width
    ensures Halved(n + 1, next, total) && Halved(n, BINARY_SEARCH_CUTOFF, total)
  {
    assert Pow(2, n + 1) * next == Pow(2, n) * (2 * next);
    assert Pow(2, n) * (2 * next) <= Pow(2, n) * width;
    assert Pow(2, n) * BINARY_SEARCH_CUTOFF <= Pow(2, n) * width;
  }

  /** Under an oracle with thresholds: what is known once the range has shrunk to [l, r] with the
      smallest accepted limit `limit` (0 while there is none). */
  ghost predicate Narrowed(ask: Oracle, target: Target, lo: int, hi: int, l: int, r: int, limit: int) {
    forall t, u | Threshold(ask, target, t, u) ::
      l <= Max(t, lo) && if limit == 0 then Min(u, hi) <= r else limit == r + 1 && t <= limit <= u
  }

  /** A found limit is the lowest that works, give or take the cutoff, and one is found when the
      range that works is at least as wide as the cutoff. */
  ghost predicate Pinpoints(ask: Oracle, target: Target, lo: int, hi: int, found: Found) {
    forall t, u | Threshold(ask, target, t, u) ::
      && found.fatal.None?
      && (found.limit != 0 ==> Max(t, lo) <= found.limit <= Max(t, lo) + BINARY_SEARCH_CUTOFF)
      && (Min(u, hi) - Max(t, lo) >= BINARY_SEARCH_CUTOFF ==> found.limit != 0)
  }

  lemma NarrowStep(ask: Oracle, target: Target, lo: int, hi: int, l: int, r: int, limit: int,
                   h: seq<Exchange>, m: int)
    requires Narrowed(ask, target, lo, hi, l, r, limit) && lo <= l <= m <= r <= hi && 0 < m
    ensures match Judge(target, ask(h, target.Ask(m)))
            case Works => Narrowed(ask, target, lo, hi, l, m - 1, m)
            case TooHigh => Narrowed(ask, target, lo, hi, l, m - 1, limit)
            case TooLow => Narrowed(ask, target, lo, hi, m + 1, r, limit)
            case Unexpected => forall t, u :: !Threshold(ask, target, t, u)
  {
    VerdictOf(target, ask(h, target.Ask(m)));
    hide Judge, IsPrefundNotPaid, IsValidationOOG, IsExecutionOOG, IsExecutionReverted;
    var verdict := Judge(target, ask(h, target.Ask(m)));
    forall t, u | Threshold(ask, target, t, u)
      ensures verdict == if m < t then TooLow else if m <= u then Works else TooHigh
    {}
  }

  /** What one more question of a search adds to the record. */
  lemma RecordStep(history: seq<Exchange>, before: seq<Exchange>, target: Target, m: int,
                   outcome: Outcome, limit: int)
    requires Grows(history, before) && SearchedSince(before, |history|, target, limit)
    requires 0 < m && (limit != 0 ==> m < limit)
    requires limit != 0 ==> AcceptedSince(before, |history|, target.Ask(limit))
    ensures var record := before + [Exchange(target.Ask(m), outcome)];
            var next := if outcome.Accepted? then m else limit;
            && Grows(history, record) && SearchedSince(record, |history|, target, next)
            && (next != 0 ==> AcceptedSince(record, |history|, target.Ask(next)))
  {
    var record := before + [Exchange(target.Ask(m), outcome)];
    assert record[..|history|] == before[..|history|];
    assert record[|before|].query == target.Ask(m);
    if !outcome.Accepted? && limit != 0 {
      var k :| |history| <= k < |before| && before[k].query == target.Ask(limit)
               && before[k].outcome.Accepted?;
      assert record[k] == before[k];
    }
  }

  /** A search of [lo, hi] under way: its range is [l, r]. */
  ghost predicate Searching(ask: Oracle, target: Target, lo: int, hi: int, history: seq<Exchange>,
                            l: int, r: int, limit: int, simErr: Option<string>, record: seq<Exchange>) {
    && lo <= l && r <= hi
    && Grows(history, record) && SearchedSince(record, |history|, target, limit)
    && (limit != 0 ==>
          r < limit && lo <= limit <= hi && AcceptedSince(record, |history|, target.Ask(limit)))
    && (|record| > |history| && limit == 0 ==> simErr.Some?)
    && (|record| > |history| ==> simErr == ErrorOf(record[|record| - 1].outcome))
    && (hi - lo >= BINARY_SEARCH_CUTOFF > r - l ==> |record| > |history|)
    && Narrowed(ask, target, lo, hi, l, r, limit)
    && Steered(record, |history|, target) && Heading(record, |history|, target, l, r)
    && StartsAbove(record, |history|, lo)
    && Halved(|record| - |history|, r - l, hi - lo)
    && (|record| > |history| ==> Halved(|record| - |history| - 1, BINARY_SEARCH_CUTOFF, hi - lo))
  }

  /** A search that ended: without an unexpected error, the limit it found was accepted and lies in
      the range, nothing lower was accepted, and without a limit the last answer's error is left. */
  ghost predicate Searched(ask: Oracle, target: Target, lo: int, hi: int, history: seq<Exchange>,
                           found: Found) {
    && Grows(history, found.record)
    && SearchedSince(found.record, |history|, target, found.limit)
    && Steered(found.record, |history|, target) && StartsAbove(found.record, |history|, lo)
    && Pinpoints(ask, target, lo, hi, found)
    && (|found.record| > |history| ==>
          Halved(|found.record| - |history| - 1, BINARY_SEARCH_CUTOFF, hi - lo))
    && match found.fatal
       case None =>
         && (found.limit != 0 ==>
               && lo <= found.limit <= hi
               && AcceptedSince(found.record, |history|, target.Ask(found.limit)))
         && (found.limit == 0 && hi - lo >= BINARY_SEARCH_CUTOFF ==> found.simErr.Some?)
         && (hi - lo >= BINARY_SEARCH_CUTOFF ==> |found.record| > |history|)
         && (|found.record| > |history| ==>
               found.simErr == ErrorOf(found.record[|found.record| - 1].outcome))
       case Some(err) =>
         && |found.record| > |history|
         && var last := found.record[|found.record| - 1].outcome;
         !LacksPrefund(last) && !LacksGas(target, last) && ErrorOf(last) == Some(err)
  }

  lemma SearchStarts(ask: Oracle, target: Target, lo: int, hi: int, history: seq<Exchange>,
                     simErr: Option<string>)
    ensures Searching(ask, target, lo, hi, history, lo, hi, 0, simErr, history)
  {
  }

  lemma SearchSteps(ask: Oracle, target: Target, lo: int, hi: int, history: seq<Exchange>,
                    l: int, r: int, limit: int, simErr: Option<string>, record: seq<Exchange>)
    requires 0 <= lo && r - l >= BINARY_SEARCH_CUTOFF
    requires Searching(ask, target, lo, hi, history, l, r, limit, simErr, record)
    ensures var m := (l + r) / 2; var outcome := ask(record, target.Ask(m));
            var next := record + [Exchange(target.Ask(m), outcome)]; var err := ErrorOf(outcome);
            match Judge(target, outcome)
            case Works => Searching(ask, target, lo, hi, history, l, m - 1, m, err, next)
            case TooHigh => Searching(ask, target, lo, hi, history, l, m - 1, limit, err, next)
            case TooLow => Searching(ask, target, lo, hi, history, m + 1, r, limit, err, next)
            case Unexpected => Searched(ask, target, lo, hi, history, Found(limit, err, err, next))
  {
    hide Halved, Narrowed, Threshold, SearchedSince, AcceptedSince, IsPrefundNotPaid, Target.IsTooLow, Steered,
         Heading;
    var m := (l + r) / 2;
    var outcome := ask(record, target.Ask(m));
    SteersOn(record, |history|, target, l, r, m, outcome);
    VerdictOf(target, outcome);
    hide Judge, LacksPrefund, LacksGas;
    RecordStep(history, record, target, m, outcome, limit);
    NarrowStep(ask, target, lo, hi, l, r, limit, record, m);
    HalvingStep(|record| - |history|, r - l, m - 1 - l, hi - lo);
    HalvingStep(|record| - |history|, r - l, r - (m + 1), hi - lo);
  }

  lemma SearchEnds(ask: Oracle, target: Target, lo: int, hi: int, history: seq<Exchange>,
                   l: int, r: int, limit: int, simErr: Option<string>, record: seq<Exchange>)
    requires r - l < BINARY_SEARCH_CUTOFF
    requires Searching(ask, target, lo, hi, history, l, r, limit, simErr, record)
    ensures Searched(ask, target, lo, hi, history, Found(limit, simErr, None, record))
  {
    hide Halved, Threshold, SearchedSince, AcceptedSince, Steered, Heading;
  }

  /** Either of the estimator's two binary searches, over [lo, hi]. */
  method Search(ask: Oracle, target: Target, lo: int, hi: int, firstErr: Option<string>,
                history: seq<Exchange>)
    returns (found: Found)
    requires 0 <= lo && Truthful(ask, history)
    ensures Truthful(ask, found.record) && Attempts(found.record) == Attempts(history)
    ensures Searched(ask, target, lo, hi, history, found)
    ensures hi - lo < BINARY_SEARCH_CUTOFF ==> found == Found(0, firstErr, None, history)
  {
    hide Searching, Searched, Truthful, Attempts, IsPrefundNotPaid, Target.IsTooLow;
    SearchStarts(ask, target, lo, hi, history, firstErr);
    var l, r := lo, hi;
    var record := history;
    var limit, simErr := 0, firstErr;
    while r - l >= BINARY_SEARCH_CUTOFF
      invariant Truthful(ask, record) && Attempts(record) == Attempts(history)
      invariant Searching(ask, target, lo, hi, history, l, r, limit, simErr, record)
      invariant hi - lo < BINARY_SEARCH_CUTOFF ==>
                  l == lo && r == hi && limit == 0 && simErr == firstErr && record == history
      decreases r - l
    {
      SearchSteps(ask, target, lo, hi, history, l, r, limit, simErr, record);
      var m := (l + r) / 2;
      var outcome;
      outcome, record := AskOracle(ask, target.Ask(m), record);
      simErr := ErrorOf(outcome);
      match Judge(target, outcome)
      case Works =>
        r := m - 1;
        limit := m;
      case TooHigh =>
        r := m - 1;
      case TooLow =>
        l := m + 1;
      case Unexpected =>
        return Found(limit, simErr, ErrorOf(outcome), record);
    }
    SearchEnds(ask, target, lo, hi, history, l, r, limit, simErr, record);
    return Found(limit, simErr, None, record);
  }

  // ---------------------------------------------------------------- the estimate

  datatype Input = Input(maxGasLimit: int, nonZeroValueCall: int)

  function Buffered(vgl: int): int {
    vgl * (100 + BASE_VGL_BUFFER) / 100
  }

  /** The verification gas limits of successive attempts: each is the one before, buffered. */
  ghost predicate BufferedChain(vgls: seq<int>) {
    forall k | 0 < k < |vgls| :: vgls[k] == Buffered(vgls[k - 1])
  }

  ghost predicate NeverSimulates(record: seq<Exchange>, from: nat) {
    forall k | from <= k < |record| :: !record[k].query.Simulate?
  }

  /** With an oracle that has thresholds, `limit` is its lower one, give or take the cutoff. */
  ghost predicate NearThreshold(ask: Oracle, limit: int) {
    forall t, u | Threshold(ask, Verification, t, u) ::
      Max(t, 0) <= limit <= Max(t, 0) + BINARY_SEARCH_CUTOFF
  }

  /** No oracle with thresholds leaves a range of at least the cutoff that works. */
  ghost predicate NoRoom(ask: Oracle, input: Input) {
    forall t, u | Threshold(ask, Verification, t, u) ::
      Min(u, input.maxGasLimit) - Max(t, 0) < BINARY_SEARCH_CUTOFF
  }

  /** The first attempt's limit is the buffered threshold, and one is chosen if there is room. */
  ghost predicate FirstChoice(ask: Oracle, input: Input, prepared: bool, vgls: seq<int>) {
    if vgls == [] then prepared ==> NoRoom(ask, input)
    else exists f :: vgls[0] == Buffered(f) && NearThreshold(ask, f)
  }

  /** The last question is the trace with fees that confirms the two limits, not one of a search. */
  predicate Confirming(record: seq<Exchange>) {
    |record| >= 2 && record[|record| - 1].query.TraceFull? && record[|record| - 2].query.TraceFree?
  }

  /** The estimate ended with an out-of-gas error of the validation phase, met by the trace that
      reads off the call gas limit, or by the confirming one without a sign that it was the execution
      that failed. */
  ghost predicate GaveUp(record: seq<Exchange>, res: Result) {
    && record != [] && res.Error? && IsValidationOOG(res.err)
    && record[|record| - 1].outcome == Failed(res.err)
    && (|| record[|record| - 1].query.TraceFree?
        || (Confirming(record) && !IsExecutionOOG(res.err) && !IsExecutionReverted(res.err)))
  }

  /** A trace without fees, under the verification gas limit, needed no more gas than the call gas
      limit gives. */
  ghost predicate CoversTrace(record: seq<Exchange>, from: nat, vgl: int, cgl: int, input: Input) {
    exists k ::
      && from <= k < |record| && record[k].query == TraceFree(vgl, input.maxGasLimit)
      && record[k].outcome.Accepted? && record[k].outcome.executionGasLimit <= cgl
  }

  lemma CoversTraceLater(before: seq<Exchange>, after: seq<Exchange>, from: nat, from': nat, vgl: int, cgl: int,
                         cgl': int, input: Input)
    requires CoversTrace(before, from, vgl, cgl, input) && Grows(before, after) && from' <= from && cgl <= cgl'
    ensures CoversTrace(after, from', vgl, cgl', input)
  {
    var k :| from <= k < |before| && before[k].query == TraceFree(vgl, input.maxGasLimit)
             && before[k].outcome.Accepted? && before[k].outcome.executionGasLimit <= cgl;
    assert after[k] == before[k];
  }

  /** What may be asked after an exchange: an attempt prepares, then searches by simulation, then traces
      without fees and with the call gas at its maximum, then with fees and the call gas that this trace
      read off, or the least that a call with value needs; a search for more call gas follows only if this
      trace ran out of execution gas or reverted. All traces of an attempt are under one verification gas
      limit; the next attempt starts only after a trace that failed for lack of validation gas. */
  predicate Follows(input: Input, prev: Exchange, query: Query) {
    match query
    case Prepare =>
      && (prev.query.TraceFree? || prev.query.TraceFull?)
      && prev.outcome.Failed? && IsValidationOOG(prev.outcome.err)
    case Simulate(_) =>
      || (prev.query.Prepare? && prev.outcome.Accepted?)
      || (prev.query.Simulate? && Steers(Verification, prev, query))
    case TraceFree(_, cgl) =>
      && (prev.query.Simulate? || (prev.query.Prepare? && prev.outcome.Accepted?))
      && cgl == input.maxGasLimit
    case TraceFull(vgl, cgl) =>
      || (&& prev.query.TraceFree? && prev.query.vgl == vgl && prev.outcome.Accepted?
          && cgl == Max(prev.outcome.executionGasLimit, input.nonZeroValueCall))
      || (&& prev.query.TraceFull? && prev.query.vgl == vgl
          && (Steers(CallGas(vgl), prev, query) || SendsUp(prev, cgl)))
  }

  /** The confirming trace fails for lack of execution gas, and a higher call gas limit is asked about. */
  predicate SendsUp(prev: Exchange, cgl: int) {
    && prev.outcome.Failed? && (IsExecutionOOG(prev.outcome.err) || IsExecutionReverted(prev.outcome.err))
    && cgl > AskedLimit(prev.query)
  }

  ghost predicate Orderly(input: Input, record: seq<Exchange>, from: nat) {
    forall k | from < k < |record| :: Follows(input, record[k - 1], record[k].query)
  }

  /** The record ends with the answer that the error is taken from. */
  ghost predicate EndsIn(record: seq<Exchange>, err: string) {
    record != [] && ErrorOf(record[|record| - 1].outcome) == Some(err)
  }

  lemma OrderlyOn(input: Input, before: seq<Exchange>, record: seq<Exchange>, from: nat)
    requires from < |before| && Grows(before, record) && Orderly(input, before, from)
    requires Orderly(input, record, |before| - 1)
    ensures Orderly(input, record, from)
  {
    hide Follows;
    forall k | from < k < |record| ensures Follows(input, record[k - 1], record[k].query) {
      if k < |before| { assert record[k] == before[k] && record[k - 1] == before[k - 1]; }
    }
  }

  lemma OrderlyOne(input: Input, before: seq<Exchange>, record: seq<Exchange>)
    requires before != [] && Grows(before, record) && |record| == |before| + 1
    requires Follows(input, before[|before| - 1], record[|before|].query)
    ensures Orderly(input, record, |before| - 1)
  {
    hide Follows;
    assert record[..|before|][|before| - 1] == before[|before| - 1];
  }

  /** The questions of a search follow what came before it, and each other. */
  lemma OrderlySearch(input: Input, before: seq<Exchange>, record: seq<Exchange>, target: Target, lo: int, limit: int)
    requires before != [] && Grows(before, record) && SearchedSince(record, |before|, target, limit)
    requires Steered(record, |before|, target) && StartsAbove(record, |before|, lo)
    requires var last := before[|before| - 1];
             match target
             case Verification => last.query.Prepare? && last.outcome.Accepted?
             case CallGas(vgl) =>
               && last.query == TraceFull(vgl, lo) && last.outcome.Failed?
               && (IsExecutionOOG(last.outcome.err) || IsExecutionReverted(last.outcome.err))
    ensures Orderly(input, record, |before| - 1)
  {
    hide LacksPrefund, LacksGas, IsExecutionOOG, IsExecutionReverted, Steers;
    assert record[..|before|][|before| - 1] == before[|before| - 1];
    forall k | |before| - 1 < k < |record| ensures Follows(input, record[k - 1], record[k].query) {
      assert record[k].query == target.Ask(AskedLimit(record[k].query));
      if k > |before| { assert record[k - 1].query == target.Ask(AskedLimit(record[k - 1].query)); }
    }
  }

  /** What an estimate that is at its `attempts`-th retry, after a last limit `lastVGL`, does. */
  ghost predicate EstimateDone(ask: Oracle, input: Input, attempts: nat, lastVGL: int,
                               history: seq<Exchange>, res: Result, record: seq<Exchange>, vgls: seq<int>)
  {
    && Grows(history, record) && Truthful(ask, record)
    && attempts + |vgls| <= MAX_RETRIES + 1
    && Attempts(record) - Attempts(history) <= MAX_RETRIES + 1 - attempts
    && BufferedChain(vgls) && (forall v | v in vgls :: v > 0)
    && (GaveUp(record, res) ==> attempts + |vgls| == MAX_RETRIES + 1)
    && |record| > |history| && record[|history|].query.Prepare? && Orderly(input, record, |history|)
    && (res.Error? ==> EndsIn(record, res.err))
    && (attempts == 0 ==> FirstChoice(ask, input, record[|history|].outcome.Accepted?, vgls))
    && (attempts > 0 ==>
          && NeverSimulates(record, |history|)
          && (vgls != [] ==> vgls[0] == Buffered(lastVGL)))
    && (res.Estimated? && (attempts > 0 || input.maxGasLimit >= BINARY_SEARCH_CUTOFF) ==>
          && vgls != [] && res.vgl == vgls[|vgls| - 1]
          && res.cgl >= input.nonZeroValueCall
          && CoversTrace(record, |history|, res.vgl, res.cgl, input)
          && AcceptedSince(record, |history|, TraceFull(res.vgl, res.cgl)))
    && (attempts == 0 && input.maxGasLimit < BINARY_SEARCH_CUTOFF ==>
          && vgls == [] && |record| == |history| + 1
          && res == match record[|history|].outcome
                    case Accepted(_) => Estimated(0, 0)
                    case Failed(err) => Error(err)
                    case Malformed(err) => Error(err))
  }

  /** An attempt that has not ended yet. With a limit of at least the cutoff to search in, or a
      last limit to start from, it is `searchable`; otherwise it has only prepared. */
  ghost predicate Underway(ask: Oracle, input: Input, attempts: nat, lastVGL: int,
                           history: seq<Exchange>, record: seq<Exchange>, vgls: seq<int>) {
    && Grows(history, record) && Truthful(ask, record)
    && Attempts(record) == Attempts(history) + 1
    && (attempts > 0 ==> NeverSimulates(record, |history|))
    && |vgls| <= 1 && |record| > |history|
    && record[|history|].query.Prepare? && Orderly(input, record, |history|)
    && (vgls != [] && attempts == 0 ==> FirstChoice(ask, input, true, vgls))
    && (vgls != [] ==> Searchable(input, attempts) && vgls[0] > 0)
    && (vgls != [] && attempts > 0 ==> vgls[0] == Buffered(lastVGL))
    && (!Searchable(input, attempts) ==>
          |record| == |history| + 1 && record[|history|].outcome.Accepted?)
  }

  predicate Searchable(input: Input, attempts: nat) {
    attempts > 0 || input.maxGasLimit >= BINARY_SEARCH_CUTOFF
  }

  lemma GrowsTrans(a: seq<Exchange>, b: seq<Exchange>, c: seq<Exchange>)
    requires Grows(a, b) && Grows(b, c)
    ensures Grows(a, c)
    ensures NeverSimulates(b, |a|) && NeverSimulates(c, |b|) ==> NeverSimulates(c, |a|)
  {
    assert c[..|a|] == c[..|b|][..|a|];
    forall k | |a| <= k < |b| ensures c[k] == b[k] { assert c[..|b|][k] == c[k]; }
  }

  lemma Prepared(ask: Oracle, input: Input, attempts: nat, lastVGL: int, history: seq<Exchange>,
                 record: seq<Exchange>)
    requires attempts <= MAX_RETRIES && Grows(history, record) && Truthful(ask, record)
    requires Attempts(record) == Attempts(history) + 1
    requires |record| == |history| + 1 && record[|history|].query.Prepare?
    ensures var outcome := record[|history|].outcome;
            if outcome.Accepted? then Underway(ask, input, attempts, lastVGL, history, record, [])
            else EstimateDone(ask, input, attempts, lastVGL, history, Error(outcome.err), record, [])
  {
    hide Truthful, Attempts, IsValidationOOG;
  }

  /** Anything but preparing, and simulating only in the first attempt, keeps it under way. */
  lemma Continues(ask: Oracle, input: Input, attempts: nat, lastVGL: int, history: seq<Exchange>,
                  before: seq<Exchange>, record: seq<Exchange>, vgls: seq<int>)
    requires Underway(ask, input, attempts, lastVGL, history, before, vgls)
    requires Searchable(input, attempts)
    requires Grows(before, record) && Truthful(ask, record) && Attempts(record) == Attempts(before)
    requires attempts == 0 || NeverSimulates(record, |before|)
    requires Orderly(input, record, |before| - 1)
    ensures Underway(ask, input, attempts, lastVGL, history, record, vgls)
  {
    hide Truthful, Attempts, FirstChoice, Orderly;
    GrowsTrans(history, before, record);
    OrderlyOn(input, before, record, |history|);
    assert record[|history|] == record[..|before|][|history|];
  }

  lemma SearchNeverSimulates(record: seq<Exchange>, from: nat, vgl: int, limit: int)
    requires SearchedSince(record, from, CallGas(vgl), limit)
    ensures NeverSimulates(record, from)
  {
  }

  lemma Chooses(ask: Oracle, input: Input, attempts: nat, lastVGL: int, history: seq<Exchange>,
                record: seq<Exchange>, f: int)
    requires Underway(ask, input, attempts, lastVGL, history, record, [])
    requires Searchable(input, attempts) && f > 0
    requires if attempts > 0 then f == lastVGL else NearThreshold(ask, f)
    ensures Underway(ask, input, attempts, lastVGL, history, record, [Buffered(f)])
  {
    hide Truthful, Attempts, NearThreshold, Orderly;
  }

  lemma Fails(ask: Oracle, input: Input, attempts: nat, lastVGL: int, history: seq<Exchange>,
              record: seq<Exchange>, vgls: seq<int>, err: string)
    requires attempts <= MAX_RETRIES && Searchable(input, attempts)
    requires Underway(ask, input, attempts, lastVGL, history, record, vgls)
    requires GaveUp(record, Error(err)) ==> vgls != [] && attempts == MAX_RETRIES
    requires vgls == [] && attempts == 0 ==> NoRoom(ask, input)
    requires EndsIn(record, err)
    ensures EstimateDone(ask, input, attempts, lastVGL, history, Error(err), record, vgls)
  {
    hide Truthful, Attempts, NearThreshold, NoRoom, GaveUp, Orderly;
  }

  lemma NothingToSearch(ask: Oracle, input: Input, lastVGL: int, history: seq<Exchange>,
                        record: seq<Exchange>)
    requires Underway(ask, input, 0, lastVGL, history, record, []) && !Searchable(input, 0)
    ensures EstimateDone(ask, input, 0, lastVGL, history, Estimated(0, 0), record, [])
  {
    hide Truthful, Attempts, Orderly;
  }

  lemma Succeeds(ask: Oracle, input: Input, attempts: nat, lastVGL: int, history: seq<Exchange>,
                 record: seq<Exchange>, vgl: int, cgl: int, from: nat)
    requires attempts <= MAX_RETRIES && cgl >= input.nonZeroValueCall
    requires Underway(ask, input, attempts, lastVGL, history, record, [vgl])
    requires from >= |history| && AcceptedSince(record, from, TraceFull(vgl, cgl))
    requires CoversTrace(record, |history|, vgl, cgl, input)
    ensures EstimateDone(ask, input, attempts, lastVGL, history, Estimated(vgl, cgl), record, [vgl])
  {
    hide Truthful, Attempts, CoversTrace, Orderly;
  }

  lemma OrderlyRetry(input: Input, before: seq<Exchange>, record: seq<Exchange>, from: nat)
    requires from < |before| < |record| && Grows(before, record) && Orderly(input, before, from)
    requires Orderly(input, record, |before|)
    requires record[|before|].query.Prepare? && Follows(input, before[|before| - 1], Prepare)
    ensures Orderly(input, record, from)
  {
    hide Follows;
    assert record[..|before|][|before| - 1] == before[|before| - 1];
    OrderlyOn(input, before, record, from);
  }

  lemma GrowsSelf(record: seq<Exchange>)
    ensures Grows(record, record)
  {
  }

  lemma Retries(ask: Oracle, input: Input, attempts: nat, lastVGL: int, history: seq<Exchange>,
                before: seq<Exchange>, f: int, res: Result, record: seq<Exchange>, vgls: seq<int>)
    requires attempts < MAX_RETRIES
    requires Underway(ask, input, attempts, lastVGL, history, before, [f])
    requires EstimateDone(ask, input, attempts + 1, f, before, res, record, vgls)
    requires Follows(input, before[|before| - 1], Prepare)
    ensures EstimateDone(ask, input, attempts, lastVGL, history, res, record, [f] + vgls)
  {
    hide Truthful, Attempts, NearThreshold, NoRoom, GaveUp, CoversTrace, Orderly, Follows;
    GrowsTrans(history, before, record);
    OrderlyRetry(input, before, record, |history|);
    assert record[|history|] == record[..|before|][|history|];
    GrowsSelf(record);
    if res.Estimated? && CoversTrace(record, |before|, res.vgl, res.cgl, input) {
      CoversTraceLater(record, record, |before|, |history|, res.vgl, res.cgl, res.cgl, input);
    }
    var all := [f] + vgls;
    forall k | 0 < k < |all| ensures all[k] == Buffered(all[k - 1]) {
      if k > 1 {
        assert vgls[k - 1] == Buffered(vgls[k - 2]);
      }
    }
  }

  lemma AfterTrace(ask: Oracle, input: Input, attempts: nat, lastVGL: int, history: seq<Exchange>,
                   before: seq<Exchange>, record: seq<Exchange>, f: int)
    requires Underway(ask, input, attempts, lastVGL, history, before, [f])
    requires Grows(before, record) && Truthful(ask, record) && Attempts(record) == Attempts(before)
    requires |record| == |before| + 1 && !record[|before|].query.Simulate?
    requires Follows(input, before[|before| - 1], record[|before|].query)
    ensures Underway(ask, input, attempts, lastVGL, history, record, [f])
    ensures |history| <= |before| && f > 0 && Searchable(input, attempts)
  {
    hide Truthful, Attempts, FirstChoice, Orderly, Follows;
    OrderlyOne(input, before, record);
    Continues(ask, input, attempts, lastVGL, history, before, record, [f]);
  }

  lemma PinpointsLimit(ask: Oracle, input: Input, found: Found)
    requires Pinpoints(ask, Verification, 0, input.maxGasLimit, found)
    ensures found.fatal.Some? || found.limit == 0 ==> NoRoom(ask, input)
    ensures found.fatal.None? && found.limit != 0 ==> NearThreshold(ask, found.limit)
  {
    hide Threshold;
  }

  lemma AfterVerificationSearch(ask: Oracle, input: Input, lastVGL: int, history: seq<Exchange>,
                                before: seq<Exchange>, found: Found)
    requires Searchable(input, 0) && Underway(ask, input, 0, lastVGL, history, before, [])
    requires before != [] && before[|before| - 1].query.Prepare? && before[|before| - 1].outcome.Accepted?
    requires Truthful(ask, found.record) && Attempts(found.record) == Attempts(before)
    requires Searched(ask, Verification, 0, input.maxGasLimit, before, found)
    ensures Underway(ask, input, 0, lastVGL, history, found.record, [])
    ensures found.fatal.Some? ==>
              EstimateDone(ask, input, 0, lastVGL, history, Error(found.fatal.value), found.record, [])
    ensures found.fatal.None? && found.limit == 0 ==>
              found.simErr.Some? &&
              EstimateDone(ask, input, 0, lastVGL, history, Error(found.simErr.value), found.record, [])
    ensures found.fatal.None? ==> found.limit >= 0
    ensures found.fatal.None? && found.limit != 0 ==> NearThreshold(ask, found.limit)
    ensures found.fatal.None? ==> found.record[|found.record| - 1].query.Simulate?
  {
    hide Truthful, Attempts, Underway, EstimateDone, Halved, SearchedSince, AcceptedSince, Pinpoints;
    hide NearThreshold, NoRoom, IsValidationOOG, IsPrefundNotPaid, Orderly;
    OrderlySearch(input, before, found.record, Verification, 0, found.limit);
    if |found.record| > |before| { LastAsked(found.record, |before|, Verification, found.limit); }
    Continues(ask, input, 0, lastVGL, history, before, found.record, []);
    PinpointsLimit(ask, input, found);
    if found.fatal.Some? || found.limit == 0 {
      var err := if found.fatal.Some? then found.fatal.value else found.simErr.value;
      Fails(ask, input, 0, lastVGL, history, found.record, [], err);
    }
  }

  lemma LastAsked(record: seq<Exchange>, from: nat, target: Target, limit: int)
    requires SearchedSince(record, from, target, limit) && |record| > from
    ensures record[|record| - 1].query == target.Ask(AskedLimit(record[|record| - 1].query))
  {
  }

  /** A question of the second search comes after a trace with fees. */
  lemma SearchConfirmsNothing(before: seq<Exchange>, record: seq<Exchange>, vgl: int, limit: int)
    requires Grows(before, record) && |record| > |before| > 0 && before[|before| - 1].query.TraceFull?
    requires SearchedSince(record, |before|, CallGas(vgl), limit)
    ensures !Confirming(record)
  {
    assert record[..|before|][|before| - 1] == before[|before| - 1];
    if |record| - 2 >= |before| {
      assert record[|record| - 2].query == CallGas(vgl).Ask(AskedLimit(record[|record| - 2].query));
    }
  }

  lemma AfterCallGasSearch(ask: Oracle, input: Input, attempts: nat, lastVGL: int,
                           history: seq<Exchange>, before: seq<Exchange>, f: int, cgl: int,
                           firstErr: string, found: Found)
    requires attempts <= MAX_RETRIES && Searchable(input, attempts) && cgl >= input.nonZeroValueCall
    requires Underway(ask, input, attempts, lastVGL, history, before, [f]) && |history| <= |before|
    requires before != [] && before[|before| - 1].query == TraceFull(f, cgl)
    requires before[|before| - 1].outcome == Failed(firstErr)
    requires IsExecutionOOG(firstErr) || IsExecutionReverted(firstErr)
    requires Truthful(ask, found.record) && Attempts(found.record) == Attempts(before)
    requires Searched(ask, CallGas(f), cgl, input.maxGasLimit, before, found)
    requires CoversTrace(before, |history|, f, cgl, input)
    requires input.maxGasLimit - cgl < BINARY_SEARCH_CUTOFF ==> found == Found(0, Some(firstErr), None, before)
    ensures found.fatal.Some? ==>
              EstimateDone(ask, input, attempts, lastVGL, history, Error(found.fatal.value), found.record, [f])
    ensures found.fatal.None? && found.limit == 0 ==>
              found.simErr.Some? &&
              EstimateDone(ask, input, attempts, lastVGL, history, Error(found.simErr.value), found.record, [f])
    ensures found.fatal.None? && found.limit != 0 ==>
              EstimateDone(ask, input, attempts, lastVGL, history, Estimated(f, found.limit), found.record, [f])
  {
    hide Truthful, Attempts, Underway, EstimateDone, Pinpoints, Halved, SearchedSince, AcceptedSince;
    hide CoversTrace, NeverSimulates, Searchable, IsValidationOOG, IsExecutionOOG, IsExecutionReverted,
         IsPrefundNotPaid, Orderly;
    var record := found.record;
    OrderlySearch(input, before, record, CallGas(f), cgl, found.limit);
    SearchNeverSimulates(record, |before|, f, found.limit);
    Continues(ask, input, attempts, lastVGL, history, before, record, [f]);
    if |record| > |before| {
      LastAsked(record, |before|, CallGas(f), found.limit);
      SearchConfirmsNothing(before, record, f, found.limit);
    } else {
      assert record == record[..|before|] == before;
    }
    forall err | EndsIn(record, err)
      ensures EstimateDone(ask, input, attempts, lastVGL, history, Error(err), record, [f])
    {
      Fails(ask, input, attempts, lastVGL, history, record, [f], err);
    }
    if found.fatal.None? && found.limit != 0 {
      CoversTraceLater(before, record, |history|, |history|, f, cgl, found.limit, input);
      Succeeds(ask, input, attempts, lastVGL, history, record, f, found.limit, |before|);
    }
  }

  lemma StartsBy(ask: Oracle, input: Input, attempts: nat, lastVGL: int, history: seq<Exchange>,
                 res: Result, record: seq<Exchange>, vgls: seq<int>)
    requires EstimateDone(ask, input, attempts, lastVGL, history, res, record, vgls)
    ensures |record| > |history| && Grows(history, record) && record[|history|].query.Prepare?
    ensures attempts > 0 && vgls != [] ==> vgls[0] == Buffered(lastVGL)
  {
    hide Truthful, Attempts, GaveUp, FirstChoice, CoversTrace, Orderly, EndsIn;
  }

  /** Retries with the failed attempt's limit when validation ran out of gas, 7 times at most. */
  method RetryEstimateGas(ask: Oracle, err: string, vgl: int, input: Input, attempts: nat,
                          ghost lastVGL: int, ghost history: seq<Exchange>, before: seq<Exchange>)
    returns (res: Result, record: seq<Exchange>, vgls: seq<int>)
    requires attempts <= MAX_RETRIES && vgl > 0 && input.nonZeroValueCall > 0
    requires Searchable(input, attempts) && Truthful(ask, before)
    requires Underway(ask, input, attempts, lastVGL, history, before, [vgl])
    requires before != [] && before[|before| - 1].outcome == Failed(err)
    requires before[|before| - 1].query.TraceFree? || before[|before| - 1].query.TraceFull?
    ensures EstimateDone(ask, input, attempts, lastVGL, history, res, record, [vgl] + vgls)
    ensures if IsValidationOOG(err) && attempts < MAX_RETRIES
            then |record| > |before| && Grows(before, record) && record[|before|].query.Prepare?
                 && (vgls != [] ==> vgls[0] == Buffered(vgl))
            else res == Error(err) && record == before && vgls == []
    decreases MAX_RETRIES - attempts, 0
  {
    hide IsValidationOOG, EstimateDone, Underway, Truthful;
    if IsValidationOOG(err) && attempts < MAX_RETRIES {
      res, record, vgls := EstimateGas(ask, input, attempts + 1, vgl, before);
      StartsBy(ask, input, attempts + 1, vgl, before, res, record, vgls);
      Retries(ask, input, attempts, lastVGL, history, before, vgl, res, record, vgls);
    } else {
      Fails(ask, input, attempts, lastVGL, history, before, [vgl], err);
      assert [vgl] + [] == [vgl];
      return Error(err), before, [];
    }
  }

  /** One attempt, and the retries it leads to. */
  method EstimateGas(ask: Oracle, input: Input, attempts: nat, lastVGL: int, history: seq<Exchange>)
    returns (res: Result, record: seq<Exchange>, vgls: seq<int>)
    requires attempts <= MAX_RETRIES && 0 <= lastVGL && (attempts == 0 <==> lastVGL == 0)
    requires input.nonZeroValueCall > 0
    requires Truthful(ask, history)
    ensures EstimateDone(ask, input, attempts, lastVGL, history, res, record, vgls)
    decreases MAX_RETRIES - attempts, 1
  {
    hide EstimateDone, Underway, Truthful, Attempts, Searched, NeverSimulates, Buffered;
    hide IsExecutionOOG, IsExecutionReverted, IsValidationOOG;
    vgls := [];
    var outcome;
    outcome, record := AskOracle(ask, Prepare, history);
    Prepared(ask, input, attempts, lastVGL, history, record);
    if !outcome.Accepted? {
      return Error(outcome.err), record, vgls;
    }

    // Find the verification gas limit.
    var f, simErr := lastVGL, None;
    if lastVGL == 0 {
      var found := Search(ask, Verification, 0, input.maxGasLimit, None, record);
      if !Searchable(input, attempts) {
        NothingToSearch(ask, input, lastVGL, history, record);
      } else {
        AfterVerificationSearch(ask, input, lastVGL, history, record, found);
      }
      record := found.record;
      if found.fatal.Some? {
        return Error(found.fatal.value), record, vgls;
      }
      f, simErr := found.limit, found.simErr;
    }
    if f == 0 {
      return if simErr.None? then Estimated(0, 0) else Error(simErr.value), record, vgls;
    }
    Chooses(ask, input, attempts, lastVGL, history, record, f);
    f := Buffered(f);
    vgls := [f];

    // Trace without fees to read off the call gas limit.
    ghost var before := record;
    outcome, record := AskOracle(ask, TraceFree(f, input.maxGasLimit), record);
    AfterTrace(ask, input, attempts, lastVGL, history, before, record, f);
    match outcome {
      case Malformed(err) =>
        Fails(ask, input, attempts, lastVGL, history, record, vgls, err);
        return Error(err), record, vgls;
      case Failed(err) =>
        var more;
        res, record, more := RetryEstimateGas(ask, err, f, input, attempts, lastVGL, history, record);
        return res, record, [f] + more;
      case Accepted(executionGasLimit) =>
        assert record[|before|].query == TraceFree(f, input.maxGasLimit);
        assert CoversTrace(record, |history|, f, executionGasLimit, input);
        var cgl := executionGasLimit;
        if cgl < input.nonZeroValueCall {
          cgl := input.nonZeroValueCall;
        }

        // Confirm with fees; fall back to searching for the call gas limit.
        before := record;
        outcome, record := AskOracle(ask, TraceFull(f, cgl), record);
        CoversTraceLater(before, record, |history|, |history|, f, executionGasLimit, cgl, input);
        AfterTrace(ask, input, attempts, lastVGL, history, before, record, f);
        match outcome {
          case Accepted(_) =>
            assert record[|before|].query == TraceFull(f, cgl);
            Succeeds(ask, input, attempts, lastVGL, history, record, f, cgl, |before|);
            return Estimated(f, cgl), record, vgls;
          case Malformed(err) =>
            Fails(ask, input, attempts, lastVGL, history, record, vgls, err);
            return Error(err), record, vgls;
          case Failed(err) =>
            if IsExecutionOOG(err) || IsExecutionReverted(err) {
              var found := Search(ask, CallGas(f), cgl, input.maxGasLimit, Some(err), record);
              AfterCallGasSearch(ask, input, attempts, lastVGL, history, record, f, cgl, err, found);
              record := found.record;
              if found.fatal.Some? {
                return Error(found.fatal.value), record, vgls;
              }
              if found.limit == 0 {
                return if found.simErr.None? then Estimated(0, 0) else Error(found.simErr.value), record, vgls;
              }
              return Estimated(f, found.limit), record, vgls;
            }
            var more;
            res, record, more := RetryEstimateGas(ask, err, f, input, attempts, lastVGL, history, record);
            return res, record, [f] + more;
        }
    }
  }

  // ---------------------------------------------------------------- what callers get

  /** The check a submitted operation's call gas limit has to pass. */
  predicate ValidateCallGasLimit(cgl: int, input: Input) {
    cgl >= input.nonZeroValueCall
  }

  /** The estimator as it is called: no attempts yet, no last limit. With room to search, an
      estimate without an error was accepted by a full trace with exactly its two limits, covers the
      gas that a trace without fees read off, passes the check of call gas limits, and took at most 8
      attempts. Without room, it is (0, 0) and nothing was simulated. When the oracle has thresholds,
      the first limit is the buffered lower one, give or take the cutoff, and one is found if the range
      that works is wide enough. An out-of-gas error of validation, met by the trace without fees or by
      the one that confirms, is reported only after all 8 attempts. Questions come in order, and an error
      is that of the last answer. */
  method Estimate(ask: Oracle, input: Input)
    returns (res: Result, record: seq<Exchange>, vgls: seq<int>)
    requires input.nonZeroValueCall > 0
    ensures Truthful(ask, record) && Attempts(record) <= 8 && |vgls| <= 8
    ensures BufferedChain(vgls) && forall v | v in vgls :: v > 0
    ensures res.Estimated? && input.maxGasLimit >= 30000 ==>
              && AcceptedSince(record, 0, TraceFull(res.vgl, res.cgl))
              && CoversTrace(record, 0, res.vgl, res.cgl, input)
              && ValidateCallGasLimit(res.cgl, input)
              && vgls != [] && res.vgl == vgls[|vgls| - 1]
    ensures input.maxGasLimit < 30000 ==>
              && |record| == 1
              && (record[0].outcome.Accepted? <==> res.Estimated?)
              && (res.Estimated? ==> res == Estimated(0, 0))
    ensures GaveUp(record, res) ==> |vgls| == 8
    ensures record != [] && record[0].query.Prepare? && Orderly(input, record, 0)
    ensures res.Error? ==> EndsIn(record, res.err)
    ensures forall t, u | Threshold(ask, Verification, t, u) ::
              if vgls == [] then
                record[0].outcome.Accepted? ==>
                  Min(u, input.maxGasLimit) - Max(t, 0) < 30000
              else Buffered(Max(t, 0)) <= vgls[0] <= Buffered(Max(t, 0) + 30000)
  {
    res, record, vgls := EstimateGas(ask, input, 0, 0, []);
    hide Threshold;
  }

  /** The buffer is a quarter, rounded down. */
  lemma BufferIsAQuarter(vgl: int)
    ensures 4 * Buffered(vgl) <= 5 * vgl < 4 * Buffered(vgl) + 4
  {
  }

  /** The k-th retry's verification gas limit is at most 1.25^k times the first one. */
  lemma {:induction false} RetriedLimitBound(vgls: seq<int>, k: nat)
    requires BufferedChain(vgls) && k < |vgls|
    ensures Pow(100, k) * vgls[k] <= Pow(125, k) * vgls[0]
    decreases k
  {
    if k > 0 {
      RetriedLimitBound(vgls, k - 1);
      BufferedStep(Pow(100, k - 1), Pow(125, k - 1), vgls[k - 1], vgls[k], vgls[0]);
    }
  }

  lemma BufferedStep(a: nat, b: nat, v: int, next: int, first: int)
    requires a * v <= b * first && next == Buffered(v)
    ensures (100 * a) * next <= (125 * b) * first
  {
    assert 100 * next <= 125 * v;
    assert a * (100 * next) <= a * (125 * v);
    assert (100 * a) * next == a * (100 * next);
    assert a * (125 * v) == 125 * (a * v);
    assert (125 * b) * first == 125 * (b * first);
  }

  /** Retrying never lowers the limit, and from 4 on it raises it. */
  lemma RetriedLimitGrows(vgls: seq<int>, k: nat)
    requires BufferedChain(vgls) && 0 < k < |vgls| && vgls[k - 1] > 0
    ensures vgls[k] >= vgls[k - 1] && (vgls[k - 1] >= 4 ==> vgls[k] > vgls[k - 1])
  {
  }

  const INT64_LIMIT := 0x8000_0000_0000_0000

  /** Within 2^53, no product of the buffered limits leaves 64 bits in any of the 8 attempts. */
  lemma {:induction false} BufferFitsInt64(vgls: seq<int>, k: nat)
    requires BufferedChain(vgls) && k < |vgls| <= MAX_RETRIES + 1
    requires 0 < vgls[0] <= Buffered(0x20_0000_0000_0000)
    ensures 0 < vgls[k] && vgls[k] * (100 + BASE_VGL_BUFFER) < INT64_LIMIT
  {
    var bounds := [0x20_0000_0000_0000, 0x28_0000_0000_0000, 0x32_0000_0000_0000, 0x3E_8000_0000_0000,
                   0x4E_2000_0000_0000, 0x61_A800_0000_0000, 0x7A_1200_0000_0000, 0x98_9680_0000_0000,
                   0xBE_BC20_0000_0000];
    var j := 0;
    while j < k
      invariant 0 <= j <= k && 0 < vgls[j] <= bounds[j + 1]
    {
      j := j + 1;
      assert vgls[j] == Buffered(vgls[j - 1]);
    }
  }
}
