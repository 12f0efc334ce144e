/** Submitted operations survive a restart as they are: the checks let no operation through that printing
    would change. */
module SubmittedOps {
  import opened Text
  import opened AiOp
  import opened DbKeys
  import opened MempoolQueue
  import opened Mempool
  import opened MempoolInvariants
  import opened Client
  import opened SubmissionRuns

  /** Every pending operation is one that is printed without loss. */
  ghost predicate AllPrintWhole(s: State) {
    forall k | IsPending(s.pools, k) :: PrintsWhole(PendingOp(s.pools, k))
  }

  /** An accepted operation has no initCode, or one that names a factory. */
  lemma AcceptedPrintsWhole(ctx: AiOpHandlerCtx, v: Verdicts, rc: ReputationConstants)
    requires Accepts(ctx, v, rc)
    ensures PrintsWhole(ctx.op) && Printed(ctx.op) == ctx.op
  {
    hide PassesOpLimit, GetFactory, ZeroAddress;
  }

  lemma PrintedPrintsWhole(op: AiOperation)
    ensures PrintsWhole(Printed(op)) && (PrintsWhole(op) ==> Printed(op) == op)
  {
    PrintedKeepsEntities(op);
    hide GetFactory, ZeroAddress;
  }

  lemma EventPrintsWhole(s: State, e: Event, c: Config, rc: ReputationConstants)
    requires Invariant(s, c) && Possible(s, e) && AllPrintWhole(s)
    ensures AllPrintWhole(After(s, e, c, rc))
  {
    var t := After(s, e, c, rc);
    hide Invariant, Submit, Step, Accepts, Context, IsPending, PendingOp, PrintsWhole, ZeroAddress;
    forall k | IsPending(t.pools, k) ensures PrintsWhole(PendingOp(t.pools, k)) {
      match e
      case Submission(m, op, v, committed) => SubmissionPrintsWhole(s, m, op, v, committed, c, rc, k);
      case Removal(m, ops) => RemovalPrintsWhole(s, m, ops, c, k);
      case Clearing => NothingPending();
      case Restarting(scan) =>
        RestartReloads(s, scan, c);
        PrintedPrintsWhole(PendingOp(s.pools, k));
    }
  }

  lemma SubmissionPrintsWhole(s: State, m: Address, op: AiOperation, v: Verdicts, committed: bool, c: Config,
                              rc: ReputationConstants, k: Key)
    requires Invariant(s, c) && AllPrintWhole(s) && op.sender != ZeroAddress()
    requires IsPending(Submit(s, m, op, v, committed, c, rc).pools, k)
    ensures PrintsWhole(PendingOp(Submit(s, m, op, v, committed, c, rc).pools, k))
  {
    hide Invariant, Submit, Accepts, Pending, PrintsWhole, ZeroAddress, PoolOf;
    SubmitIndex(s, m, op, v, committed, c, rc, k.aiMiddleware, k.sender);
    if committed && Accepts(Context(s.pools, m, op), v, rc) {
      AcceptedPrintsWhole(Context(s.pools, m, op), v, rc);
      ContextOp(s.pools, m, op);
    }
    hide Context;
    if IsPending(s.pools, k) { assert PrintsWhole(PendingOp(s.pools, k)); }
  }

  lemma RemovalPrintsWhole(s: State, m: Address, ops: seq<AiOperation>, c: Config, k: Key)
    requires Invariant(s, c) && AllPrintWhole(s)
    requires IsPending(Step(s, Action.Remove(m, ops), c).pools, k)
    ensures PrintsWhole(PendingOp(Step(s, Action.Remove(m, ops), c).pools, k))
  {
    hide PrintsWhole, RemoveAllFromPool, Pending, Filed, DiskAgrees;
    if k.aiMiddleware == m {
      RemoveAllKeepsFiled(PoolOf(s.pools, m), m, ops);
    }
    assert IsPending(s.pools, k);
  }

  lemma {:induction false} RunPrintsWhole(s: State, events: seq<Event>, c: Config, rc: ReputationConstants)
    requires Invariant(s, c) && AllPrintWhole(s) && PossibleRun(s, events, c, rc)
    ensures AllPrintWhole(AfterAll(s, events, c, rc))
    decreases |events|
  {
    hide Invariant, AllPrintWhole, After;
    if events != [] {
      AfterKeepsInvariant(s, events[0], c, rc);
      EventPrintsWhole(s, events[0], c, rc);
      RunPrintsWhole(After(s, events[0], c, rc), events[1..], c, rc);
    }
  }

  /** From an empty mempool, whatever is submitted, removed, cleared and restarted: a restart keeps every
      pending operation exactly as it was, and no other. */
  lemma RestartKeepsOperations(events: seq<Event>, scan: seq<Key>, c: Config, rc: ReputationConstants)
    requires PossibleRun(EMPTY, events, c, rc) && Possible(AfterAll(EMPTY, events, c, rc), Restarting(scan))
    ensures var s := AfterAll(EMPTY, events, c, rc);
            var t := After(s, Restarting(scan), c, rc);
            && (forall k :: IsPending(t.pools, k) <==> IsPending(s.pools, k))
            && (forall k | IsPending(t.pools, k) :: PendingOp(t.pools, k) == PendingOp(s.pools, k))
  {
    EmptyKeepsInvariant(c);
    NothingPending();
    hide Invariant, IsPending, PendingOp, Step, PrintsWhole, Submit;
    assert AllPrintWhole(EMPTY);
    SubmissionRuns.EveryRunKeepsInvariant(EMPTY, events, c, rc);
    RunPrintsWhole(EMPTY, events, c, rc);
    var s := AfterAll(EMPTY, events, c, rc);
    var t := After(s, Restarting(scan), c, rc);
    RestartReloads(s, scan, c);
    forall k | IsPending(t.pools, k) ensures PendingOp(t.pools, k) == PendingOp(s.pools, k) {
      PrintedPrintsWhole(PendingOp(s.pools, k));
    }
  }
}
