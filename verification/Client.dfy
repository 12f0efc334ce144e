/** Submitting operations: the checks of pkg/client, pkg/modules/entities and pkg/modules/checks that
    depend on what is pending, in front of the mempool. */
module Client {
  import opened Text
  import opened AiOp
  import opened SortedSets
  import opened MempoolQueue
  import opened Mempool
  import opened PendingOps
  import BatchChecks
  import Expire
  import Reputation

  type ReputationConstants = Reputation.ReputationConstants

  /** What the node and the other checks say about one submission: which addresses are staked, and
      whether every check that does not depend on the mempool passes. */
  datatype Verdicts = Verdicts(staked: Address -> bool, otherChecks: bool)

  /** The three lists of a handler context. */
  datatype AiOpHandlerCtx = AiOpHandlerCtx(
    op: AiOperation,
    pendingSenderOps: seq<AiOperation>,
    pendingFactoryOps: seq<AiOperation>,
    pendingPaymasterOps: seq<AiOperation>)

  /** An unstaked sender, factory or paymaster at exactly its limit is refused. */
  predicate PassesOpLimit(ctx: AiOpHandlerCtx, staked: Address -> bool, rc: ReputationConstants) {
    var factory, paymaster := GetFactory(ctx.op), GetPaymaster(ctx.op);
    && (staked(ctx.op.sender) || |ctx.pendingSenderOps| != rc.sameSenderMempoolCount)
    && (factory == ZeroAddress() || staked(factory)
        || |ctx.pendingFactoryOps| != rc.sameUnstakedEntityMempoolCount)
    && (paymaster == ZeroAddress() || staked(paymaster)
        || |ctx.pendingPaymasterOps| != rc.sameUnstakedEntityMempoolCount)
  }

  predicate PassesInitCode(op: AiOperation) {
    |op.initCode| == 0 || GetFactory(op) != ZeroAddress()
  }

  predicate Accepts(ctx: AiOpHandlerCtx, v: Verdicts, rc: ReputationConstants) {
    && PassesOpLimit(ctx, v.staked, rc) && PassesInitCode(ctx.op)
    && PassesPendingOps(ctx.op, ctx.pendingSenderOps) && v.otherChecks
  }

  // ---------------------------------------------------------------- reading the queue

  /** Reading an entity's operations creates its set if there is none. */
  function Touch(pools: Pools, aiMiddleware: Address, entity: Address): Pools {
    var p := PoolOf(pools, aiMiddleware);
    pools[aiMiddleware := WithEntitySet(p, entity, EntitySet(p, entity))]
  }

  function OpsOf(pools: Pools, aiMiddleware: Address, entity: Address): seq<AiOperation> {
    Reverse(Values(EntitySet(PoolOf(pools, aiMiddleware), entity)))
  }

  function TouchAll(pools: Pools, aiMiddleware: Address, op: AiOperation): Pools {
    Touch(Touch(Touch(pools, aiMiddleware, op.sender), aiMiddleware, GetFactory(op)), aiMiddleware, GetPaymaster(op))
  }

  function Context(pools: Pools, aiMiddleware: Address, op: AiOperation): AiOpHandlerCtx {
    AiOpHandlerCtx(op, OpsOf(pools, aiMiddleware, op.sender), OpsOf(pools, aiMiddleware, GetFactory(op)),
                   OpsOf(pools, aiMiddleware, GetPaymaster(op)))
  }

  /** The effect of one submission, and whether it is accepted. */
  function Submit(s: State, aiMiddleware: Address, op: AiOperation, v: Verdicts, committed: bool,
                  c: Config, rc: ReputationConstants): State
    requires op.sender != ZeroAddress()
  {
    var read := s.(pools := TouchAll(s.pools, aiMiddleware, op));
    if Accepts(Context(s.pools, aiMiddleware, op), v, rc) && committed
    then Step(read, Add(aiMiddleware, op), c) else read
  }

  lemma TouchIsInvisible(pools: Pools, aiMiddleware: Address, entity: Address)
    ensures forall m, a :: OpsOf(Touch(pools, aiMiddleware, entity), m, a) == OpsOf(pools, m, a)
  {
    hide Values, Reverse;
  }

  // ---------------------------------------------------------------- what a submission is told

  /** What the node, the databases and the clock answer during one submission: whether an address is
      staked (None when the lookup fails), whether the checks of single fields pass, whether the simulation
      accepts the signatures and the deadline, the code hashes that the trace beside it yields (None when
      the trace fails), and whether the two databases take their writes. */
  datatype Answers = Answers(
    stakes: Address -> Option<bool>,
    fieldsPass: bool,
    validated: bool,
    traced: Option<seq<BatchChecks.CodeHash>>,
    saved: bool,
    counted: bool,
    hash: Expire.Hasher,
    now: int)

  predicate StakesKnown(op: AiOperation, stakes: Address -> Option<bool>) {
    stakes(op.sender).Some? && stakes(GetFactory(op)).Some? && stakes(GetPaymaster(op)).Some?
  }

  function Staked(stakes: Address -> Option<bool>): Address -> bool {
    (a: Address) => stakes(a) == Some(true)
  }

  /** Every entity is admitted by its reputation and the number of its pending operations. */
  predicate Admitted(ctx: AiOpHandlerCtx, db: Reputation.Counts, now: int, rc: ReputationConstants)
    requires rc.minInclusionRateDenominator >= 1
  {
    Reputation.AdmitsAll(db, ctx.op, |ctx.pendingSenderOps|, |ctx.pendingFactoryOps|, |ctx.pendingPaymasterOps|,
                         now, rc)
  }

  /** The checks before the simulation pass, the trace yields code hashes, and they are saved; whether or
      not the simulation that runs beside the trace accepts the operation. */
  predicate SavesHashes(ctx: AiOpHandlerCtx, db: Reputation.Counts, a: Answers, rc: ReputationConstants)
    requires rc.minInclusionRateDenominator >= 1
  {
    && StakesKnown(ctx.op, a.stakes) && Admitted(ctx, db, a.now, rc) && PassesOpLimit(ctx, Staked(a.stakes), rc)
    && PassesInitCode(ctx.op) && PassesPendingOps(ctx.op, ctx.pendingSenderOps) && a.fieldsPass
    && a.traced.Some? && a.saved
  }

  /** The answers as the checks that depend on the mempool see them. */
  function VerdictsOf(ctx: AiOpHandlerCtx, db: Reputation.Counts, a: Answers, rc: ReputationConstants): Verdicts
    requires rc.minInclusionRateDenominator >= 1
  {
    Verdicts(Staked(a.stakes),
             && StakesKnown(ctx.op, a.stakes) && Admitted(ctx, db, a.now, rc)
             && a.fieldsPass && a.validated && a.traced.Some? && a.saved && a.counted)
  }

  lemma AcceptsIs(ctx: AiOpHandlerCtx, db: Reputation.Counts, a: Answers, rc: ReputationConstants)
    requires rc.minInclusionRateDenominator >= 1
    ensures Accepts(ctx, VerdictsOf(ctx, db, a, rc), rc) <==> SavesHashes(ctx, db, a, rc) && a.validated && a.counted
  {
    hide StakesKnown, Admitted, PassesOpLimit, PassesInitCode, PassesPendingOps, Staked;
  }

  class ClientInstance {
    const mempool: MempoolInstance
    const rep: Reputation.ReputationStore
    const check: BatchChecks.Standalone
    const supportedAiMiddlewares: seq<Address>

    constructor (mempool: MempoolInstance, rep: Reputation.ReputationStore, check: BatchChecks.Standalone,
                 supported: seq<Address>)
      ensures this.mempool == mempool && this.rep == rep && this.check == check
      ensures supportedAiMiddlewares == supported
    {
      this.mempool := mempool;
      this.rep := rep;
      this.check := check;
      this.supportedAiMiddlewares := supported;
    }

    /** Fails exactly when a stake cannot be looked up. */
    method NewAiOpHandlerContext(op: AiOperation, aiMiddleware: Address, stakes: Address -> Option<bool>)
      returns (ctx: AiOpHandlerCtx, ok: bool)
      requires mempool.Valid()
      modifies mempool.queue
      ensures mempool.Valid()
      ensures ctx == Context(old(mempool.queue.sets), aiMiddleware, op) && (ok <==> StakesKnown(op, stakes))
      ensures mempool.queue.sets == TouchAll(old(mempool.queue.sets), aiMiddleware, op)
    {
      hide GetFactory, GetPaymaster, Values, Reverse;
      ghost var p0 := mempool.queue.sets;
      var pso := mempool.queue.GetOps(aiMiddleware, op.sender);
      ghost var p1 := mempool.queue.sets;
      TouchIsInvisible(p0, aiMiddleware, op.sender);
      var pfo := mempool.queue.GetOps(aiMiddleware, GetFactory(op));
      assert pfo == OpsOf(p1, aiMiddleware, GetFactory(op)) == OpsOf(p0, aiMiddleware, GetFactory(op));
      TouchIsInvisible(p1, aiMiddleware, GetFactory(op));
      ghost var p2 := mempool.queue.sets;
      var ppo := mempool.queue.GetOps(aiMiddleware, GetPaymaster(op));
      assert ppo == OpsOf(p2, aiMiddleware, GetPaymaster(op)) == OpsOf(p0, aiMiddleware, GetPaymaster(op));
      ctx := AiOpHandlerCtx(op, pso, pfo, ppo);
      ok := stakes(op.sender).Some? && stakes(GetFactory(op)).Some? && stakes(GetPaymaster(op)).Some?;
    }

    /** The chain of checks, with what they write: code hashes once the operation is traced, even if the
        simulation beside the trace then refuses it, and one more operation seen for every entity once all
        have passed. */
    method HandleAiOp(ctx: AiOpHandlerCtx, a: Answers) returns (ok: bool)
      requires rep.repConst.minInclusionRateDenominator >= 1 && StakesKnown(ctx.op, a.stakes)
      modifies rep, check
      ensures ok <==> SavesHashes(ctx, old(rep.db), a, rep.repConst) && a.validated && a.counted
      ensures check.db == if SavesHashes(ctx, old(rep.db), a, rep.repConst)
                          then old(check.db)[a.hash(ctx.op) := a.traced.value] else old(check.db)
      ensures forall x ::
                var e := Reputation.EntryAt(old(rep.db), x, a.now);
                Reputation.EntryAt(rep.db, x, a.now)
                == if ok then e.(opsSeen := e.opsSeen + Reputation.Roles(ctx.op, x)) else e
    {
      hide PassesOpLimit, PassesInitCode, StakesKnown, Staked, Reputation.EntryAt, Reputation.AdmitsAll,
           Reputation.Roles, Reputation.AllSeen;
      ok := rep.CheckStatus(ctx.op, |ctx.pendingSenderOps|, |ctx.pendingFactoryOps|, |ctx.pendingPaymasterOps|, a.now);
      if !ok || !PassesOpLimit(ctx, Staked(a.stakes), rep.repConst) {
        return false;
      }
      ok := ValidatePendingOps(ctx.op, ctx.pendingSenderOps);
      if !ok || !PassesInitCode(ctx.op) || !a.fieldsPass || a.traced.None? {
        return false;
      }
      ok := check.SaveCodeHashes(a.hash(ctx.op), a.traced.value, a.saved);
      if !ok || !a.validated || !a.counted {
        return false;
      }
      ghost var db := rep.db;
      rep.IncOpsSeen(ctx.op, a.now);
      forall x
        ensures var e := Reputation.EntryAt(db, x, a.now);
                Reputation.EntryAt(rep.db, x, a.now) == e.(opsSeen := e.opsSeen + Reputation.Roles(ctx.op, x))
      {
        Reputation.SeenInEveryRole(db, ctx.op, a.now, x);
      }
    }

    /** Refuses what a middleware list, a check or the database refuses; adds the rest. The entities have
        been seen also when the database of the mempool then fails. */
    method SendAiOperation(op: AiOperation, aiMiddleware: Address, a: Answers, committed: bool)
      returns (accepted: bool)
      requires mempool.Valid() && op.sender != ZeroAddress() && rep.repConst.minInclusionRateDenominator >= 1
      modifies mempool, mempool.queue, rep, check
      ensures mempool.Valid() && mempool.queue == old(mempool.queue)
      ensures aiMiddleware !in supportedAiMiddlewares ==>
                && !accepted && mempool.View() == old(mempool.View())
                && rep.db == old(rep.db) && check.db == old(check.db)
      ensures aiMiddleware in supportedAiMiddlewares ==>
                var ctx := Context(old(mempool.View()).pools, aiMiddleware, op);
                var v := VerdictsOf(ctx, old(rep.db), a, rep.repConst);
                && (accepted <==> committed && Accepts(ctx, v, rep.repConst))
                && mempool.View()
                   == Submit(old(mempool.View()), aiMiddleware, op, v, committed, mempool.config, rep.repConst)
                && check.db == (if SavesHashes(ctx, old(rep.db), a, rep.repConst)
                                then old(check.db)[a.hash(op) := a.traced.value] else old(check.db))
                && forall x ::
                     var e := Reputation.EntryAt(old(rep.db), x, a.now);
                     Reputation.EntryAt(rep.db, x, a.now)
                     == if Accepts(ctx, v, rep.repConst) then e.(opsSeen := e.opsSeen + Reputation.Roles(op, x)) else e
    {
      if aiMiddleware !in supportedAiMiddlewares {
        return false;
      }
      hide TouchAll, Context, AddToPool, Accepts, VerdictsOf, Reputation.EntryAt, Reputation.Roles, StakesKnown,
           Admitted, PassesOpLimit, PassesInitCode, PassesPendingOps;
      var ctx, ok := NewAiOpHandlerContext(op, aiMiddleware, a.stakes);
      AcceptsIs(ctx, rep.db, a, rep.repConst);
      ContextOp(old(mempool.View()).pools, aiMiddleware, op);
      if !ok {
        return false;
      }
      ok := HandleAiOp(ctx, a);
      if !ok {
        return false;
      }
      accepted := mempool.AddOp(aiMiddleware, op, committed);
    }
  }

  /** The debugging methods. The mempool, the reputation counters and the code hashes share one database. */
  class Debug {
    const mempool: MempoolInstance
    const rep: Reputation.ReputationStore
    const check: BatchChecks.Standalone

    constructor (mempool: MempoolInstance, rep: Reputation.ReputationStore, check: BatchChecks.Standalone)
      ensures this.mempool == mempool && this.rep == rep && this.check == check
    {
      this.mempool := mempool;
      this.rep := rep;
      this.check := check;
    }

    /** Drops all that the database holds, of the mempool and of the others, or nothing. */
    method ClearState(dropped: bool) returns (ok: bool)
      requires mempool.Valid()
      modifies mempool, rep, check
      ensures mempool.Valid() && ok == dropped
      ensures mempool.View() == if ok then EMPTY else old(mempool.View())
      ensures rep.db == if ok then map[] else old(rep.db)
      ensures check.db == if ok then map[] else old(check.db)
    {
      ok := mempool.ClearAll(dropped);
      if ok {
        rep.db, check.db := map[], map[];
      }
    }
  }

  lemma ContextOp(pools: Pools, aiMiddleware: Address, op: AiOperation)
    ensures Context(pools, aiMiddleware, op).op == op
  {
  }
}
