/** While a (middleware, sender, nonce) slot stays occupied its fees never fall, and each
    replacement raises them by a tenth, but for rounding. */
module FeeRuns {
  import opened Text
  import opened AiOp
  import opened DbKeys
  import opened SortedSets
  import opened MempoolQueue
  import opened Mempool
  import opened MempoolInvariants
  import opened PendingOps
  import opened Client
  import opened SubmissionRuns
  import opened Arithmetic

  /** The event is a submission that is accepted. */
  predicate Files(s: State, e: Event, rc: ReputationConstants) {
    && e.Submission? && e.committed
    && Accepts(Context(s.pools, e.aiMiddleware, e.op), e.verdicts, rc)
  }

  /** No operation that is accepted names the address as factory or paymaster, unless the address sent
      it itself. */
  predicate OnlySender(s: State, e: Event, rc: ReputationConstants, a: Address) {
    Files(s, e, rc) && Uses(e.op, a) ==> e.op.sender == a
  }

  ghost predicate OnlyEverSender(s: State, events: seq<Event>, c: Config, rc: ReputationConstants, a: Address)
    requires PossibleRun(s, events, c, rc)
    decreases |events|
  {
    || events == []
    || (OnlySender(s, events[0], rc, a) && OnlyEverSender(After(s, events[0], c, rc), events[1..], c, rc, a))
  }

  /** All that is filed under the address was sent by it. */
  ghost predicate OwnIndex(s: State, a: Address) {
    forall m, k | k in Index(PoolOf(s.pools, m), a) :: k.sender == a
  }

  lemma EventKeepsOwnIndex(s: State, e: Event, c: Config, rc: ReputationConstants, a: Address)
    requires Invariant(s, c) && Possible(s, e) && OnlySender(s, e, rc, a) && OwnIndex(s, a)
    ensures OwnIndex(After(s, e, c, rc), a)
  {
    var t := After(s, e, c, rc);
    hide Invariant, Submit, Step, Accepts, Context, Index, Uses, ZeroAddress;
    forall m', k | k in Index(PoolOf(t.pools, m'), a) ensures k.sender == a {
      match e
      case Submission(m, op, v, committed) => SubmitIndex(s, m, op, v, committed, c, rc, m', a);
      case Removal(m, ops) => RemovalIndex(s, m, ops, c, m', a);
      case Clearing => NothingFiled(m', a);
      case Restarting(scan) => RestartIndex(s, scan, c, m', a);
    }
  }

  lemma NothingFiled(m: Address, a: Address)
    ensures Index(PoolOf(EMPTY.pools, m), a) == map[]
  {
  }

  // ---------------------------------------------------------------- what a submission is compared with

  lemma {:induction false} InReverse<T>(xs: seq<T>, x: T)
    ensures x in Reverse(xs) <==> x in xs
    decreases |xs|
  {
    if xs != [] {
      InReverse(xs[1..], x);
      assert xs == [xs[0]] + xs[1..];
    }
  }

  /** The operations read for an entity are the values of its index. */
  lemma OpsOfIndex(pools: Pools, m: Address, a: Address, o: AiOperation)
    requires Filed(PoolOf(pools, m), m)
    ensures var idx := Index(PoolOf(pools, m), a);
            o in OpsOf(pools, m, a) <==> KeyOf(m, o) in idx && idx[KeyOf(m, o)] == o
  {
    var p := PoolOf(pools, m);
    var es := EntitySet(p, a);
    assert OwnKeys(p, m) && PoolOk(p);
    hide Keyed, Indexed, OwnKeys, Entries, Values, Reverse, Distinct;
    EmptyDistinct();
    ValuesAt(es);
    InReverse(Values(es), o);
    if o in Values(es) {
      var i :| 0 <= i < |Values(es)| && Values(es)[i] == o;
      EntryOf(es, i);
      OwnKeysAt(p, m, a, es[i].key);
    }
    var k := KeyOf(m, o);
    EntriesKeys(es, k);
    if k in Index(p, a) && Index(p, a)[k] == o {
      var i :| 0 <= i < |es| && es[i].key == k;
      EntryOf(es, i);
      assert Values(es)[i] == o;
    }
  }

  lemma OwnKeysAt(p: Pool, m: Address, a: Address, k: Key)
    requires OwnKeys(p, m) && k in Index(p, a)
    ensures k == KeyOf(m, Index(p, a)[k]) && (k.sender == a ==> Holds(p, a, k))
  {
    hide Index, Pending;
  }

  lemma IndexedAt(p: Pool, a: Address, k: Key)
    requires Indexed(p) && k in Pending(p) && Uses(Pending(p)[k], a)
    ensures Holds(p, a, k)
  {
    hide Index, Pending, Uses;
  }

  /** The operation pending in a slot is among those its sender's submissions are compared with. */
  lemma PriorIsRead(s: State, k: Key, c: Config)
    requires Invariant(s, c) && IsPending(s.pools, k)
    ensures var prior := PendingOp(s.pools, k);
            k == KeyOf(k.aiMiddleware, prior) && prior in OpsOf(s.pools, k.aiMiddleware, k.sender)
  {
    var p, prior := PoolOf(s.pools, k.aiMiddleware), PendingOp(s.pools, k);
    assert Filed(p, k.aiMiddleware);
    IndexedAt(p, k.sender, k);
    hide OpsOf, Pending, Index, PoolOk, Keyed, Indexed, OwnKeys;
    OpsOfIndex(s.pools, k.aiMiddleware, k.sender, prior);
  }

  /** A submission to an occupied slot is compared with the operation it would replace. */
  predicate ComparedWithPrior(s: State, e: Event, rc: ReputationConstants, k: Key)
    requires IsPending(s.pools, k)
  {
    Replaces(s, e, k, rc) ==>
      Replaced(e.op, OpsOf(s.pools, k.aiMiddleware, k.sender)) == Some(PendingOp(s.pools, k))
  }

  /** For senders that are nobody else's factory or paymaster it is. */
  lemma ReplacementIsCompared(s: State, op: AiOperation, k: Key, c: Config)
    requires Invariant(s, c) && OwnIndex(s, k.sender)
    requires IsPending(s.pools, k) && k == KeyOf(k.aiMiddleware, op)
    ensures Replaced(op, OpsOf(s.pools, k.aiMiddleware, k.sender)) == Some(PendingOp(s.pools, k))
  {
    var m, a := k.aiMiddleware, k.sender;
    var prior := PendingOp(s.pools, k);
    assert Filed(PoolOf(s.pools, m), m);
    PriorIsRead(s, k, c);
    hide OpsOf, Pending, Index, PoolOk, Keyed, Indexed, OwnKeys, IsPending, PendingOp;
    forall o | o in OpsOf(s.pools, m, a) && o.nonce == op.nonce ensures o == prior {
      OpsOfIndex(s.pools, m, a, o);
      OpsOfIndex(s.pools, m, a, prior);
      assert KeyOf(m, o).sender == a;
      assert KeyOf(m, o) == k;
    }
    ReplacedIsTheOne(op, OpsOf(s.pools, m, a), prior);
  }

  lemma {:induction false} ReplacedByNonce(op: AiOperation, op': AiOperation, penOps: seq<AiOperation>)
    requires op.nonce == op'.nonce
    ensures Replaced(op, penOps) == Replaced(op', penOps)
    ensures (exists o :: o in penOps && o.nonce == op.nonce) ==> Replaced(op, penOps).Some?
    decreases |penOps|
  {
    if penOps != [] {
      var rest := penOps[..|penOps| - 1];
      assert penOps == rest + [penOps[|penOps| - 1]];
      ReplacedByNonce(op, op', rest);
    }
  }

  /** The check of replacements protects a pending operation if and only if the last operation of its
      nonce that is filed under its sender, its own or not, sets thresholds as high as its own would. */
  lemma OutbidsPriorIff(s: State, k: Key, c: Config)
    requires Invariant(s, c) && IsPending(s.pools, k)
    ensures var prior, ops := PendingOp(s.pools, k), OpsOf(s.pools, k.aiMiddleware, k.sender);
            var compared := Replaced(prior, ops);
            && compared.Some?
            && ((forall op | KeyOf(k.aiMiddleware, op) == k && PassesPendingOps(op, ops) :: Outbids(op, prior))
                <==> && NewThreshold(compared.value.maxFeePerGas) >= NewThreshold(prior.maxFeePerGas)
                     && NewThreshold(compared.value.maxPriorityFeePerGas) >= NewThreshold(prior.maxPriorityFeePerGas))
  {
    PriorIsRead(s, k, c);
    var prior, ops := PendingOp(s.pools, k), OpsOf(s.pools, k.aiMiddleware, k.sender);
    hide Invariant, IsPending, PendingOp, OpsOf, NewThreshold;
    ReplacedByNonce(prior, prior, ops);
    forall op | KeyOf(k.aiMiddleware, op) == k ensures Replaced(op, ops) == Replaced(prior, ops) {
      ReplacedByNonce(op, prior, ops);
    }
    var compared := Replaced(prior, ops).value;
    var cheapest := prior.(maxFeePerGas := NewThreshold(compared.maxFeePerGas),
                           maxPriorityFeePerGas := NewThreshold(compared.maxPriorityFeePerGas));
    assert KeyOf(k.aiMiddleware, cheapest) == k && PassesPendingOps(cheapest, ops);
  }

  /** A replacement is compared with the operation it replaces. */
  lemma ReplacementOutbids(s: State, m: Address, op: AiOperation, v: Verdicts, c: Config, rc: ReputationConstants)
    requires Invariant(s, c) && OwnIndex(s, op.sender)
    requires Accepts(Context(s.pools, m, op), v, rc)
    requires IsPending(s.pools, KeyOf(m, op))
    ensures Outbids(op, PendingOp(s.pools, KeyOf(m, op)))
  {
    hide Invariant, OwnIndex, IsPending, PendingOp, OpsOf, Outbids;
    ReplacementIsCompared(s, op, KeyOf(m, op), c);
    ComparedOutbids(s, m, op, v, rc, PendingOp(s.pools, KeyOf(m, op)));
  }

  lemma ComparedOutbids(s: State, m: Address, op: AiOperation, v: Verdicts, rc: ReputationConstants,
                        prior: AiOperation)
    requires Accepts(Context(s.pools, m, op), v, rc)
    requires Replaced(op, OpsOf(s.pools, m, op.sender)) == Some(prior)
    ensures Outbids(op, prior)
  {
    hide OpsOf, Outbids, PassesOpLimit, PassesInitCode;
  }

  // ---------------------------------------------------------------- one event

  predicate Replaces(s: State, e: Event, k: Key, rc: ReputationConstants) {
    Files(s, e, rc) && KeyOf(e.aiMiddleware, e.op) == k
  }

  /** An event that leaves a slot occupied either replaces its operation by one that outbids it, or
      leaves its fees as they are. */
  lemma EventAndFees(s: State, e: Event, c: Config, rc: ReputationConstants, k: Key)
    requires Invariant(s, c) && Possible(s, e)
    requires IsPending(s.pools, k) && IsPending(After(s, e, c, rc).pools, k)
    requires ComparedWithPrior(s, e, rc, k)
    ensures var op, op' := PendingOp(s.pools, k), PendingOp(After(s, e, c, rc).pools, k);
            if Replaces(s, e, k, rc) then Outbids(op', op) else SameFees(op', op)
  {
    match e
    case Submission(m, op, v, committed) =>
      hide Invariant, Submit, Accepts, Context, IsPending, PendingOp, Outbids, OpsOf, Replaced;
      SubmissionAndFees(s, m, op, v, committed, c, rc, k);
    case Removal(m, ops) =>
      hide Invariant, Step, IsPending, PendingOp;
      RemovalKeepsOp(s, m, ops, c, k);
    case Clearing => NothingPending();
    case Restarting(scan) =>
      hide Invariant, Step, IsPending, PendingOp;
      RestartReloads(s, scan, c);
      PrintedKeepsEntities(PendingOp(s.pools, k));
  }

  predicate SameFees(op: AiOperation, op': AiOperation) {
    op.maxFeePerGas == op'.maxFeePerGas && op.maxPriorityFeePerGas == op'.maxPriorityFeePerGas
  }

  lemma RemovalKeepsOp(s: State, m: Address, ops: seq<AiOperation>, c: Config, k: Key)
    requires Invariant(s, c)
    requires var t := Step(s, Action.Remove(m, ops), c); IsPending(s.pools, k) && IsPending(t.pools, k)
    ensures PendingOp(Step(s, Action.Remove(m, ops), c).pools, k) == PendingOp(s.pools, k)
  {
    hide Keyed, Indexed, OwnKeys, PoolOk, Pending, RemoveAllFromPool, DiskAgrees;
    if k.aiMiddleware == m {
      assert Filed(PoolOf(s.pools, m), m);
      RemoveAllKeepsFiled(PoolOf(s.pools, m), m, ops);
    }
  }

  lemma SubmissionAndFees(s: State, m: Address, op: AiOperation, v: Verdicts, committed: bool,
                          c: Config, rc: ReputationConstants, k: Key)
    requires Invariant(s, c) && op.sender != ZeroAddress()
    requires var t := Submit(s, m, op, v, committed, c, rc); IsPending(s.pools, k) && IsPending(t.pools, k)
    requires KeyOf(m, op) == k && committed && Accepts(Context(s.pools, m, op), v, rc) ==>
               Replaced(op, OpsOf(s.pools, m, op.sender)) == Some(PendingOp(s.pools, k))
    ensures var t := Submit(s, m, op, v, committed, c, rc); var prior := PendingOp(s.pools, k);
            if KeyOf(m, op) == k && committed && Accepts(Context(s.pools, m, op), v, rc)
            then PendingOp(t.pools, k) == op && Outbids(op, prior)
            else PendingOp(t.pools, k) == prior
  {
    hide Invariant, Submit, Accepts, Context, Pending, Outbids, ZeroAddress, OpsOf, Replaced;
    SubmitIndex(s, m, op, v, committed, c, rc, k.aiMiddleware, k.sender);
    if KeyOf(m, op) == k && committed && Accepts(Context(s.pools, m, op), v, rc) {
      ComparedOutbids(s, m, op, v, rc, PendingOp(s.pools, k));
    }
  }

  // ---------------------------------------------------------------- runs

  ghost predicate StaysOccupied(s: State, events: seq<Event>, c: Config, rc: ReputationConstants, k: Key)
    requires PossibleRun(s, events, c, rc)
    decreases |events|
  {
    && IsPending(s.pools, k)
    && (events == [] || StaysOccupied(After(s, events[0], c, rc), events[1..], c, rc, k))
  }

  ghost function Replacements(s: State, events: seq<Event>, c: Config, rc: ReputationConstants, k: Key): nat
    requires PossibleRun(s, events, c, rc)
    decreases |events|
  {
    if events == [] then 0
    else
      (if Replaces(s, events[0], k, rc) then 1 else 0)
      + Replacements(After(s, events[0], c, rc), events[1..], c, rc, k)
  }

  /** `fee` has grown from `first` through `n` replacements. */
  ghost predicate Grown(first: nat, fee: nat, n: nat) {
    fee >= first && Pow(10, n) * (fee - 9) >= Pow(11, n) * (first - 9)
  }

  lemma ScaleStep(a: nat, b: nat, x: int, y: int, z: int)
    requires a * z >= b * y && 10 * y >= 11 * x
    ensures (10 * a) * z >= (11 * b) * x
  {
    assert b * (10 * y) >= b * (11 * x);
    assert (10 * a) * z == 10 * (a * z);
    assert b * (10 * y) == 10 * (b * y);
    assert (11 * b) * x == b * (11 * x);
  }

  /** A first replacement followed by n more. */
  lemma GrowMore(first: nat, next: nat, fee: nat, n: nat)
    requires next >= NewThreshold(first) && Grown(next, fee, n)
    ensures Grown(first, fee, n + 1)
  {
    OneBump(first, next);
    ScaleStep(Pow(10, n), Pow(11, n), first - 9, next - 9, fee - 9);
    hide NewThreshold;
  }

  ghost predicate FeesGrown(first: AiOperation, last: AiOperation, n: nat) {
    && Grown(first.maxFeePerGas, last.maxFeePerGas, n)
    && Grown(first.maxPriorityFeePerGas, last.maxPriorityFeePerGas, n)
  }

  lemma NoReplacement(op: AiOperation)
    ensures FeesGrown(op, op, 0)
  {
  }

  lemma FeesGrowMore(first: AiOperation, next: AiOperation, last: AiOperation, n: nat, replaced: bool)
    requires if replaced then Outbids(next, first) else SameFees(next, first)
    requires FeesGrown(next, last, n)
    ensures FeesGrown(first, last, if replaced then n + 1 else n)
  {
    hide Grown, NewThreshold;
    if replaced {
      GrowMore(first.maxFeePerGas, next.maxFeePerGas, last.maxFeePerGas, n);
      GrowMore(first.maxPriorityFeePerGas, next.maxPriorityFeePerGas, last.maxPriorityFeePerGas, n);
    }
  }

  /** Over the run, whatever replaces the slot's operation was compared with it. */
  ghost predicate AlwaysCompared(s: State, events: seq<Event>, c: Config, rc: ReputationConstants, k: Key)
    requires PossibleRun(s, events, c, rc) && StaysOccupied(s, events, c, rc, k)
    decreases |events|
  {
    || events == []
    || (&& ComparedWithPrior(s, events[0], rc, k)
        && AlwaysCompared(After(s, events[0], c, rc), events[1..], c, rc, k))
  }

  /** Over every run during which a slot stays occupied and its operation is what each replacement is
      compared with: both fees only rise, and k replacements raise them 1.1^k times above 9. */
  lemma {:induction false} FeesGrow(s: State, events: seq<Event>, c: Config, rc: ReputationConstants, k: Key)
    requires Invariant(s, c) && PossibleRun(s, events, c, rc)
    requires StaysOccupied(s, events, c, rc, k) && AlwaysCompared(s, events, c, rc, k)
    ensures var t, n := AfterAll(s, events, c, rc), Replacements(s, events, c, rc, k);
            && IsPending(t.pools, k)
            && FeesGrown(PendingOp(s.pools, k), PendingOp(t.pools, k), n)
    decreases |events|
  {
    hide Invariant, IsPending, PendingOp, After, Replaces, ComparedWithPrior;
    hide FeesGrown, Outbids, SameFees;
    if events == [] {
      NoReplacement(PendingOp(s.pools, k));
    } else {
      var e := events[0];
      var u := After(s, e, c, rc);
      AfterKeepsInvariant(s, e, c, rc);
      EventAndFees(s, e, c, rc, k);
      FeesGrow(u, events[1..], c, rc, k);
      FeesGrowMore(PendingOp(s.pools, k), PendingOp(u.pools, k), PendingOp(AfterAll(s, events, c, rc).pools, k),
                   Replacements(u, events[1..], c, rc, k), Replaces(s, e, k, rc));
    }
  }

  lemma OwnIsCompared(s: State, e: Event, c: Config, rc: ReputationConstants, k: Key)
    requires Invariant(s, c) && OwnIndex(s, k.sender) && IsPending(s.pools, k)
    ensures ComparedWithPrior(s, e, rc, k)
  {
    hide Invariant, OwnIndex, IsPending, PendingOp, Accepts, Context, OpsOf, Replaced;
    if Replaces(s, e, k, rc) {
      ReplacementIsCompared(s, e.op, k, c);
    }
  }

  /** A sender that no accepted operation of others names has its replacements compared with its own. */
  lemma {:induction false} OwnAlwaysCompared(s: State, events: seq<Event>, c: Config, rc: ReputationConstants, k: Key)
    requires Invariant(s, c) && PossibleRun(s, events, c, rc)
    requires OwnIndex(s, k.sender) && OnlyEverSender(s, events, c, rc, k.sender)
    requires StaysOccupied(s, events, c, rc, k)
    ensures AlwaysCompared(s, events, c, rc, k)
    decreases |events|
  {
    hide Invariant, OwnIndex, After, OnlySender, IsPending, ComparedWithPrior;
    if events != [] {
      OwnIsCompared(s, events[0], c, rc, k);
      AfterKeepsInvariant(s, events[0], c, rc);
      EventKeepsOwnIndex(s, events[0], c, rc, k.sender);
      OwnAlwaysCompared(After(s, events[0], c, rc), events[1..], c, rc, k);
    }
  }

  lemma {:induction false} RunKeepsOwnIndex(s: State, events: seq<Event>, c: Config, rc: ReputationConstants,
                                            a: Address)
    requires Invariant(s, c) && PossibleRun(s, events, c, rc)
    requires OwnIndex(s, a) && OnlyEverSender(s, events, c, rc, a)
    ensures OwnIndex(AfterAll(s, events, c, rc), a)
    decreases |events|
  {
    hide Invariant, OwnIndex, After, OnlySender;
    if events != [] {
      AfterKeepsInvariant(s, events[0], c, rc);
      EventKeepsOwnIndex(s, events[0], c, rc, a);
      RunKeepsOwnIndex(After(s, events[0], c, rc), events[1..], c, rc, a);
    }
  }

  lemma EmptyOwnIndex(a: Address)
    ensures OwnIndex(EMPTY, a)
  {
  }

  /** From an empty mempool on, for a sender that no accepted operation of others names as factory or
      paymaster: once a slot is occupied, whatever happened before, its fees grow as said for as long as
      it stays occupied. */
  lemma FeesGrowInEveryRun(before: seq<Event>, events: seq<Event>, c: Config, rc: ReputationConstants, k: Key)
    requires PossibleRun(EMPTY, before, c, rc) && PossibleRun(AfterAll(EMPTY, before, c, rc), events, c, rc)
    requires OnlyEverSender(EMPTY, before, c, rc, k.sender)
    requires OnlyEverSender(AfterAll(EMPTY, before, c, rc), events, c, rc, k.sender)
    requires StaysOccupied(AfterAll(EMPTY, before, c, rc), events, c, rc, k)
    ensures var s := AfterAll(EMPTY, before, c, rc);
            var t, n := AfterAll(s, events, c, rc), Replacements(s, events, c, rc, k);
            && IsPending(s.pools, k) && IsPending(t.pools, k)
            && FeesGrown(PendingOp(s.pools, k), PendingOp(t.pools, k), n)
  {
    EmptyKeepsInvariant(c);
    EmptyOwnIndex(k.sender);
    hide Invariant, OwnIndex, OnlySender, After, IsPending, FeesGrown, PendingOp, Replaces, ComparedWithPrior;
    SubmissionRuns.EveryRunKeepsInvariant(EMPTY, before, c, rc);
    RunKeepsOwnIndex(EMPTY, before, c, rc, k.sender);
    OwnAlwaysCompared(AfterAll(EMPTY, before, c, rc), events, c, rc, k);
    FeesGrow(AfterAll(EMPTY, before, c, rc), events, c, rc, k);
  }
}
