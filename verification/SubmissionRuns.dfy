/** What holds over every sequential run of submissions, bundler removals, clearing and restarts:
    limits on unstaked addresses, and fees that only rise while a slot stays occupied. */
module SubmissionRuns {
  import opened Text
  import opened AiOp
  import opened DbKeys
  import opened SortedSets
  import opened MempoolQueue
  import opened Mempool
  import opened MempoolInvariants
  import opened PendingOps
  import opened Client

  datatype Event =
    | Submission(aiMiddleware: Address, op: AiOperation, verdicts: Verdicts, committed: bool)
    | Removal(aiMiddleware: Address, ops: seq<AiOperation>)
    | Clearing
    | Restarting(scan: seq<Key>)

  predicate Possible(s: State, e: Event) {
    match e
    case Submission(_, op, _, _) => op.sender != ZeroAddress()
    case Restarting(scan) => Scans(scan, s.disk)
    case _ => true
  }

  function After(s: State, e: Event, c: Config, rc: ReputationConstants): State
    requires Possible(s, e)
  {
    match e
    case Submission(m, op, v, committed) => Submit(s, m, op, v, committed, c, rc)
    case Removal(m, ops) => Step(s, Action.Remove(m, ops), c)
    case Clearing => EMPTY
    case Restarting(scan) => Step(s, Restart(scan), c)
  }

  ghost predicate PossibleRun(s: State, events: seq<Event>, c: Config, rc: ReputationConstants)
    decreases |events|
  {
    events == [] || (Possible(s, events[0]) && PossibleRun(After(s, events[0], c, rc), events[1..], c, rc))
  }

  ghost function AfterAll(s: State, events: seq<Event>, c: Config, rc: ReputationConstants): State
    requires PossibleRun(s, events, c, rc)
    decreases |events|
  {
    if events == [] then s else AfterAll(After(s, events[0], c, rc), events[1..], c, rc)
  }

  // ---------------------------------------------------------------- reading changes nothing

  lemma TouchIsAlike(pools: Pools, m: Address, a: Address)
    ensures Alike(Touch(pools, m, a), pools)
  {
  }

  lemma TouchAllIsAlike(pools: Pools, m: Address, op: AiOperation)
    ensures Alike(TouchAll(pools, m, op), pools)
  {
    hide Touch, GetFactory, GetPaymaster, EntitySet;
    var p1 := Touch(pools, m, op.sender);
    var p2 := Touch(p1, m, GetFactory(op));
    TouchIsAlike(pools, m, op.sender);
    TouchIsAlike(p1, m, GetFactory(op));
    TouchIsAlike(p2, m, GetPaymaster(op));
  }

  lemma SubmitKeepsInvariant(s: State, m: Address, op: AiOperation, v: Verdicts, committed: bool,
                             c: Config, rc: ReputationConstants)
    requires Invariant(s, c) && op.sender != ZeroAddress()
    ensures Invariant(Submit(s, m, op, v, committed, c, rc), c)
  {
    hide Invariant, TouchAll, Accepts, Step, ZeroAddress, Context;
    var read := s.(pools := TouchAll(s.pools, m, op));
    TouchAllIsAlike(s.pools, m, op);
    AlikeKeepsInvariant(s, TouchAll(s.pools, m, op), c);
    AddKeepsInvariant(read, m, op, c);
  }

  lemma AfterKeepsInvariant(s: State, e: Event, c: Config, rc: ReputationConstants)
    requires Invariant(s, c) && Possible(s, e)
    ensures Invariant(After(s, e, c, rc), c)
  {
    hide Invariant, Submit, Step;
    match e
    case Submission(m, op, v, committed) => SubmitKeepsInvariant(s, m, op, v, committed, c, rc);
    case Removal(m, ops) => RemoveKeepsInvariant(s, m, ops, c);
    case Clearing => EmptyKeepsInvariant(c);
    case Restarting(scan) => StepKeepsInvariant(s, Restart(scan), c);
  }

  // ---------------------------------------------------------------- what one event does to an index

  /** The number of operations filed under an address. */
  function Count(s: State, m: Address, a: Address): nat {
    |EntitySet(PoolOf(s.pools, m), a)|
  }

  lemma {:induction false} ReverseLength<T>(xs: seq<T>)
    ensures |Reverse(xs)| == |xs|
    decreases |xs|
  {
    if xs != [] {
      ReverseLength(xs[1..]);
    }
  }

  lemma CountIsLength(s: State, m: Address, a: Address)
    ensures |OpsOf(s.pools, m, a)| == Count(s, m, a)
  {
    hide Reverse, Values;
    var es := EntitySet(PoolOf(s.pools, m), a);
    ValuesAt(es);
    ReverseLength(Values(es));
  }

  lemma CountIsIndex(s: State, m: Address, a: Address, c: Config)
    requires Invariant(s, c)
    ensures Count(s, m, a) == |Index(PoolOf(s.pools, m), a)|
  {
    hide DiskAgrees, Keyed, Indexed, OwnKeys, Entries, Distinct;
    var p := PoolOf(s.pools, m);
    assert Filed(p, m);
    EmptyDistinct();
    CountEntries(EntitySet(p, a));
  }

  lemma SmallerIndex(p: map<Key, AiOperation>, q: map<Key, AiOperation>)
    requires p.Keys <= q.Keys
    ensures |p| <= |q|
  {
    SubsetSize(p.Keys, q.Keys);
  }

  lemma {:induction false} SubsetSize<T>(x: set<T>, y: set<T>)
    requires x <= y
    ensures |x| <= |y|
    decreases |x|
  {
    if x != {} {
      var e :| e in x;
      SubsetSize(x - {e}, y - {e});
    }
  }

  /** An accepted submission files its operation under the addresses it uses, and only there. */
  lemma SubmitIndex(s: State, m: Address, op: AiOperation, v: Verdicts, committed: bool,
                    c: Config, rc: ReputationConstants, x: Address, a: Address)
    requires Invariant(s, c) && op.sender != ZeroAddress()
    ensures var t := Submit(s, m, op, v, committed, c, rc); var key := KeyOf(m, op);
            var added := committed && Accepts(Context(s.pools, m, op), v, rc);
            && Index(PoolOf(t.pools, x), a) ==
               (if added && x == m && Uses(op, a) then Index(PoolOf(s.pools, x), a)[key := op]
                else Index(PoolOf(s.pools, x), a))
            && Pending(PoolOf(t.pools, x)) ==
               (if added && x == m then Pending(PoolOf(s.pools, x))[key := op]
                else Pending(PoolOf(s.pools, x)))
  {
    var pools := TouchAll(s.pools, m, op);
    TouchAllIsAlike(s.pools, m, op);
    assert Filed(PoolOf(s.pools, x), x);
    hide TouchAll, Accepts, Context, Pending, Index, AddToPool, Uses, Keyed, Indexed, OwnKeys, ZeroAddress,
         ToJson, DiskAgrees, SameContents;
    SameContentsAsMaps(PoolOf(pools, x), PoolOf(s.pools, x));
    if x == m {
      AddToPoolAsMaps(PoolOf(pools, m), m, op, c.order);
    }
  }

  lemma RemovalIndex(s: State, m: Address, ops: seq<AiOperation>, c: Config, x: Address, a: Address)
    requires Invariant(s, c)
    ensures var t := Step(s, Action.Remove(m, ops), c);
            && Index(PoolOf(t.pools, x), a).Keys <= Index(PoolOf(s.pools, x), a).Keys
            && (forall k | k in Index(PoolOf(t.pools, x), a) ::
                  Index(PoolOf(t.pools, x), a)[k] == Index(PoolOf(s.pools, x), a)[k])
  {
    hide Filed, RemoveAllFromPool, Index, DiskAgrees;
    if x == m {
      FiledIsOk(PoolOf(s.pools, m), m);
      RemoveAllShrinks(PoolOf(s.pools, m), m, ops, a);
    }
  }

  lemma {:induction false} RemoveAllShrinks(p: Pool, m: Address, ops: seq<AiOperation>, a: Address)
    requires PoolOk(p)
    ensures var r := RemoveAllFromPool(p, m, ops);
            Index(r, a).Keys <= Index(p, a).Keys && forall k | k in Index(r, a) :: Index(r, a)[k] == Index(p, a)[k]
    decreases |ops|
  {
    hide RemoveFromPool, Index, PoolOk, GetFactory, GetPaymaster;
    if ops != [] {
      RemoveFromPoolAsMaps(p, m, ops[0]);
      RemoveAllShrinks(RemoveFromPool(p, m, ops[0]), m, ops[1..], a);
    }
  }

  lemma RestartIndex(s: State, scan: seq<Key>, c: Config, x: Address, a: Address)
    requires Invariant(s, c) && Scans(scan, s.disk)
    ensures var t := Step(s, Restart(scan), c);
            Index(PoolOf(t.pools, x), a).Keys <= Index(PoolOf(s.pools, x), a).Keys
  {
    RestartReloads(s, scan, c);
    var t := Step(s, Restart(scan), c);
    var p, q := PoolOf(s.pools, x), PoolOf(t.pools, x);
    hide Step, Index, DiskAgrees, Load, Printed, OwnKeys, PoolOk, GetFactory, GetPaymaster, ZeroAddress;
    assert Exact(q) && Filed(q, x) && Filed(p, x);
    forall k | k in Index(q, a) ensures k in Index(p, a) {
      ExactAt(q, a, k);
      KeyOfPending(q, x, k);
      assert IsPending(t.pools, k) && IsPending(s.pools, k);
      PrintedKeepsEntities(PendingOp(s.pools, k));
      assert PendingOp(t.pools, k) == Printed(PendingOp(s.pools, k));
      assert Uses(PendingOp(s.pools, k), a);
      assert Holds(p, a, k);
    }
  }

  lemma KeyOfPending(p: Pool, m: Address, k: Key)
    requires Filed(p, m) && k in Pending(p)
    ensures k.aiMiddleware == m && k == KeyOf(m, Pending(p)[k])
  {
    hide Pending, Index, PoolOk;
  }

  // ---------------------------------------------------------------- limits on unstaked addresses

  /** The address is not staked at this event, and is used in the given role only: as a sender, or
      as a factory or paymaster. */
  predicate UnstakedSender(e: Event, a: Address) {
    e.Submission? ==>
      && !e.verdicts.staked(a)
      && (Uses(e.op, a) ==> e.op.sender == a)
  }

  predicate UnstakedEntity(e: Event, a: Address) {
    e.Submission? ==> !e.verdicts.staked(a) && e.op.sender != a
  }

  /** The address is not staked at this event, and `limit` is that of the role it is used in. */
  predicate LimitedTo(e: Event, a: Address, rc: ReputationConstants, limit: int) {
    e.Submission? ==>
      && !e.verdicts.staked(a)
      && (Uses(e.op, a) ==>
            limit == if e.op.sender == a then rc.sameSenderMempoolCount else rc.sameUnstakedEntityMempoolCount)
  }

  lemma RolesLimit(events: seq<Event>, a: Address, rc: ReputationConstants)
    ensures (forall e | e in events :: UnstakedSender(e, a)) ==>
              forall e | e in events :: LimitedTo(e, a, rc, rc.sameSenderMempoolCount)
    ensures (forall e | e in events :: UnstakedEntity(e, a)) ==>
              forall e | e in events :: LimitedTo(e, a, rc, rc.sameUnstakedEntityMempoolCount)
  {
    hide Uses;
  }

  /** A submission that files something new under an unstaked address found it below its limit. */
  lemma RefusedAtLimit(s: State, m: Address, op: AiOperation, v: Verdicts, rc: ReputationConstants,
                       a: Address, limit: int)
    requires Accepts(Context(s.pools, m, op), v, rc) && !v.staked(a) && Uses(op, a)
    requires if op.sender == a then limit == rc.sameSenderMempoolCount
             else limit == rc.sameUnstakedEntityMempoolCount
    ensures Count(s, m, a) != limit
  {
    hide OpsOf, GetFactory, GetPaymaster, ZeroAddress, PassesPendingOps, PassesInitCode, Count;
    CountIsLength(s, m, a);
  }

  ghost predicate WithinLimit(s: State, a: Address, limit: int) {
    forall m :: Count(s, m, a) <= limit
  }

  lemma EventKeepsLimit(s: State, e: Event, c: Config, rc: ReputationConstants, a: Address, limit: int)
    requires Invariant(s, c) && Possible(s, e) && limit >= 0 && WithinLimit(s, a, limit)
    requires LimitedTo(e, a, rc, limit)
    ensures WithinLimit(After(s, e, c, rc), a, limit)
  {
    var t := After(s, e, c, rc);
    AfterKeepsInvariant(s, e, c, rc);
    hide Invariant, Submit, Step, Accepts, Context, Count, Uses, ZeroAddress;
    forall x ensures Count(t, x, a) <= limit {
      var p, q := PoolOf(s.pools, x), PoolOf(t.pools, x);
      assert Count(s, x, a) <= limit;
      CountIsIndex(s, x, a, c);
      CountIsIndex(t, x, a, c);
      match e
      case Submission(m, op, v, committed) =>
        SubmitIndex(s, m, op, v, committed, c, rc, x, a);
        if committed && Accepts(Context(s.pools, m, op), v, rc) && x == m && Uses(op, a) {
          RefusedAtLimit(s, m, op, v, rc, a, limit);
        }
      case Removal(m, ops) =>
        RemovalIndex(s, m, ops, c, x, a);
        SmallerIndex(Index(q, a), Index(p, a));
      case Clearing => CountOfEmpty(x, a);
      case Restarting(scan) =>
        RestartIndex(s, scan, c, x, a);
        SmallerIndex(Index(q, a), Index(p, a));
    }
  }

  lemma CountOfEmpty(m: Address, a: Address)
    ensures Count(EMPTY, m, a) == 0
  {
  }

  /** Over every run, an address that is never staked and always used in roles of one limit has at most
      that many operations, although the check only refuses at exactly the limit. */
  lemma {:induction false} RunKeepsLimit(s: State, events: seq<Event>, c: Config, rc: ReputationConstants,
                                         a: Address, limit: int)
    requires Invariant(s, c) && PossibleRun(s, events, c, rc) && limit >= 0 && WithinLimit(s, a, limit)
    requires forall e | e in events :: LimitedTo(e, a, rc, limit)
    ensures WithinLimit(AfterAll(s, events, c, rc), a, limit)
    decreases |events|
  {
    hide Invariant, After, WithinLimit, LimitedTo;
    if events != [] {
      assert events[0] in events;
      AfterKeepsInvariant(s, events[0], c, rc);
      EventKeepsLimit(s, events[0], c, rc, a, limit);
      RunKeepsLimit(After(s, events[0], c, rc), events[1..], c, rc, a, limit);
    }
  }

  /** The operations pending for a middleware that use an address. */
  ghost function PendingFor(s: State, m: Address, a: Address): set<Key> {
    set k | k in Pending(PoolOf(s.pools, m)) && Uses(Pending(PoolOf(s.pools, m))[k], a)
  }

  /** What the limit means for the pool: no more operations than it allows use the address. */
  lemma LimitBoundsPending(s: State, m: Address, a: Address, c: Config, limit: int)
    requires Invariant(s, c) && WithinLimit(s, a, limit)
    ensures |PendingFor(s, m, a)| <= limit
  {
    CountIsIndex(s, m, a, c);
    var p := PoolOf(s.pools, m);
    assert Filed(p, m);
    hide Invariant, Pending, Index, Uses, PoolOk, Keyed, OwnKeys, Count;
    assert Count(s, m, a) <= limit;
    forall k | k in PendingFor(s, m, a) ensures k in Index(p, a) { assert Holds(p, a, k); }
    SubsetSize(PendingFor(s, m, a), Index(p, a).Keys);
  }

  lemma {:induction false} EveryRunKeepsInvariant(s: State, events: seq<Event>, c: Config, rc: ReputationConstants)
    requires Invariant(s, c) && PossibleRun(s, events, c, rc)
    ensures Invariant(AfterAll(s, events, c, rc), c)
    decreases |events|
  {
    hide Invariant, After;
    if events != [] {
      AfterKeepsInvariant(s, events[0], c, rc);
      EveryRunKeepsInvariant(After(s, events[0], c, rc), events[1..], c, rc);
    }
  }

  /** From an empty pool: never more than SameSenderMempoolCount pending operations for an unstaked
      address that is only a sender, never more than SameUnstakedEntityMempoolCount for one that is
      never a sender. */
  lemma UnstakedAddressesStayWithinLimits(events: seq<Event>, c: Config, rc: ReputationConstants,
                                          m: Address, a: Address)
    requires PossibleRun(EMPTY, events, c, rc)
    requires rc.sameSenderMempoolCount >= 0 && rc.sameUnstakedEntityMempoolCount >= 0
    ensures (forall e | e in events :: UnstakedSender(e, a)) ==>
              |PendingFor(AfterAll(EMPTY, events, c, rc), m, a)| <= rc.sameSenderMempoolCount
    ensures (forall e | e in events :: UnstakedEntity(e, a)) ==>
              |PendingFor(AfterAll(EMPTY, events, c, rc), m, a)| <= rc.sameUnstakedEntityMempoolCount
  {
    EmptyKeepsInvariant(c);
    forall x ensures Count(EMPTY, x, a) == 0 { CountOfEmpty(x, a); }
    RolesLimit(events, a, rc);
    hide Invariant, UnstakedSender, UnstakedEntity, LimitedTo, Count, PendingFor;
    EveryRunKeepsInvariant(EMPTY, events, c, rc);
    var t := AfterAll(EMPTY, events, c, rc);
    if forall e | e in events :: UnstakedSender(e, a) {
      RunKeepsLimit(EMPTY, events, c, rc, a, rc.sameSenderMempoolCount);
      LimitBoundsPending(t, m, a, c, rc.sameSenderMempoolCount);
    }
    if forall e | e in events :: UnstakedEntity(e, a) {
      RunKeepsLimit(EMPTY, events, c, rc, a, rc.sameUnstakedEntityMempoolCount);
      LimitBoundsPending(t, m, a, c, rc.sameUnstakedEntityMempoolCount);
    }
  }
}
