/** Addresses that are used both as a sender and as a factory or paymaster: what the limits and the
    check of replacements do not keep for them. */
module BothRoles {
  import opened Text
  import opened AiOp
  import opened DbKeys
  import opened SortedSets
  import opened MempoolQueue
  import opened Mempool
  import opened MempoolInvariants
  import opened PendingOps
  import opened Client
  import opened SubmissionRuns
  import opened FeeRuns

  // ---------------------------------------------------------------- limits

  /** An operation an address sends, and one it only pays for. */
  predicate Sends(own: AiOperation, a: Address) {
    own.sender == a && own.initCode == [] && GetPaymaster(own) != a
  }

  predicate PaysFor(foreign: AiOperation, a: Address) {
    foreign.sender != a && foreign.sender != ZeroAddress() && foreign.initCode == [] && GetPaymaster(foreign) == a
  }

  /** The role with the higher limit until it is reached, the other role from there on. */
  function NextOp(own: AiOperation, foreign: AiOperation, i: nat, rc: ReputationConstants): AiOperation {
    var sends := rc.sameSenderMempoolCount > rc.sameUnstakedEntityMempoolCount;
    var op := if (i < Max(rc)) == sends then own else foreign;
    op.(nonce := i)
  }

  function Max(rc: ReputationConstants): int {
    if rc.sameSenderMempoolCount > rc.sameUnstakedEntityMempoolCount then rc.sameSenderMempoolCount
    else rc.sameUnstakedEntityMempoolCount
  }

  /** Only the address is not staked, and every check but those of the mempool passes. */
  function Unstaked(a: Address): Verdicts {
    Verdicts(x => x != a, true)
  }

  /** Submissions number i up to n. */
  function Filling(own: AiOperation, foreign: AiOperation, m: Address, a: Address, i: nat, n: nat,
                   rc: ReputationConstants): seq<Event>
    requires i <= n
    decreases n - i
  {
    if i == n then []
    else
      [Submission(m, NextOp(own, foreign, i, rc), Unstaked(a), true)]
      + Filling(own, foreign, m, a, i + 1, n, rc)
  }

  /** After `i` submissions: each of them is pending and uses the address, and their nonces are below `i`. */
  ghost predicate Filled(s: State, m: Address, a: Address, i: nat, c: Config) {
    && Invariant(s, c) && Count(s, m, a) == i && |PendingFor(s, m, a)| == i
    && (forall k | k in Pending(PoolOf(s.pools, m)) :: k.nonce < i)
    && (forall x, k | k in Index(PoolOf(s.pools, m), x) :: k.nonce < i)
  }

  lemma {:induction false} NothingReplaced(op: AiOperation, penOps: seq<AiOperation>)
    requires forall o | o in penOps :: o.nonce != op.nonce
    ensures Replaced(op, penOps) == None
    decreases |penOps|
  {
    if penOps != [] {
      NothingReplaced(op, penOps[..|penOps| - 1]);
    }
  }

  lemma NewNoncePasses(s: State, m: Address, a: Address, op: AiOperation, i: nat, c: Config)
    requires Filled(s, m, a, i, c) && op.nonce == i
    ensures PassesPendingOps(op, OpsOf(s.pools, m, op.sender))
  {
    assert Filed(PoolOf(s.pools, m), m);
    hide OpsOf, Filed, DiskAgrees, Pending, Index, PendingFor, Count;
    forall o | o in OpsOf(s.pools, m, op.sender) ensures o.nonce != op.nonce {
      OpsOfIndex(s.pools, m, op.sender, o);
      assert KeyOf(m, o).nonce < i;
    }
    NothingReplaced(op, OpsOf(s.pools, m, op.sender));
  }

  lemma NoInitCode(op: AiOperation)
    requires op.initCode == []
    ensures GetFactory(op) == ZeroAddress() && PassesInitCode(op)
  {
  }

  lemma NextIsAccepted(s: State, m: Address, a: Address, own: AiOperation, foreign: AiOperation, i: nat,
                       c: Config, rc: ReputationConstants)
    requires Filled(s, m, a, i, c) && Sends(own, a) && PaysFor(foreign, a) && a != ZeroAddress()
    requires rc.sameSenderMempoolCount != rc.sameUnstakedEntityMempoolCount
    ensures var op := NextOp(own, foreign, i, rc);
            op.nonce == i && op.sender != ZeroAddress() && Uses(op, a)
            && Accepts(Context(s.pools, m, op), Unstaked(a), rc)
  {
    var op := NextOp(own, foreign, i, rc);
    hide ZeroAddress, GetFactory, OpsOf, Invariant, Pending, Index, PendingFor, Count;
    NewNoncePasses(s, m, a, op, i, c);
    NoInitCode(op);
    CountIsLength(s, m, a);
    assert GetPaymaster(op) == if op.sender == a then GetPaymaster(own) else a;
    hide GetPaymaster, PassesPendingOps;
  }

  /** What an accepted submission does to the maps of its middleware. */
  ghost predicate SetsOne(s: State, t: State, m: Address, op: AiOperation) {
    var p, q, key := PoolOf(s.pools, m), PoolOf(t.pools, m), KeyOf(m, op);
    && Pending(q) == Pending(p)[key := op]
    && forall x :: Index(q, x) == if Uses(op, x) then Index(p, x)[key := op] else Index(p, x)
  }

  lemma SubmissionFiles(s: State, m: Address, op: AiOperation, v: Verdicts, c: Config, rc: ReputationConstants)
    requires Invariant(s, c) && op.sender != ZeroAddress() && Accepts(Context(s.pools, m, op), v, rc)
    ensures var t := Submit(s, m, op, v, true, c, rc); SetsOne(s, t, m, op) && Invariant(t, c)
  {
    hide Invariant, Submit, Accepts, Context, Pending, Index, Uses, ZeroAddress, PoolOf;
    SubmitKeepsInvariant(s, m, op, v, true, c, rc);
    SubmitIndex(s, m, op, v, true, c, rc, m, op.sender);
    var t := Submit(s, m, op, v, true, c, rc);
    forall x
      ensures Index(PoolOf(t.pools, m), x) == if Uses(op, x) then Index(PoolOf(s.pools, m), x)[KeyOf(m, op) := op]
                                              else Index(PoolOf(s.pools, m), x)
    {
      SubmitIndex(s, m, op, v, true, c, rc, m, x);
    }
  }

  lemma OneMoreFilled(s: State, t: State, m: Address, a: Address, op: AiOperation, i: nat, c: Config)
    requires Filled(s, m, a, i, c) && op.nonce == i && Uses(op, a)
    requires SetsOne(s, t, m, op) && Invariant(t, c)
    ensures Filled(t, m, a, i + 1, c)
  {
    var key := KeyOf(m, op);
    hide Invariant, Pending, Index, Uses, Count, PoolOf;
    CountIsIndex(s, m, a, c);
    CountIsIndex(t, m, a, c);
    assert key !in Index(PoolOf(s.pools, m), a) && key !in Pending(PoolOf(s.pools, m));
    assert PendingFor(t, m, a) == PendingFor(s, m, a) + {key};
  }

  lemma SubmissionFills(s: State, m: Address, a: Address, op: AiOperation, v: Verdicts, i: nat, c: Config,
                        rc: ReputationConstants)
    requires Filled(s, m, a, i, c) && op.nonce == i && op.sender != ZeroAddress() && Uses(op, a)
    requires Accepts(Context(s.pools, m, op), v, rc)
    ensures Filled(Submit(s, m, op, v, true, c, rc), m, a, i + 1, c)
  {
    assert Invariant(s, c);
    hide Filled, SetsOne, Invariant, Submit, Accepts, Context, Uses, ZeroAddress;
    SubmissionFiles(s, m, op, v, c, rc);
    OneMoreFilled(s, Submit(s, m, op, v, true, c, rc), m, a, op, i, c);
  }

  lemma OneMoreEvent(s: State, e: Event, rest: seq<Event>, a: Address, c: Config, rc: ReputationConstants)
    requires Possible(s, e) && PossibleRun(After(s, e, c, rc), rest, c, rc) && NeverStaked(rest, a)
    requires e.Submission? && !e.verdicts.staked(a)
    ensures PossibleRun(s, [e] + rest, c, rc) && NeverStaked([e] + rest, a)
    ensures AfterAll(s, [e] + rest, c, rc) == AfterAll(After(s, e, c, rc), rest, c, rc)
  {
    hide After, Possible;
    assert ([e] + rest)[1..] == rest;
  }

  lemma {:induction false} FillingFills(s: State, m: Address, a: Address, own: AiOperation, foreign: AiOperation,
                                        i: nat, n: nat, c: Config, rc: ReputationConstants)
    requires i <= n && Filled(s, m, a, i, c) && Sends(own, a) && PaysFor(foreign, a) && a != ZeroAddress()
    requires rc.sameSenderMempoolCount != rc.sameUnstakedEntityMempoolCount
    ensures var events := Filling(own, foreign, m, a, i, n, rc);
            && PossibleRun(s, events, c, rc) && NeverStaked(events, a)
            && Filled(AfterAll(s, events, c, rc), m, a, n, c)
    decreases n - i
  {
    hide Filled, Sends, PaysFor, NextOp, Accepts, Context, Submit, Uses, ZeroAddress, PoolOf;
    if i < n {
      var op := NextOp(own, foreign, i, rc);
      var e := Submission(m, op, Unstaked(a), true);
      var rest := Filling(own, foreign, m, a, i + 1, n, rc);
      NextIsAccepted(s, m, a, own, foreign, i, c, rc);
      SubmissionFills(s, m, a, op, Unstaked(a), i, c, rc);
      FillingFills(After(s, e, c, rc), m, a, own, foreign, i + 1, n, c, rc);
      OneMoreEvent(s, e, rest, a, c, rc);
    }
  }

  ghost predicate NeverStaked(events: seq<Event>, a: Address) {
    forall e | e in events && e.Submission? :: !e.verdicts.staked(a)
  }

  lemma EmptyFilled(m: Address, a: Address, c: Config)
    ensures Filled(EMPTY, m, a, 0, c)
  {
    EmptyKeepsInvariant(c);
    assert PendingFor(EMPTY, m, a) == {};
  }

  /** With two different limits, as far as they go, an unstaked address that takes both roles can have any
      number of operations pending: once the higher limit is reached in its role, each further one in the other role
      finds the count past the lower limit, and neither check refuses a count past its limit. */
  lemma NoLimitForBothRoles(m: Address, a: Address, own: AiOperation, foreign: AiOperation, n: nat, c: Config,
                            rc: ReputationConstants)
    requires Sends(own, a) && PaysFor(foreign, a) && a != ZeroAddress()
    requires rc.sameSenderMempoolCount != rc.sameUnstakedEntityMempoolCount
    ensures exists events ::
              && PossibleRun(EMPTY, events, c, rc) && NeverStaked(events, a)
              && |PendingFor(AfterAll(EMPTY, events, c, rc), m, a)| == n
  {
    hide Sends, PaysFor, Invariant, PendingFor, NeverStaked, ZeroAddress;
    EmptyFilled(m, a, c);
    FillingFills(EMPTY, m, a, own, foreign, 0, n, c, rc);
    var events := Filling(own, foreign, m, a, 0, n, rc);
    assert PossibleRun(EMPTY, events, c, rc);
  }

  /** Equal limits hold in whatever roles an address is used. */
  lemma EqualLimitsHold(events: seq<Event>, m: Address, a: Address, c: Config, rc: ReputationConstants)
    requires PossibleRun(EMPTY, events, c, rc) && NeverStaked(events, a)
    requires rc.sameSenderMempoolCount == rc.sameUnstakedEntityMempoolCount >= 0
    ensures |PendingFor(AfterAll(EMPTY, events, c, rc), m, a)| <= rc.sameSenderMempoolCount
  {
    var limit := rc.sameSenderMempoolCount;
    EmptyKeepsInvariant(c);
    forall x ensures Count(EMPTY, x, a) == 0 { CountOfEmpty(x, a); }
    forall e | e in events ensures LimitedTo(e, a, rc, limit) {}
    hide Invariant, LimitedTo, Count, PendingFor;
    SubmissionRuns.EveryRunKeepsInvariant(EMPTY, events, c, rc);
    RunKeepsLimit(EMPTY, events, c, rc, a, limit);
    LimitBoundsPending(AfterAll(EMPTY, events, c, rc), m, a, c, limit);
  }

  /** The pending operations that use a never-staked address stay within the higher of the two limits over
      every run if and only if the limits are equal. */
  lemma BothRolesWithinLimitIff(m: Address, a: Address, own: AiOperation, foreign: AiOperation, c: Config,
                                rc: ReputationConstants)
    requires Sends(own, a) && PaysFor(foreign, a) && a != ZeroAddress()
    requires rc.sameSenderMempoolCount >= 0 && rc.sameUnstakedEntityMempoolCount >= 0
    ensures (forall events | PossibleRun(EMPTY, events, c, rc) && NeverStaked(events, a) ::
               |PendingFor(AfterAll(EMPTY, events, c, rc), m, a)| <= Max(rc))
            <==> rc.sameSenderMempoolCount == rc.sameUnstakedEntityMempoolCount
  {
    hide PossibleRun, AfterAll, NeverStaked, PendingFor, Sends, PaysFor, ZeroAddress;
    if rc.sameSenderMempoolCount == rc.sameUnstakedEntityMempoolCount {
      forall events | PossibleRun(EMPTY, events, c, rc) && NeverStaked(events, a)
        ensures |PendingFor(AfterAll(EMPTY, events, c, rc), m, a)| <= Max(rc)
      {
        EqualLimitsHold(events, m, a, c, rc);
      }
    } else {
      NoLimitForBothRoles(m, a, own, foreign, Max(rc) + 1, c, rc);
    }
  }

  // ---------------------------------------------------------------- replacements

  /** What an accepted submission without a factory does to one address's set. */
  lemma SubmissionFilesUnder(s: State, m: Address, op: AiOperation, v: Verdicts, c: Config,
                             rc: ReputationConstants, a: Address)
    requires op.sender != ZeroAddress() && op.initCode == [] && GetPaymaster(op) != op.sender
    requires Accepts(Context(s.pools, m, op), v, rc) && a != ZeroAddress()
    ensures var t := Submit(s, m, op, v, true, c, rc);
            var es := EntitySet(PoolOf(s.pools, m), a);
            EntitySet(PoolOf(t.pools, m), a) ==
            if a == op.sender then AddOrUpdate(es, KeyOf(m, op), c.order.nonceScore(op.nonce), op, c.order.less)
            else if a == GetPaymaster(op) then AddOrUpdate(es, KeyOf(m, op), |es|, op, c.order.less)
            else es
  {
    TouchAllIsAlike(s.pools, m, op);
    NoInitCode(op);
    hide TouchAll, Accepts, Context, GetFactory, GetPaymaster, ZeroAddress, AddOrUpdate, PassesInitCode, ToJson;
    assert SameContents(PoolOf(TouchAll(s.pools, m, op), m), PoolOf(s.pools, m));
    AddsUnder(PoolOf(TouchAll(s.pools, m, op), m), m, op, c.order, a);
    hide AddToPool, EntitySet;
  }

  lemma AddsUnder(p: Pool, m: Address, op: AiOperation, order: Order, a: Address)
    requires GetFactory(op) == ZeroAddress() && GetPaymaster(op) != op.sender && a != ZeroAddress()
    ensures var es := EntitySet(p, a);
            EntitySet(AddToPool(p, m, op, order), a) ==
            if a == op.sender then AddOrUpdate(es, KeyOf(m, op), order.nonceScore(op.nonce), op, order.less)
            else if a == GetPaymaster(op) then AddOrUpdate(es, KeyOf(m, op), |es|, op, order.less)
            else es
  {
    hide GetFactory, GetPaymaster, ZeroAddress, AddOrUpdate;
  }

  lemma AddToEmpty(key: Key, score: int, op: AiOperation, less: Less)
    ensures AddOrUpdate([], key, score, op, less) == [Node(key, score, op)]
  {
  }

  lemma AddBefore(n: Node<AiOperation>, key: Key, score: int, op: AiOperation, less: Less)
    requires key != n.key && score < n.score
    ensures AddOrUpdate([n], key, score, op, less) == [Node(key, score, op), n]
  {
    assert SortedSets.Remove([n], key) == [n] + SortedSets.Remove([], key) == [n];
  }

  lemma ReadTwo(first: Node<AiOperation>, second: Node<AiOperation>)
    ensures Reverse(Values([first])) == [first.value]
    ensures Reverse(Values([first, second])) == [second.value, first.value]
  {
    assert [second][1..] == [] && [first][1..] == [];
    assert Values([second]) == [second.value] + Values([]) == [second.value];
    assert [first, second][1..] == [second];
    assert Values([first, second]) == [first.value, second.value];
    assert [first.value, second.value][1..] == [second.value];
    assert Reverse([second.value]) == Reverse([]) + [second.value] == [second.value];
  }

  /** Every address is staked, and every check but those of the mempool passes. */
  function AllStaked(): Verdicts {
    Verdicts(_ => true, true)
  }

  /** Two operations of one nonce, the second by another sender with the first one's sender as paymaster,
      and one that replaces the first but is cheap. */
  predicate SharesNonce(own: AiOperation, foreign: AiOperation, cheap: AiOperation) {
    && own.sender != ZeroAddress() && own.initCode == [] && GetPaymaster(own) == ZeroAddress()
    && foreign.sender != ZeroAddress() && foreign.initCode == [] && GetPaymaster(foreign) == own.sender
    && cheap.sender == own.sender && cheap.initCode == [] && GetPaymaster(cheap) == ZeroAddress()
    && foreign.sender != own.sender && own.nonce == foreign.nonce == cheap.nonce
    && Outbids(cheap, foreign) && !Outbids(cheap, own)
  }

  lemma AllStakedAccepts(s: State, m: Address, op: AiOperation, rc: ReputationConstants)
    requires op.initCode == [] && PassesPendingOps(op, OpsOf(s.pools, m, op.sender))
    ensures Accepts(Context(s.pools, m, op), AllStaked(), rc)
  {
    hide PassesPendingOps, OpsOf, GetFactory, GetPaymaster, ZeroAddress;
    NoInitCode(op);
  }

  ghost predicate Holding(s: State, m: Address, a: Address, nodes: seq<Node<AiOperation>>) {
    EntitySet(PoolOf(s.pools, m), a) == nodes
  }

  lemma NoneRead(s: State, m: Address, op: AiOperation)
    requires Holding(s, m, op.sender, [])
    ensures PassesPendingOps(op, OpsOf(s.pools, m, op.sender))
  {
    assert OpsOf(s.pools, m, op.sender) == [];
  }

  lemma TwoRead(s: State, m: Address, op: AiOperation, first: Node<AiOperation>, second: Node<AiOperation>)
    requires Holding(s, m, op.sender, [first, second]) && first.value.nonce == op.nonce && Outbids(op, first.value)
    ensures PassesPendingOps(op, OpsOf(s.pools, m, op.sender))
  {
    hide Outbids, Reverse, Values;
    ReadTwo(first, second);
    var penOps := [second.value, first.value];
    assert OpsOf(s.pools, m, op.sender) == penOps;
    assert penOps[|penOps| - 1] == first.value;
  }

  lemma HoldsNothing(m: Address, a: Address)
    ensures Holding(EMPTY, m, a, [])
  {
  }

  /** The operation a sender has pending, filed under it behind one that it pays for. */
  ghost predicate ForeignFirst(s: State, m: Address, own: AiOperation, foreign: AiOperation, c: Config) {
    var k, score := KeyOf(m, own), c.order.nonceScore(own.nonce);
    && Invariant(s, c) && IsPending(s.pools, k) && PendingOp(s.pools, k) == own
    && Holding(s, m, own.sender, [Node(KeyOf(m, foreign), 1, foreign), Node(k, score, own)])
  }

  lemma OwnComesFirst(m: Address, own: AiOperation, foreign: AiOperation, cheap: AiOperation, c: Config,
                      rc: ReputationConstants)
    requires SharesNonce(own, foreign, cheap)
    ensures var s := Submit(EMPTY, m, own, AllStaked(), true, c, rc);
            && Invariant(s, c) && IsPending(s.pools, KeyOf(m, own)) && PendingOp(s.pools, KeyOf(m, own)) == own
            && Holding(s, m, own.sender, [Node(KeyOf(m, own), c.order.nonceScore(own.nonce), own)])
            && Holding(s, m, foreign.sender, [])
  {
    var a, score, v := own.sender, c.order.nonceScore(own.nonce), AllStaked();
    EmptyKeepsInvariant(c);
    HoldsNothing(m, a);
    HoldsNothing(m, foreign.sender);
    hide GetPaymaster, ZeroAddress, Outbids, Accepts, Context, Invariant, Submit, OpsOf, AddOrUpdate, AllStaked,
         Pending, PoolOf, EntitySet, Index, Uses, PassesPendingOps;
    NoneRead(EMPTY, m, own);
    AllStakedAccepts(EMPTY, m, own, rc);
    SubmissionFilesUnder(EMPTY, m, own, v, c, rc, a);
    SubmissionFilesUnder(EMPTY, m, own, v, c, rc, foreign.sender);
    AddToEmpty(KeyOf(m, own), score, own, c.order.less);
    SubmitKeepsInvariant(EMPTY, m, own, v, true, c, rc);
    SubmitIndex(EMPTY, m, own, v, true, c, rc, m, a);
  }

  lemma ForeignComesNext(s: State, m: Address, own: AiOperation, foreign: AiOperation, cheap: AiOperation, c: Config,
                         rc: ReputationConstants)
    requires SharesNonce(own, foreign, cheap) && c.order.nonceScore(own.nonce) > 1
    requires Invariant(s, c) && IsPending(s.pools, KeyOf(m, own)) && PendingOp(s.pools, KeyOf(m, own)) == own
    requires Holding(s, m, own.sender, [Node(KeyOf(m, own), c.order.nonceScore(own.nonce), own)])
    requires Holding(s, m, foreign.sender, [])
    ensures ForeignFirst(Submit(s, m, foreign, AllStaked(), true, c, rc), m, own, foreign, c)
  {
    var n, v := Node(KeyOf(m, own), c.order.nonceScore(own.nonce), own), AllStaked();
    hide GetPaymaster, ZeroAddress, Outbids, Accepts, Context, Invariant, Submit, OpsOf, AddOrUpdate, AllStaked,
         Pending, PoolOf, EntitySet, Index, Uses, PassesPendingOps;
    NoneRead(s, m, foreign);
    AllStakedAccepts(s, m, foreign, rc);
    SubmissionFilesUnder(s, m, foreign, v, c, rc, own.sender);
    AddBefore(n, KeyOf(m, foreign), 1, foreign, c.order.less);
    SubmitKeepsInvariant(s, m, foreign, v, true, c, rc);
    SubmitIndex(s, m, foreign, v, true, c, rc, m, own.sender);
  }

  lemma CheapReplaces(s: State, m: Address, own: AiOperation, foreign: AiOperation, cheap: AiOperation, c: Config,
                      rc: ReputationConstants)
    requires SharesNonce(own, foreign, cheap) && ForeignFirst(s, m, own, foreign, c)
    ensures var t := Submit(s, m, cheap, AllStaked(), true, c, rc);
            IsPending(t.pools, KeyOf(m, own)) && PendingOp(t.pools, KeyOf(m, own)) == cheap
  {
    hide GetPaymaster, ZeroAddress, Outbids, Accepts, Context, Invariant, Submit, OpsOf, AllStaked,
         Pending, PoolOf, EntitySet, Index, Uses, PassesPendingOps;
    TwoRead(s, m, cheap, Node(KeyOf(m, foreign), 1, foreign),
            Node(KeyOf(m, own), c.order.nonceScore(own.nonce), own));
    AllStakedAccepts(s, m, cheap, rc);
    SubmitIndex(s, m, cheap, AllStaked(), true, c, rc, m, own.sender);
  }

  /** That the fees of a slot only grow needs its sender to be nobody else's paymaster: the operation of
      another sender with the same nonce is filed behind the sender's own, since its score is the count of
      the set and not its nonce, and the replacement is compared with that one. */
  lemma ForeignOperationIsCompared(m: Address, own: AiOperation, foreign: AiOperation, cheap: AiOperation, c: Config,
                                   rc: ReputationConstants)
    requires SharesNonce(own, foreign, cheap) && c.order.nonceScore(own.nonce) > 1
    ensures var s1 := Submit(EMPTY, m, own, AllStaked(), true, c, rc);
            var s2 := Submit(s1, m, foreign, AllStaked(), true, c, rc);
            var s3 := Submit(s2, m, cheap, AllStaked(), true, c, rc);
            var k := KeyOf(m, own);
            && IsPending(s2.pools, k) && PendingOp(s2.pools, k) == own
            && IsPending(s3.pools, k) && PendingOp(s3.pools, k) == cheap && !Outbids(cheap, own)
  {
    hide ZeroAddress, Submit, AllStaked, Invariant, IsPending, PendingOp, Outbids, GetPaymaster, Holding;
    var s1 := Submit(EMPTY, m, own, AllStaked(), true, c, rc);
    var s2 := Submit(s1, m, foreign, AllStaked(), true, c, rc);
    OwnComesFirst(m, own, foreign, cheap, c, rc);
    ForeignComesNext(s1, m, own, foreign, cheap, c, rc);
    CheapReplaces(s2, m, own, foreign, cheap, c, rc);
  }
}
