/** A bundler run (pkg/bundler/bundler.go): dump the mempool, hand the batch from module to module,
    and take what was sent or removed out of the mempool. */
module Bundler {
  import opened Text
  import opened AiOp
  import opened DbKeys
  import opened SortedSets
  import opened MempoolQueue
  import opened Mempool
  import opened MempoolInvariants
  import opened BatchContext
  import opened Expire
  import opened GasPrices
  import opened BatchChecks
  import opened Relayer
  import Reputation

  /** The batch itself, or as much of its beginning as a positive maximum allows. */
  function AdjustBatchSize(max: int, batch: seq<AiOperation>): (adjusted: seq<AiOperation>)
    ensures adjusted <= batch
    ensures |adjusted| == |batch| || |adjusted| == max
    ensures if max <= 0 then |adjusted| == |batch| else |adjusted| <= max
  {
    if |batch| > max && max > 0 then batch[..max] else batch
  }

  /** What the node, the databases and the clock answer during one run; an outer None is an error, and
      the flags say whether a transaction or a write succeeds. `clock(i)` is the time when DropExpired
      reaches position i, `now` the time when the batch is counted. */
  datatype World = World(
    baseFee: Option<Option<nat>>,
    tip: Option<nat>,
    gasPrice: Option<Option<nat>>,
    clock: nat -> int,
    now: int,
    hash: Hasher,
    staticGas: StaticGas,
    codeAt: CodeAt,
    deposits: Deposits,
    estimates: seq<Estimate>,
    sent: bool,
    counted: bool,
    cleaned: bool,
    removed: bool)

  /** If a transaction was sent, `txn` is what it contains. */
  datatype RunResult =
    | Idle
    | Failed(txn: Option<seq<AiOperation>>)
    | Done(ctx: BatchHandlerCtx, txn: Option<seq<AiOperation>>)

  /** Some order of the batch: the comparator only orders operations of one sender, which is no strict
      weak order, so the library's sort promises no more than a permutation. */
  method SortByNonce(ctx: BatchHandlerCtx)
    modifies ctx
    ensures multiset(ctx.batch) == multiset(old(ctx.batch)) && ctx.pendingRemoval == old(ctx.pendingRemoval)
  {
    var sorted: seq<AiOperation> :| multiset(sorted) == multiset(ctx.batch);
    ctx.batch := sorted;
  }

  // ---------------------------------------------------------------- conservation through the modules

  lemma ReorderedConserves(b: seq<AiOperation>, b': seq<AiOperation>, items: seq<PendingRemovalItem>)
    requires multiset(b') <= multiset(b)
    ensures Conserves(b, items, b', items)
  {
    hide OpsOfItems;
  }

  lemma AccountsConserves(b: seq<AiOperation>, p: seq<PendingRemovalItem>, b': seq<AiOperation>,
                          p': seq<PendingRemovalItem>)
    requires Accounts(b, p, b', p')
    ensures Conserves(b, p, b', p')
  {
    hide OpsOfItems;
  }

  lemma PrefixIsPart(b: seq<AiOperation>, n: nat)
    requires n <= |b|
    ensures multiset(b[..n]) <= multiset(b)
  {
    assert b == b[..n] + b[n..];
  }

  lemma PricingConserves(b: seq<AiOperation>, sorted: seq<AiOperation>, items: seq<PendingRemovalItem>,
                         baseFee: Option<nat>, tip: Option<nat>, gasPrice: Option<nat>)
    requires multiset(sorted) == multiset(b)
    ensures Conserves(b, items, Affordables(sorted, baseFee, tip, gasPrice), items)
  {
    hide Affordables, Conserves;
    AffordablesConserve(sorted, baseFee, tip, gasPrice);
    ReorderedConserves(b, Affordables(sorted, baseFee, tip, gasPrice), items);
  }

  // ---------------------------------------------------------------- what the modules do, in order

  function Times(batch: seq<AiOperation>, w: World): seq<int> {
    seq(|batch|, i requires 0 <= i < |batch| => w.clock(i))
  }

  /** Expired operations are marked; the others are sorted by price and filtered, put in some order, and
      cut off at the gas limit. */
  ghost predicate Selection(batch: seq<AiOperation>, items: seq<PendingRemovalItem>, seen: SeenAt, ttl: int,
                            ctx: BatchHandlerCtx, limit: int, w: World,
                            batch': seq<AiOperation>, items': seq<PendingRemovalItem>)
  {
    var drop := Expired(batch, Times(batch, w), w.hash, seen, ttl);
    && items' == items + ItemsBackward(Dropped(batch, drop), EXPIRED)
    && exists sorted, ordered, n: nat ::
         && PriceSorted(Kept(batch, drop), sorted, ctx.baseFee, ctx.gasPrice)
         && multiset(ordered) == multiset(Affordables(sorted, ctx.baseFee, ctx.tip, ctx.gasPrice))
         && LongestBelow(ordered, n, w.staticGas, limit) && batch' == ordered[..n]
  }

  lemma Selects(batch: seq<AiOperation>, items: seq<PendingRemovalItem>, seen: SeenAt, ttl: int,
                ctx: BatchHandlerCtx, limit: int, w: World, drop: seq<bool>, sorted: seq<AiOperation>,
                ordered: seq<AiOperation>, batch': seq<AiOperation>)
    requires drop == Expired(batch, Times(batch, w), w.hash, seen, ttl)
    requires PriceSorted(Kept(batch, drop), sorted, ctx.baseFee, ctx.gasPrice)
    requires multiset(ordered) == multiset(Affordables(sorted, ctx.baseFee, ctx.tip, ctx.gasPrice))
    requires exists n: nat :: LongestBelow(ordered, n, w.staticGas, limit) && batch' == ordered[..n]
    ensures Selection(batch, items, seen, ttl, ctx, limit, w, batch',
                      items + ItemsBackward(Dropped(batch, drop), EXPIRED))
  {
    hide PriceSorted, Kept, Dropped, ItemsBackward, Affordables, Expired, TotalGas;
  }

  /** Operations whose code has changed are marked, then those found to overdraw a paymaster, then those
      the estimates blame; the rest is sent unless nothing is left. */
  ghost predicate Sending(batch: seq<AiOperation>, items: seq<PendingRemovalItem>, db: CodeHashes, w: World,
                          batch': seq<AiOperation>, items': seq<PendingRemovalItem>,
                          txn: Option<seq<AiOperation>>)
  {
    var drop := Changed(db, batch, w.hash, w.codeAt);
    var kept, removed := Kept(batch, drop), items + ItemsBackward(Dropped(batch, drop), CODE_CHANGED);
    exists paid, unpaid ::
      && MarkedTo(|kept|, kept, removed, w.deposits, paid, unpaid)
      && var e := AfterEstimates(paid, unpaid, w.estimates);
      && e.settled && batch' == e.batch && items' == e.items
      && (batch' != [] ==> w.sent) && txn == if batch' != [] then Some(paid) else None
  }

  lemma Sends(batch: seq<AiOperation>, items: seq<PendingRemovalItem>, db: CodeHashes, w: World,
              kept: seq<AiOperation>, removed: seq<PendingRemovalItem>, paid: seq<AiOperation>,
              unpaid: seq<PendingRemovalItem>, batch': seq<AiOperation>, items': seq<PendingRemovalItem>,
              txn: Option<seq<AiOperation>>)
    requires var drop := Changed(db, batch, w.hash, w.codeAt);
             kept == Kept(batch, drop) && removed == items + ItemsBackward(Dropped(batch, drop), CODE_CHANGED)
    requires MarkedTo(|kept|, kept, removed, w.deposits, paid, unpaid)
    requires var e := AfterEstimates(paid, unpaid, w.estimates);
             && e.settled && batch' == e.batch && items' == e.items
             && (batch' != [] ==> w.sent) && txn == if batch' != [] then Some(paid) else None
    ensures Sending(batch, items, db, w, batch', items', txn)
  {
    hide Kept, Dropped, ItemsBackward, Changed, AfterEstimates, MarkedTo;
  }

  /** Every check of an operation comes to a verdict. */
  predicate Judgeable(op: AiOperation, db: CodeHashes, w: World) {
    && w.staticGas(op).Some? && Verdict(db, op, w.hash, w.codeAt).Some?
    && (GetPaymaster(op) == ZeroAddress() || w.deposits(GetPaymaster(op)).Some?)
  }

  /** Nothing that the modules ask for fails. */
  predicate Smooth(batch: seq<AiOperation>, db: CodeHashes, w: World) {
    && (forall op | op in batch :: Judgeable(op, db, w))
    && ComesToEnough(w.estimates) && w.sent && w.counted && w.cleaned
  }

  lemma ConservedPart(b: seq<AiOperation>, p: seq<PendingRemovalItem>, b': seq<AiOperation>,
                      p': seq<PendingRemovalItem>)
    requires Conserves(b, p, b', p')
    ensures forall op | op in b' :: op in b
  {
    var more := p'[|p|..];
    assert p' == p + more;
    OpsOfItemsConcat(p, more);
    hide OpsOfItems;
    forall op | op in b' ensures op in b {
      assert multiset(b')[op] > 0;
      assert (multiset(b') + multiset(OpsOfItems(p')))[op] <= (multiset(b) + multiset(OpsOfItems(p)))[op];
      assert multiset(OpsOfItems(p'))[op] == multiset(OpsOfItems(p))[op] + multiset(OpsOfItems(more))[op];
      assert multiset(b)[op] > 0;
    }
  }

  lemma PartIsSmooth(b: seq<AiOperation>, p: seq<PendingRemovalItem>, b': seq<AiOperation>,
                     p': seq<PendingRemovalItem>, db: CodeHashes, w: World)
    requires Conserves(b, p, b', p')
    ensures Smooth(b, db, w) ==> Smooth(b', db, w)
  {
    ConservedPart(b, p, b', p');
    hide Conserves, Judgeable, ComesToEnough;
  }

  lemma SmoothIsComputable(b: seq<AiOperation>, limit: int, db: CodeHashes, w: World)
    requires Uncomputable(b, w.staticGas, limit)
    ensures !Smooth(b, db, w)
  {
    hide Fits, Verdict, ComesToEnough, GetPaymaster, ZeroAddress;
    var n, sum: nat :| 0 <= n < |b| && Fits(b, n, sum, w.staticGas, limit) && w.staticGas(b[n]).None?;
    assert b[n] in b;
    assert !Judgeable(b[n], db, w);
  }

  lemma SmoothHasVerdicts(b: seq<AiOperation>, db: CodeHashes, w: World)
    requires Smooth(b, db, w)
    ensures forall op | op in b :: Verdict(db, op, w.hash, w.codeAt).Some?
    ensures Answered(b, w.deposits)
    ensures ComesToEnough(w.estimates) && w.sent && w.counted && w.cleaned
  {
    hide Verdict, ComesToEnough, GetPaymaster, ZeroAddress;
    forall op | op in b
      ensures Verdict(db, op, w.hash, w.codeAt).Some?
      ensures GetPaymaster(op) == ZeroAddress() || w.deposits(GetPaymaster(op)).Some?
    {
      assert Judgeable(op, db, w);
    }
  }

  /** The code of every operation could be judged, then every deposit of what was left looked up, the
      estimates came to a gas limit and the node took the transaction unless nothing was left to send, and
      the books were kept. */
  ghost predicate AllWentWell(batch: seq<AiOperation>, db: CodeHashes, w: World, batch': seq<AiOperation>) {
    && (forall op | op in batch :: Verdict(db, op, w.hash, w.codeAt).Some?)
    && Answered(Kept(batch, Changed(db, batch, w.hash, w.codeAt)), w.deposits)
    && (batch' != [] ==> ComesToEnough(w.estimates) && w.sent)
    && w.counted && w.cleaned
  }

  /** A transaction goes out only with a gas limit, and if the node takes it. */
  ghost predicate GoesOut(txn: Option<seq<AiOperation>>, w: World) {
    txn.Some? ==> ComesToEnough(w.estimates) && w.sent
  }

  lemma GoesOutIf(txn: Option<seq<AiOperation>>, batch: seq<AiOperation>, w: World)
    requires txn.Some? ==> batch != [] && (batch == [] || (ComesToEnough(w.estimates) && w.sent))
    ensures GoesOut(txn, w)
  {
    hide ComesToEnough;
  }

  lemma WentWell(batch: seq<AiOperation>, db: CodeHashes, w: World, kept: seq<AiOperation>, batch': seq<AiOperation>)
    requires forall op | op in batch :: Verdict(db, op, w.hash, w.codeAt).Some?
    requires kept == Kept(batch, Changed(db, batch, w.hash, w.codeAt)) && Answered(kept, w.deposits)
    requires batch' == [] || (ComesToEnough(w.estimates) && w.sent)
    requires w.counted && w.cleaned
    ensures AllWentWell(batch, db, w, batch')
  {
    hide Verdict, Answered, Kept, Changed, ComesToEnough;
  }

  lemma EverySelectedWentWell(batch: seq<AiOperation>, db: CodeHashes, w: World, batch': seq<AiOperation>)
    requires AllWentWell(batch, db, w, batch')
    ensures w.counted && w.cleaned && (batch' != [] ==> ComesToEnough(w.estimates) && w.sent)
  {
    hide Verdict, Answered, Kept, Changed, ComesToEnough;
  }

  /** A transaction, if there is one, carries operations of a list only. */
  ghost predicate SentFrom(txn: Option<seq<AiOperation>>, ops: seq<AiOperation>) {
    txn.Some? ==> forall op | op in txn.value :: op in ops
  }

  /** What is sent was in the batch before, and is in it or removed afterwards. */
  lemma SentIsAccountedFor(b0: seq<AiOperation>, p0: seq<PendingRemovalItem>, paid: seq<AiOperation>,
                           unpaid: seq<PendingRemovalItem>, b: seq<AiOperation>, p: seq<PendingRemovalItem>)
    requires Accounts(b0, p0, paid, unpaid) && Accounts(paid, unpaid, b, p)
    ensures SentFrom(Some(paid), b0) && SentFrom(Some(paid), Processed(b, p))
  {
    AccountsConserves(b0, p0, paid, unpaid);
    ConservedPart(b0, p0, paid, unpaid);
    hide OpsOfItems;
    forall op | op in paid ensures op in Processed(b, p) {
      assert multiset(paid)[op] > 0;
      assert (multiset(b) + multiset(OpsOfItems(p)))[op] > 0;
      assert op in multiset(b) || op in multiset(OpsOfItems(p));
    }
  }

  // ---------------------------------------------------------------- the outcome of a run

  ghost predicate SameState(s: State, t: State) {
    s.disk == t.disk && Alike(s.pools, t.pools)
  }

  /** The batch a run starts from. */
  function Dumped(s: State, aiMiddleware: Address, maxBatch: int): seq<AiOperation> {
    AdjustBatchSize(maxBatch, Values(PoolOf(s.pools, aiMiddleware).all))
  }

  /** What the run takes out of the mempool. */
  function Processed(batch: seq<AiOperation>, items: seq<PendingRemovalItem>): seq<AiOperation> {
    batch + OpsOfItems(items)
  }

  ghost predicate NoDuplicates(ops: seq<AiOperation>) {
    forall i, j | 0 <= i < j < |ops| :: ops[i] != ops[j]
  }

  /** Three disjoint groups make up the dumped operations, none of them with duplicates: those left
      in the batch, those marked for removal, and those silently deferred. */
  ghost predicate ThreeGroups(dumped: seq<AiOperation>, batch: seq<AiOperation>, removed: seq<AiOperation>,
                              deferred: set<AiOperation>) {
    && NoDuplicates(batch) && NoDuplicates(removed)
    && forall op :: InOneGroup(op, dumped, batch, removed, deferred)
  }

  ghost predicate InOneGroup(op: AiOperation, dumped: seq<AiOperation>, batch: seq<AiOperation>,
                             removed: seq<AiOperation>, deferred: set<AiOperation>) {
    && (op in dumped <==> op in batch || op in removed || op in deferred)
    && (op in batch ==> op !in removed && op !in deferred)
    && (op in removed ==> op !in deferred)
  }

  function Deferred(dumped: seq<AiOperation>, batch: seq<AiOperation>, removed: seq<AiOperation>): set<AiOperation> {
    set op | op in dumped && op !in batch && op !in removed
  }

  /** A pool keeps exactly the operations that were not processed. */
  ghost predicate Keeps(p: Pool, q: Pool, processed: seq<AiOperation>) {
    && (forall k :: k in Pending(q) <==> k in Pending(p) && Pending(p)[k] !in processed)
    && (forall k | k in Pending(q) :: Pending(q)[k] == Pending(p)[k])
  }

  /** The middleware's pool keeps what was not processed, and every other pool keeps everything. */
  ghost predicate TakenOut(s: State, t: State, aiMiddleware: Address, processed: seq<AiOperation>) {
    && Keeps(PoolOf(s.pools, aiMiddleware), PoolOf(t.pools, aiMiddleware), processed)
    && forall m | m != aiMiddleware :: SameContents(PoolOf(s.pools, m), PoolOf(t.pools, m))
  }

  /** The dumped operations are the pending ones, each once. */
  lemma DumpIsPending(p: Pool, m: Address)
    requires Filed(p, m)
    ensures NoDuplicates(Values(p.all))
    ensures forall op :: op in Values(p.all) <==> KeyOf(m, op) in Pending(p) && Pending(p)[KeyOf(m, op)] == op
  {
    hide Entries, Indexed, OwnKeys, ZeroAddress, Values;
    ValuesAt(p.all);
    forall i | 0 <= i < |p.all| ensures p.all[i].key in Pending(p) && Pending(p)[p.all[i].key] == p.all[i].value
    {
      EntryOf(p.all, i);
    }
    assert NoDuplicates(Values(p.all)) by {
      forall i, j | 0 <= i < j < |p.all| ensures Values(p.all)[i] != Values(p.all)[j] {
        assert p.all[i].key != p.all[j].key;
      }
    }
    forall op ensures op in Values(p.all) <==> KeyOf(m, op) in Pending(p) && Pending(p)[KeyOf(m, op)] == op {
      if op in Values(p.all) {
        var i :| 0 <= i < |p.all| && Values(p.all)[i] == op;
      }
      if KeyOf(m, op) in Pending(p) && Pending(p)[KeyOf(m, op)] == op {
        EntriesKeys(p.all, KeyOf(m, op));
        var i :| 0 <= i < |p.all| && p.all[i].key == KeyOf(m, op);
        assert Values(p.all)[i] == op;
      }
    }
  }

  lemma NoDuplicatesByCount(ops: seq<AiOperation>)
    ensures NoDuplicates(ops) <==> forall op :: multiset(ops)[op] <= 1
  {
    if NoDuplicates(ops) {
      forall op ensures multiset(ops)[op] <= 1 { CountOfNoDuplicates(ops, op); }
    } else {
      var i, j :| 0 <= i < j < |ops| && ops[i] == ops[j];
      assert ops == ops[..i] + [ops[i]] + ops[i + 1..j] + [ops[j]] + ops[j + 1..];
      assert multiset(ops)[ops[i]] >= 2;
    }
  }

  lemma {:induction false} CountOfNoDuplicates(ops: seq<AiOperation>, op: AiOperation)
    requires NoDuplicates(ops)
    ensures multiset(ops)[op] <= 1
    decreases |ops|
  {
    if ops != [] {
      CountOfNoDuplicates(ops[1..], op);
      assert ops == [ops[0]] + ops[1..];
      if op in ops[1..] { assert ops[0] != op; }
    }
  }

  lemma PrefixHasNoDuplicates(ops: seq<AiOperation>, n: nat)
    requires n <= |ops| && NoDuplicates(ops)
    ensures NoDuplicates(ops[..n])
  {
  }

  /** Conservation over a batch without duplicates splits it into three groups. */
  lemma ConservationSplits(dumped: seq<AiOperation>, batch: seq<AiOperation>, items: seq<PendingRemovalItem>)
    requires NoDuplicates(dumped) && Conserves(dumped, [], batch, items)
    ensures ThreeGroups(dumped, batch, OpsOfItems(items), Deferred(dumped, batch, OpsOfItems(items)))
  {
    assert OpsOfItems([]) == [];
    hide OpsOfItems, NoDuplicates, InOneGroup, Deferred;
    var removed := OpsOfItems(items);
    forall op
      ensures multiset(batch)[op] <= 1 && multiset(removed)[op] <= 1
      ensures InOneGroup(op, dumped, batch, removed, Deferred(dumped, batch, removed))
    {
      assert (multiset(batch) + multiset(removed))[op] <= multiset(dumped)[op];
      CountOfNoDuplicates(dumped, op);
      CountedOnce(op, dumped, batch, removed);
    }
    NoDuplicatesByCount(batch);
    NoDuplicatesByCount(removed);
  }

  lemma CountedOnce(op: AiOperation, dumped: seq<AiOperation>, batch: seq<AiOperation>, removed: seq<AiOperation>)
    requires multiset(batch)[op] + multiset(removed)[op] <= multiset(dumped)[op] <= 1
    ensures InOneGroup(op, dumped, batch, removed, Deferred(dumped, batch, removed))
  {
    assert op in dumped <==> multiset(dumped)[op] > 0;
    assert op in batch <==> multiset(batch)[op] > 0;
    assert op in removed <==> multiset(removed)[op] > 0;
  }

  lemma ProcessedKeys(p: Pool, m: Address, processed: seq<AiOperation>, k: Key)
    requires Filed(p, m) && k in Pending(p)
    requires forall op | op in processed :: op in Values(p.all)
    ensures k in KeysOf(m, processed) <==> Pending(p)[k] in processed
  {
    DumpIsPending(p, m);
    hide Pending, Indexed, OwnKeys, Values, ZeroAddress;
  }

  lemma PoolKeeps(p: Pool, r: Pool, m: Address, processed: seq<AiOperation>)
    requires Filed(p, m) && SameContents(r, p)
    requires forall op | op in processed :: op in Values(p.all)
    ensures Keeps(p, RemoveAllFromPool(r, m, processed), processed)
  {
    SameContentsAsMaps(r, p);
    SameContentsFiled(r, p, m);
    hide Filed, Pending, RemoveAllFromPool, SameContents, Values, KeysOf;
    RemoveAllKeepsFiled(r, m, processed);
    hide Keeps;
    forall k | k in Pending(p) ensures k in KeysOf(m, processed) <==> Pending(p)[k] in processed {
      ProcessedKeys(p, m, processed, k);
    }
    KeepsTheRest(p, RemoveAllFromPool(r, m, processed), KeysOf(m, processed), processed);
  }

  lemma KeepsTheRest(p: Pool, q: Pool, keys: set<Key>, processed: seq<AiOperation>)
    requires Pending(q) == Pending(p) - keys
    requires forall k | k in Pending(p) :: k in keys <==> Pending(p)[k] in processed
    ensures Keeps(p, q, processed)
  {
    hide Pending;
  }

  /** Removing what was processed takes exactly that out of the mempool. */
  lemma RemovalTakesOut(s: State, read: State, m: Address, processed: seq<AiOperation>, c: Config)
    requires Invariant(s, c) && SameState(read, s)
    requires forall op | op in processed :: op in Values(PoolOf(s.pools, m).all)
    ensures TakenOut(s, Step(read, Action.Remove(m, processed), c), m, processed)
    ensures Invariant(Step(read, Action.Remove(m, processed), c), c)
  {
    hide Filed, Pending, RemoveAllFromPool, ToJson, SameContents, Values, Keeps, KeysOf, DiskAgrees;
    AlikeKeepsInvariant(s, read.pools, c);
    RemoveKeepsInvariant(read, m, processed, c);
    PoolKeeps(PoolOf(s.pools, m), PoolOf(read.pools, m), m, processed);
    AlikeIsSymmetric(read.pools, s.pools);
  }

  lemma AlikeIsSymmetric(pools: Pools, pools': Pools)
    requires Alike(pools, pools')
    ensures Alike(pools', pools)
  {
    hide EntitySet;
  }

  /** What the next run dumps is what this one dumped or left out, less what it processed: deferred
      operations and those beyond the batch size come back. */
  lemma NextDump(s: State, t: State, m: Address, processed: seq<AiOperation>, c: Config)
    requires Invariant(s, c) && Invariant(t, c) && TakenOut(s, t, m, processed)
    ensures forall op :: op in Values(PoolOf(t.pools, m).all)
                         <==> op in Values(PoolOf(s.pools, m).all) && op !in processed
  {
    hide Values, Filed, Pending, DiskAgrees, SameContents;
    var p, q := PoolOf(s.pools, m), PoolOf(t.pools, m);
    DumpIsPending(p, m);
    DumpIsPending(q, m);
    forall op ensures op in Values(q.all) <==> op in Values(p.all) && op !in processed {
      var k := KeyOf(m, op);
      assert k in Pending(q) <==> k in Pending(p) && Pending(p)[k] !in processed;
    }
  }

  // ---------------------------------------------------------------- the object

  class BundlerInstance {
    const mempool: MempoolInstance
    const exp: ExpireHandler
    const rep: Reputation.ReputationStore
    const check: Standalone
    const maxBatch: int
    const maxBatchGasLimit: int

    constructor (mempool: MempoolInstance, exp: ExpireHandler, rep: Reputation.ReputationStore,
                 check: Standalone, maxBatch: int, maxBatchGasLimit: int)
      ensures this.mempool == mempool && this.exp == exp && this.rep == rep && this.check == check
      ensures this.maxBatch == maxBatch && this.maxBatchGasLimit == maxBatchGasLimit
    {
      this.mempool := mempool;
      this.exp := exp;
      this.rep := rep;
      this.check := check;
      this.maxBatch := maxBatch;
      this.maxBatchGasLimit := maxBatchGasLimit;
    }

    /** The modules that choose, order and limit the batch. */
    method Select(ctx: BatchHandlerCtx, w: World) returns (ok: bool)
      modifies ctx, exp
      ensures exp.seenAt == SeenDownTo(0, old(ctx.batch), Times(old(ctx.batch), w), w.hash, old(exp.seenAt))
      ensures ok ==> Selection(old(ctx.batch), old(ctx.pendingRemoval), old(exp.seenAt), exp.ttl, ctx,
                               maxBatchGasLimit, w, ctx.batch, ctx.pendingRemoval)
      ensures !ok ==> forall db :: !Smooth(old(ctx.batch), db, w)
      ensures Conserves(old(ctx.batch), old(ctx.pendingRemoval), ctx.batch, ctx.pendingRemoval)
    {
      hide *;
      ghost var b0, p0, seen := ctx.batch, ctx.pendingRemoval, exp.seenAt;
      var times := Times(ctx.batch, w);
      HasTimes(ctx.batch, w);
      exp.DropExpired(ctx, w.hash, times);
      ghost var drop := Expired(b0, times, w.hash, seen, exp.ttl);
      ghost var b1, p1 := ctx.batch, ctx.pendingRemoval;
      AccountsConserves(b0, p0, b1, p1);

      SortByGasPrice(ctx);
      ghost var b2 := ctx.batch;
      FilterUnderpriced(ctx);
      ghost var b3 := ctx.batch;
      PricingConserves(b1, b2, p1, ctx.baseFee, ctx.tip, ctx.gasPrice);
      ConservesTrans(b0, p0, b1, p1, b3, p1);

      SortByNonce(ctx);
      ghost var b4 := ctx.batch;
      ReorderedConserves(b3, b4, p1);
      ConservesTrans(b0, p0, b3, p1, b4, p1);

      ok := MaintainGasLimit(ctx, maxBatchGasLimit, w.staticGas);
      if ok {
        LimitedIsPart(b4, ctx.batch, w.staticGas, maxBatchGasLimit);
        Selects(b0, p0, seen, exp.ttl, ctx, maxBatchGasLimit, w, drop, b2, b4, ctx.batch);
      } else {
        forall db ensures !Smooth(b0, db, w) {
          PartIsSmooth(b0, p0, b4, p1, db, w);
          SmoothIsComputable(b4, maxBatchGasLimit, db, w);
        }
      }
      ReorderedConserves(b4, ctx.batch, p1);
      ConservesTrans(b0, p0, b4, p1, ctx.batch, p1);
    }

    /** The modules that check the batch against the chain, send it and keep the books. */
    method Send(ctx: BatchHandlerCtx, w: World) returns (ok: bool, txn: Option<seq<AiOperation>>)
      modifies ctx, rep, check
      ensures ok ==>
                && Sending(old(ctx.batch), old(ctx.pendingRemoval), old(check.db), w,
                           ctx.batch, ctx.pendingRemoval, txn)
                && Reputation.CountsIncluded(old(rep.db), rep.db, ctx.batch, w.now)
                && check.db == old(check.db) - Hashes(Processed(ctx.batch, ctx.pendingRemoval), w.hash)
      ensures !ok ==> check.db == old(check.db) && !Smooth(old(ctx.batch), old(check.db), w)
      ensures GoesOut(txn, w) && (ok ==> AllWentWell(old(ctx.batch), old(check.db), w, ctx.batch))
      ensures SentFrom(txn, old(ctx.batch)) && SentFrom(txn, Processed(ctx.batch, ctx.pendingRemoval))
      ensures Accounts(old(ctx.batch), old(ctx.pendingRemoval), ctx.batch, ctx.pendingRemoval)
    {
      hide *;
      ghost var b0, p0 := ctx.batch, ctx.pendingRemoval;
      if Smooth(b0, check.db, w) { SmoothHasVerdicts(b0, check.db, w); }
      txn := None;
      NothingSent();
      ok := check.CodeHashes(ctx, w.hash, w.codeAt);
      if !ok {
        return;
      }
      ghost var b1, p1 := ctx.batch, ctx.pendingRemoval;
      AccountsConserves(b0, p0, b1, p1);
      PartIsSmooth(b0, p0, b1, p1, check.db, w);
      if Smooth(b1, check.db, w) { SmoothHasVerdicts(b1, check.db, w); }
      ok := check.PaymasterDeposit(ctx, w.deposits);
      ghost var b2, p2 := ctx.batch, ctx.pendingRemoval;
      AccountsTrans(b0, p0, b1, p1, b2, p2);
      if !ok {
        return;
      }
      ok, txn := SendAiOperation(ctx, w.estimates, w.sent);
      GoesOutIf(txn, ctx.batch, w);
      EstimatesAccount(b2, p2, w.estimates);
      if ComesToEnough(w.estimates) { EstimatesSettle(b2, p2, w.estimates); }
      AccountsTrans(b0, p0, b2, p2, ctx.batch, ctx.pendingRemoval);
      SentIsAccountedFor(b0, p0, b2, p2, ctx.batch, ctx.pendingRemoval);
      if !ok || !w.counted {
        return false, txn;
      }
      Sends(b0, p0, check.db, w, b1, p1, b2, p2, ctx.batch, ctx.pendingRemoval, txn);
      if w.cleaned { WentWell(b0, check.db, w, b1, ctx.batch); }
      rep.IncOpsIncluded(ctx.batch, w.now);
      ProcessedIs(ctx.batch, ctx.pendingRemoval);
      ok := check.Clean(ctx, w.hash, w.cleaned);
    }

    /** Every module of the run, in order, up to the first error. */
    method RunModules(ctx: BatchHandlerCtx, w: World) returns (ok: bool, txn: Option<seq<AiOperation>>)
      modifies ctx, exp, rep, check
      ensures ok ==>
                && Ran(old(ctx.batch), old(ctx.pendingRemoval), old(exp.seenAt), old(check.db), ctx, w,
                       ctx.batch, ctx.pendingRemoval, txn)
                && Reputation.CountsIncluded(old(rep.db), rep.db, ctx.batch, w.now)
                && check.db == old(check.db) - Hashes(Processed(ctx.batch, ctx.pendingRemoval), w.hash)
      ensures !ok ==> check.db == old(check.db) && !Smooth(old(ctx.batch), old(check.db), w)
      ensures exp.seenAt == SeenDownTo(0, old(ctx.batch), Times(old(ctx.batch), w), w.hash, old(exp.seenAt))
      ensures Conserves(old(ctx.batch), old(ctx.pendingRemoval), ctx.batch, ctx.pendingRemoval)
      ensures GoesOut(txn, w)
      ensures ok ==> w.counted && w.cleaned && (ctx.batch != [] ==> ComesToEnough(w.estimates) && w.sent)
      ensures SentFrom(txn, old(ctx.batch)) && SentFrom(txn, Processed(ctx.batch, ctx.pendingRemoval))
    {
      hide SentFrom, GoesOut, AllWentWell, ComesToEnough, Selection, Sending, Smooth, Conserves, Accounts,
           Reputation.CountsIncluded, Processed, Hashes, Times, SeenDownTo;
      ghost var b0, p0 := ctx.batch, ctx.pendingRemoval;
      ok := Select(ctx, w);
      txn := None;
      NothingSent();
      if ok {
        ghost var b1, p1 := ctx.batch, ctx.pendingRemoval;
        PartIsSmooth(b0, p0, b1, p1, check.db, w);
        ok, txn := Send(ctx, w);
        if ok { EverySelectedWentWell(b1, old(check.db), w, ctx.batch); }
        SentFromMore(txn, b0, p0, b1, p1);
        AccountsConserves(b1, p1, ctx.batch, ctx.pendingRemoval);
        ConservesTrans(b0, p0, b1, p1, ctx.batch, ctx.pendingRemoval);
      }
    }

    /** Selecting, then sending. */
    ghost predicate Ran(batch: seq<AiOperation>, items: seq<PendingRemovalItem>, seen: SeenAt, db: CodeHashes,
                        ctx: BatchHandlerCtx, w: World, batch': seq<AiOperation>, items': seq<PendingRemovalItem>,
                        txn: Option<seq<AiOperation>>) {
      exists b, p ::
        && Selection(batch, items, seen, exp.ttl, ctx, maxBatchGasLimit, w, b, p)
        && Sending(b, p, db, w, batch', items', txn) && AllWentWell(b, db, w, batch')
    }

    /** Dumping only reads. */
    method DumpPending(aiMiddleware: Address) returns (ops: seq<AiOperation>)
      requires mempool.Valid() && Invariant(mempool.View(), mempool.config)
      modifies mempool.queue
      ensures mempool.Valid() && Invariant(mempool.View(), mempool.config)
      ensures ops == Values(PoolOf(old(mempool.View()).pools, aiMiddleware).all)
      ensures SameState(mempool.View(), old(mempool.View()))
    {
      hide Invariant, SameContents, Values;
      ghost var before := mempool.View();
      ops := mempool.Dump(aiMiddleware);
      AlikeKeepsInvariant(before, mempool.queue.sets, mempool.config);
    }

    /** Takes the batch and the removals of a context out of the mempool. */
    method RemoveProcessed(aiMiddleware: Address, ctx: BatchHandlerCtx, removed: bool, ghost before: State)
      returns (ok: bool)
      requires mempool.Valid() && SameState(mempool.View(), before) && Invariant(before, mempool.config)
      requires Invariant(mempool.View(), mempool.config)
      requires forall op | op in Processed(ctx.batch, ctx.pendingRemoval) ::
          op in Values(PoolOf(before.pools, aiMiddleware).all)
      modifies mempool, mempool.queue
      ensures mempool.Valid() && Invariant(mempool.View(), mempool.config)
      ensures ok == removed
      ensures !ok ==> SameState(mempool.View(), before)
      ensures ok ==> TakenOut(before, mempool.View(), aiMiddleware, Processed(ctx.batch, ctx.pendingRemoval))
    {
      hide Invariant, SameState, Values, OpsOfItems, TakenOut, Step;
      AllItems(ctx.pendingRemoval);
      ghost var read := mempool.View();
      var rmOps := ctx.batch;
      var i := 0;
      while i < |ctx.pendingRemoval|
        invariant 0 <= i <= |ctx.pendingRemoval| && mempool.Valid() && mempool.queue == old(mempool.queue)
        invariant mempool.View() == read
        invariant rmOps == ctx.batch + OpsOfItems(ctx.pendingRemoval[..i])
      {
        OneMoreItem(ctx.pendingRemoval, i);
        rmOps := rmOps + [ctx.pendingRemoval[i].op];
        i := i + 1;
      }
      RemovalTakesOut(before, read, aiMiddleware, rmOps, mempool.config);
      ok := mempool.RemoveOps(aiMiddleware, rmOps, removed);
    }

    /** A run that comes back with a context splits the dumped operations into three groups and takes
        the first two out of the mempool, nothing else; any other run leaves the mempool as it was, and
        happens only when nothing is pending or something that the run asks for fails. What a successful
        run has sent is no longer pending; what a failing one has sent before it failed still is. */
    method Process(aiMiddleware: Address, w: World) returns (result: RunResult)
      requires mempool.Valid() && Invariant(mempool.View(), mempool.config)
      modifies mempool, mempool.queue, exp, rep, check
      ensures mempool.Valid() && Invariant(mempool.View(), mempool.config)
      ensures result.Idle? <==> Values(PoolOf(old(mempool.View()).pools, aiMiddleware).all) == []
      ensures !result.Done? ==> SameState(mempool.View(), old(mempool.View()))
      ensures result.Done? ==>
                var dumped := Dumped(old(mempool.View()), aiMiddleware, maxBatch);
                var batch, items := result.ctx.batch, result.ctx.pendingRemoval;
                && ThreeGroups(dumped, batch, OpsOfItems(items), Deferred(dumped, batch, OpsOfItems(items)))
                && TakenOut(old(mempool.View()), mempool.View(), aiMiddleware, Processed(batch, items))
      ensures result.Failed? ==>
                !(&& w.baseFee.Some? && (w.baseFee.value.Some? ==> w.tip.Some?) && w.gasPrice.Some? && w.removed
                  && Smooth(Dumped(old(mempool.View()), aiMiddleware, maxBatch), old(check.db), w))
      ensures !result.Idle? ==> GoesOut(result.txn, w)
      ensures result.Failed? ==> SentFrom(result.txn, Values(PoolOf(mempool.View().pools, aiMiddleware).all))
      ensures result.Done? && result.txn.Some? ==>
                forall op | op in result.txn.value :: op !in Values(PoolOf(mempool.View().pools, aiMiddleware).all)
      ensures result.Done? ==>
                && fresh(result.ctx) && w.baseFee.Some? && w.gasPrice.Some?
                && result.ctx.baseFee == w.baseFee.value && result.ctx.gasPrice == w.gasPrice.value
                && result.ctx.tip == (if w.baseFee.value.Some? then w.tip else None)
                && Ran(Dumped(old(mempool.View()), aiMiddleware, maxBatch), [], old(exp.seenAt), old(check.db),
                       result.ctx, w, result.ctx.batch, result.ctx.pendingRemoval, result.txn)
                && (result.ctx.batch != [] ==> ComesToEnough(w.estimates) && w.sent)
                && w.counted && w.cleaned && w.removed
                && Reputation.CountsIncluded(old(rep.db), rep.db, result.ctx.batch, w.now)
    {
      hide *;
      ghost var before := mempool.View();
      var pending := DumpPending(aiMiddleware);
      if |pending| == 0 {
        return Idle;
      }
      NothingSent();
      if w.baseFee.None? || (w.baseFee.value.Some? && w.tip.None?) || w.gasPrice.None? {
        return Failed(None);
      }
      var batch := AdjustBatchSize(maxBatch, pending);
      var tip := if w.baseFee.value.Some? then w.tip else None;
      var ctx := new BatchHandlerCtx(batch, aiMiddleware, w.baseFee.value, tip, w.gasPrice.value);
      ghost var read := mempool.View();
      var ok, txn := RunModules(ctx, w);
      assert mempool.View() == read;
      DumpedIs(before, aiMiddleware, maxBatch);
      SentStays(txn, before, mempool.View(), aiMiddleware, maxBatch);
      if !ok {
        return Failed(txn);
      }
      RunSplits(before, aiMiddleware, maxBatch, batch, ctx.batch, ctx.pendingRemoval, mempool.config);
      ok := RemoveProcessed(aiMiddleware, ctx, w.removed, before);
      if !ok {
        SentStays(txn, before, mempool.View(), aiMiddleware, maxBatch);
        return Failed(txn);
      }
      SentLeaves(txn, before, mempool.View(), aiMiddleware, Processed(ctx.batch, ctx.pendingRemoval), mempool.config);
      return Done(ctx, txn);
    }
  }

  lemma NothingSent()
    ensures forall ops :: SentFrom(None, ops)
    ensures forall w :: GoesOut(None, w)
  {
  }

  lemma SentFromMore(txn: Option<seq<AiOperation>>, b0: seq<AiOperation>, p0: seq<PendingRemovalItem>,
                     b: seq<AiOperation>, p: seq<PendingRemovalItem>)
    requires SentFrom(txn, b) && Conserves(b0, p0, b, p)
    ensures SentFrom(txn, b0)
  {
    ConservedPart(b0, p0, b, p);
    hide Conserves;
  }

  /** What a failing run has sent stays in the dump. */
  lemma SentStays(txn: Option<seq<AiOperation>>, s: State, t: State, m: Address, maxBatch: int)
    requires SentFrom(txn, Dumped(s, m, maxBatch)) && SameState(t, s)
    ensures SentFrom(txn, Values(PoolOf(t.pools, m).all))
  {
    hide Values;
    assert SameContents(PoolOf(t.pools, m), PoolOf(s.pools, m));
    assert forall op | op in Dumped(s, m, maxBatch) :: op in Values(PoolOf(s.pools, m).all);
  }

  /** What a successful run has sent does not come back. */
  lemma SentLeaves(txn: Option<seq<AiOperation>>, s: State, t: State, m: Address, processed: seq<AiOperation>,
                   c: Config)
    requires Invariant(s, c) && Invariant(t, c) && TakenOut(s, t, m, processed) && SentFrom(txn, processed)
    ensures txn.Some? ==> forall op | op in txn.value :: op !in Values(PoolOf(t.pools, m).all)
  {
    NextDump(s, t, m, processed, c);
    hide Values, Invariant, TakenOut;
  }

  lemma HasTimes(batch: seq<AiOperation>, w: World)
    ensures |Times(batch, w)| == |batch|
  {
  }

  lemma DumpedIs(s: State, aiMiddleware: Address, maxBatch: int)
    ensures Dumped(s, aiMiddleware, maxBatch)
            == AdjustBatchSize(maxBatch, Values(PoolOf(s.pools, aiMiddleware).all))
  {
  }

  lemma ProcessedIs(batch: seq<AiOperation>, items: seq<PendingRemovalItem>)
    ensures Processed(batch, items) == batch + OpsOfItems(items)
  {
  }

  lemma LimitedIsPart(b: seq<AiOperation>, b': seq<AiOperation>, staticGas: StaticGas, limit: int)
    requires exists n: nat :: LongestBelow(b, n, staticGas, limit) && b' == b[..n]
    ensures multiset(b') <= multiset(b)
  {
    hide TotalGas;
    var n: nat :| LongestBelow(b, n, staticGas, limit) && b' == b[..n];
    PrefixIsPart(b, n);
  }

  lemma RunSplits(s: State, m: Address, maxBatch: int, dumped: seq<AiOperation>, batch: seq<AiOperation>,
                  items: seq<PendingRemovalItem>, c: Config)
    requires Invariant(s, c) && dumped == Dumped(s, m, maxBatch)
    requires Conserves(dumped, [], batch, items)
    ensures ThreeGroups(dumped, batch, OpsOfItems(items), Deferred(dumped, batch, OpsOfItems(items)))
    ensures forall op | op in Processed(batch, items) :: op in Values(PoolOf(s.pools, m).all)
  {
    hide Filed, Values, OpsOfItems, NoDuplicates, Conserves, DiskAgrees, Deferred;
    var all := Values(PoolOf(s.pools, m).all);
    DumpIsPending(PoolOf(s.pools, m), m);
    if dumped != all { PrefixHasNoDuplicates(all, maxBatch); }
    ConservationSplits(dumped, batch, items);
    forall op | op in Processed(batch, items) ensures op in all {
      assert InOneGroup(op, dumped, batch, OpsOfItems(items), Deferred(dumped, batch, OpsOfItems(items)));
    }
  }
}
