/** What every reachable state of the mempool keeps: the database, the set of all operations and
    the per-address sets agree. */
module MempoolInvariants {
  import opened Text
  import opened AiOp
  import opened DbKeys
  import opened SortedSets
  import opened MempoolQueue
  import opened Mempool

  /** Every pending operation is filed under its own key, in `all` and, with its current value, in
      the set of each address it uses; an address's own keys are in its set only while they are
      pending. Sets of factories and paymasters may hold more: a replacement that names another
      factory or paymaster leaves the old entry behind. */
  ghost predicate Filed(p: Pool, aiMiddleware: Address) {
    PoolOk(p) && Keyed(p, aiMiddleware) && Indexed(p) && OwnKeys(p, aiMiddleware)
  }

  ghost predicate Keyed(p: Pool, aiMiddleware: Address) {
    forall k | k in Pending(p) :: k == KeyOf(aiMiddleware, Pending(p)[k]) && k.sender != ZeroAddress()
  }

  ghost predicate Indexed(p: Pool) {
    forall k, a | k in Pending(p) && Uses(Pending(p)[k], a) :: Holds(p, a, k)
  }

  ghost predicate OwnKeys(p: Pool, aiMiddleware: Address) {
    forall a, k | k in Index(p, a) :: OwnKeyAt(p, aiMiddleware, a, k)
  }

  ghost predicate OwnKeyAt(p: Pool, aiMiddleware: Address, a: Address, k: Key)
    requires k in Index(p, a)
  {
    k == KeyOf(aiMiddleware, Index(p, a)[k]) && (k.sender == a ==> Holds(p, a, k))
  }

  /** `k` is pending, and the set of `a` has its current value. */
  ghost predicate Holds(p: Pool, a: Address, k: Key) {
    k in Pending(p) && k in Index(p, a) && Index(p, a)[k] == Pending(p)[k]
  }

  /** Every set is exactly the part of `all` that uses its address. */
  ghost predicate Exact(p: Pool) {
    forall a, k | k in Index(p, a) ::
      Holds(p, a, k) && Uses(Pending(p)[k], a)
  }

  /** The operation put under a key, or passed to take it out, uses every address that the
      operation pending there uses. */
  ghost predicate Covers(p: Pool, aiMiddleware: Address, op: AiOperation) {
    var k := KeyOf(aiMiddleware, op);
    k in Pending(p) ==> forall a | Uses(Pending(p)[k], a) :: Uses(op, a)
  }

  lemma AddKeepsFiled(p: Pool, aiMiddleware: Address, op: AiOperation, order: Order)
    requires Filed(p, aiMiddleware) && op.sender != ZeroAddress()
    ensures Filed(AddToPool(p, aiMiddleware, op, order), aiMiddleware)
  {
    hide AddToPool, Pending, Index, PoolOk, GetFactory, GetPaymaster, ZeroAddress, Indexed, OwnKeys;
    AddToPoolAsMaps(p, aiMiddleware, op, order);
    AddKeepsIndexed(p, aiMiddleware, op, order);
    AddKeepsOwnKeys(p, aiMiddleware, op, order);
  }

  lemma AddKeepsIndexed(p: Pool, aiMiddleware: Address, op: AiOperation, order: Order)
    requires PoolOk(p) && Indexed(p)
    ensures Indexed(AddToPool(p, aiMiddleware, op, order))
  {
    hide AddToPool, Pending, Index, PoolOk, GetFactory, GetPaymaster, ZeroAddress, Uses;
    AddToPoolAsMaps(p, aiMiddleware, op, order);
    var r, key := AddToPool(p, aiMiddleware, op, order), KeyOf(aiMiddleware, op);
    forall k, a | k in Pending(r) && Uses(Pending(r)[k], a) ensures Holds(r, a, k) {
      if k != key { assert Holds(p, a, k); }
    }
  }

  lemma AddKeepsOwnKeys(p: Pool, aiMiddleware: Address, op: AiOperation, order: Order)
    requires PoolOk(p) && OwnKeys(p, aiMiddleware)
    ensures OwnKeys(AddToPool(p, aiMiddleware, op, order), aiMiddleware)
  {
    hide AddToPool, Pending, Index, PoolOk, GetFactory, GetPaymaster, ZeroAddress;
    AddToPoolAsMaps(p, aiMiddleware, op, order);
    var r, key := AddToPool(p, aiMiddleware, op, order), KeyOf(aiMiddleware, op);
    forall a, k | k in Index(r, a)
      ensures OwnKeyAt(r, aiMiddleware, a, k)
    {
      if k != key { assert k in Index(p, a); }
    }
  }

  lemma ExactAt(p: Pool, a: Address, k: Key)
    requires Exact(p) && k in Index(p, a)
    ensures Holds(p, a, k) && Uses(Pending(p)[k], a)
  {
    hide Index, Pending, Uses;
  }

  /** Adding or replacing keeps the sets exact if and only if no address of the operation replaced
      is given up; otherwise that address keeps a stale entry. */
  lemma AddKeepsExact(p: Pool, aiMiddleware: Address, op: AiOperation, order: Order)
    requires Filed(p, aiMiddleware) && Exact(p)
    ensures Exact(AddToPool(p, aiMiddleware, op, order)) <==> Covers(p, aiMiddleware, op)
  {
    hide AddToPool, Pending, Index, PoolOk, Uses, OwnKeys, Keyed;
    AddToPoolAsMaps(p, aiMiddleware, op, order);
    var r, key := AddToPool(p, aiMiddleware, op, order), KeyOf(aiMiddleware, op);
    if Covers(p, aiMiddleware, op) {
      forall a, k | k in Index(r, a) ensures Holds(r, a, k) && Uses(Pending(r)[k], a) {
        if k in Index(p, a) { assert Holds(p, a, k) && Uses(Pending(p)[k], a); }
      }
    }
    if Exact(r) && key in Pending(p) {
      forall a | Uses(Pending(p)[key], a) ensures Uses(op, a) {
        assert Holds(p, a, key);
        if key in Index(r, a) { ExactAt(r, a, key); }
      }
    }
  }

  lemma RemoveKeepsFiled(p: Pool, aiMiddleware: Address, op: AiOperation)
    requires Filed(p, aiMiddleware)
    ensures Filed(RemoveFromPool(p, aiMiddleware, op), aiMiddleware)
  {
    hide RemoveFromPool, Pending, Index, PoolOk, GetFactory, GetPaymaster, ZeroAddress, Uses;
    RemoveFromPoolAsMaps(p, aiMiddleware, op);
    var r := RemoveFromPool(p, aiMiddleware, op);
    assert Indexed(r) by {
      forall k, a | k in Pending(r) && Uses(Pending(r)[k], a) ensures Holds(r, a, k) {
        assert Holds(p, a, k);
      }
    }
    assert OwnKeys(r, aiMiddleware) by {
      forall a, k | k in Index(r, a)
        ensures OwnKeyAt(r, aiMiddleware, a, k)
      {
        assert k in Index(p, a);
      }
    }
  }

  /** Removing keeps the sets exact if and only if the operation passed in names every address of
      the one that is pending. */
  lemma RemoveKeepsExact(p: Pool, aiMiddleware: Address, op: AiOperation)
    requires Filed(p, aiMiddleware) && Exact(p)
    ensures Exact(RemoveFromPool(p, aiMiddleware, op)) <==> Covers(p, aiMiddleware, op)
  {
    hide RemoveFromPool, Pending, Index, PoolOk, GetFactory, GetPaymaster, ZeroAddress, OwnKeys;
    RemoveFromPoolAsMaps(p, aiMiddleware, op);
    var r, key := RemoveFromPool(p, aiMiddleware, op), KeyOf(aiMiddleware, op);
    if Covers(p, aiMiddleware, op) {
      forall a, k | k in Index(r, a) ensures Holds(r, a, k) && Uses(Pending(r)[k], a) {
        assert k in Index(p, a) && Holds(p, a, k) && Uses(Pending(p)[k], a);
      }
    }
    if Exact(r) && key in Pending(p) {
      forall a | Uses(Pending(p)[key], a) ensures Uses(op, a) {
        assert Holds(p, a, key);
        if key in Index(r, a) { ExactAt(r, a, key); }
      }
    }
  }

  lemma {:induction false} RemoveAllKeepsFiled(p: Pool, aiMiddleware: Address, ops: seq<AiOperation>)
    requires Filed(p, aiMiddleware)
    ensures var r := RemoveAllFromPool(p, aiMiddleware, ops);
            Filed(r, aiMiddleware) && Pending(r) == Pending(p) - KeysOf(aiMiddleware, ops)
    decreases |ops|
  {
    hide Filed, RemoveFromPool, Pending;
    if ops == [] {
      assert KeysOf(aiMiddleware, ops) == {};
    } else {
      RemoveKeepsFiled(p, aiMiddleware, ops[0]);
      assert PoolOk(p) by { FiledIsOk(p, aiMiddleware); }
      RemoveFromPoolAsMaps(p, aiMiddleware, ops[0]);
      RemoveAllKeepsFiled(RemoveFromPool(p, aiMiddleware, ops[0]), aiMiddleware, ops[1..]);
      assert KeysOf(aiMiddleware, ops) == {KeyOf(aiMiddleware, ops[0])} + KeysOf(aiMiddleware, ops[1..]);
    }
  }

  lemma FiledIsOk(p: Pool, aiMiddleware: Address)
    requires Filed(p, aiMiddleware)
    ensures PoolOk(p)
  {
  }

  /** Removals that name every address of the operations they take out. */
  ghost predicate Names(p: Pool, aiMiddleware: Address, ops: seq<AiOperation>) {
    forall op | op in ops :: Covers(p, aiMiddleware, op)
  }

  lemma NamesRest(p: Pool, aiMiddleware: Address, ops: seq<AiOperation>)
    requires PoolOk(p) && ops != [] && Names(p, aiMiddleware, ops)
    ensures Names(RemoveFromPool(p, aiMiddleware, ops[0]), aiMiddleware, ops[1..])
  {
    hide RemoveFromPool, Pending, PoolOk, Uses;
    RemoveFromPoolAsMaps(p, aiMiddleware, ops[0]);
    forall op | op in ops[1..] ensures Covers(RemoveFromPool(p, aiMiddleware, ops[0]), aiMiddleware, op) {
      assert Covers(p, aiMiddleware, op);
    }
  }

  lemma {:induction false} RemoveAllKeepsExact(p: Pool, aiMiddleware: Address, ops: seq<AiOperation>)
    requires Filed(p, aiMiddleware) && Exact(p) && Names(p, aiMiddleware, ops)
    ensures Exact(RemoveAllFromPool(p, aiMiddleware, ops))
    decreases |ops|
  {
    hide Filed, Exact, RemoveFromPool, Pending;
    if ops != [] {
      RemoveKeepsFiled(p, aiMiddleware, ops[0]);
      RemoveKeepsExact(p, aiMiddleware, ops[0]);
      FiledIsOk(p, aiMiddleware);
      RemoveFromPoolAsMaps(p, aiMiddleware, ops[0]);
      NamesRest(p, aiMiddleware, ops);
      RemoveAllKeepsExact(RemoveFromPool(p, aiMiddleware, ops[0]), aiMiddleware, ops[1..]);
    }
  }

  // ---------------------------------------------------------------- the whole state

  ghost predicate PoolsFiled(pools: Pools) {
    forall m :: Filed(PoolOf(pools, m), m)
  }

  ghost predicate PoolsExact(pools: Pools) {
    forall m :: Exact(PoolOf(pools, m))
  }

  predicate IsPending(pools: Pools, k: Key) {
    k in Pending(PoolOf(pools, k.aiMiddleware))
  }

  function PendingOp(pools: Pools, k: Key): AiOperation
    requires IsPending(pools, k)
  {
    Pending(PoolOf(pools, k.aiMiddleware))[k]
  }

  /** The database holds exactly the pending operations, printed. */
  ghost predicate DiskAgrees(s: State, c: Config) {
    && (forall k :: k in s.disk <==> IsPending(s.pools, k))
    && (forall k | k in s.disk && IsPending(s.pools, k) :: s.disk[k] == ToJson(PendingOp(s.pools, k), c.checksum))
  }

  ghost predicate Invariant(s: State, c: Config) {
    PoolsFiled(s.pools) && DiskAgrees(s, c)
  }

  lemma EmptyPoolIsFiled(m: Address)
    ensures Filed(EMPTY_POOL, m) && Exact(EMPTY_POOL)
  {
    assert forall a :: Index(EMPTY_POOL, a) == map[];
    assert Pending(EMPTY_POOL) == map[];
  }

  lemma EmptyKeepsInvariant(c: Config)
    ensures Invariant(EMPTY, c) && PoolsExact(EMPTY.pools)
  {
    hide Filed, Exact;
    forall m ensures Filed(PoolOf(map[], m), m) && Exact(PoolOf(map[], m)) { EmptyPoolIsFiled(m); }
  }

  lemma PoolsAddKeepsFiled(pools: Pools, m: Address, op: AiOperation, order: Order)
    requires PoolsFiled(pools) && op.sender != ZeroAddress()
    ensures var r := PoolsAdd(pools, m, op, order); var key := KeyOf(m, op);
            && PoolsFiled(r)
            && (forall k :: IsPending(r, k) <==> k == key || IsPending(pools, k))
            && (forall k | IsPending(r, k) ::
                  PendingOp(r, k) == if k == key then op else PendingOp(pools, k))
  {
    hide Filed, AddToPool, Pending, ZeroAddress;
    AddKeepsFiled(PoolOf(pools, m), m, op, order);
    FiledIsOk(PoolOf(pools, m), m);
    AddToPoolAsMaps(PoolOf(pools, m), m, op, order);
    var r := PoolsAdd(pools, m, op, order);
    assert PoolOf(r, m) == AddToPool(PoolOf(pools, m), m, op, order);
    assert forall x | x != m :: PoolOf(r, x) == PoolOf(pools, x);
  }

  lemma AddKeepsInvariant(s: State, m: Address, op: AiOperation, c: Config)
    requires Invariant(s, c) && Allowed(s, Add(m, op))
    ensures Invariant(Step(s, Add(m, op), c), c)
  {
    hide PoolsFiled, PoolsAdd, ToJson, IsPending, PendingOp, ZeroAddress;
    PoolsAddKeepsFiled(s.pools, m, op, c.order);
  }

  lemma RemoveKeepsInvariant(s: State, m: Address, ops: seq<AiOperation>, c: Config)
    requires Invariant(s, c)
    ensures Invariant(Step(s, Action.Remove(m, ops), c), c)
  {
    hide Filed, RemoveAllFromPool, Pending, ToJson;
    RemoveAllKeepsFiled(PoolOf(s.pools, m), m, ops);
    var t := Step(s, Action.Remove(m, ops), c);
    assert PoolOf(t.pools, m) == RemoveAllFromPool(PoolOf(s.pools, m), m, ops);
    assert forall x | x != m :: PoolOf(t.pools, x) == PoolOf(s.pools, x);
    forall k ensures IsPending(t.pools, k) <==> IsPending(s.pools, k) && k !in KeysOf(m, ops) {
      if k.aiMiddleware != m { assert k !in KeysOf(m, ops); }
    }
  }

  // ---------------------------------------------------------------- restart

  /** Loading the keys of `scan` on top of `pools`, which has none of them, files exactly what the
      database decodes to. */
  lemma {:induction false} LoadFiles(pools: Pools, disk: map<Key, Json>, ops: map<Key, AiOperation>,
                                     scan: seq<Key>, c: Config)
    requires PoolsFiled(pools) && PoolsExact(pools)
    requires forall k | k in scan ::
               && k in disk && k in ops && New(disk[k]) == Some(ops[k])
               && k == KeyOf(k.aiMiddleware, ops[k]) && k.sender != ZeroAddress()
               && !IsPending(pools, k)
    requires forall i, j | 0 <= i < j < |scan| :: scan[i] != scan[j]
    ensures var r := Load(pools, disk, scan, c.order);
            && r.Some? && PoolsFiled(r.value) && PoolsExact(r.value)
            && (forall k :: IsPending(r.value, k) <==> k in scan || IsPending(pools, k))
            && (forall k | IsPending(r.value, k) ::
                  PendingOp(r.value, k) == if k in scan then ops[k] else PendingOp(pools, k))
    decreases |scan|
  {
    hide PoolsFiled, PoolsExact, PoolsAdd, IsPending, PendingOp, New, ZeroAddress;
    if scan != [] {
      var k := scan[0];
      PoolsAddKeepsFiled(pools, k.aiMiddleware, ops[k], c.order);
      assert Covers(PoolOf(pools, k.aiMiddleware), k.aiMiddleware, ops[k]) by {
        NotPendingIsFree(pools, k, ops[k]);
      }
      PoolsAddKeepsExact(pools, k.aiMiddleware, ops[k], c.order);
      LoadFiles(PoolsAdd(pools, k.aiMiddleware, ops[k], c.order), disk, ops, scan[1..], c);
      assert forall x :: x in scan <==> x == k || x in scan[1..];
    }
  }

  lemma NotPendingIsFree(pools: Pools, k: Key, op: AiOperation)
    requires !IsPending(pools, k) && k == KeyOf(k.aiMiddleware, op)
    ensures Covers(PoolOf(pools, k.aiMiddleware), k.aiMiddleware, op)
  {
    hide Pending;
  }

  lemma PoolsAddKeepsExact(pools: Pools, m: Address, op: AiOperation, order: Order)
    requires PoolsFiled(pools) && PoolsExact(pools) && Covers(PoolOf(pools, m), m, op)
    ensures PoolsExact(PoolsAdd(pools, m, op, order))
  {
    hide Filed, Exact, AddToPool, Pending, Covers;
    AddKeepsExact(PoolOf(pools, m), m, op, order);
    var r := PoolsAdd(pools, m, op, order);
    assert PoolOf(r, m) == AddToPool(PoolOf(pools, m), m, op, order);
    assert forall x | x != m :: PoolOf(r, x) == PoolOf(pools, x);
  }

  /** Restarting never fails to load; afterwards the same keys are pending, each with its operation
      as printed, and every set is exact whatever happened before. */
  lemma RestartReloads(s: State, scan: seq<Key>, c: Config)
    requires Invariant(s, c) && Allowed(s, Restart(scan))
    ensures var t := Step(s, Restart(scan), c);
            && Load(map[], s.disk, scan, c.order) == Some(t.pools)
            && Invariant(t, c) && PoolsExact(t.pools) && t.disk == s.disk
            && (forall k :: IsPending(t.pools, k) <==> IsPending(s.pools, k))
            && (forall k | IsPending(t.pools, k) :: PendingOp(t.pools, k) == Printed(PendingOp(s.pools, k)))
  {
    hide Invariant, PoolsFiled, PoolsExact, IsPending, PendingOp, New, ToJson, Load, ZeroAddress, Printed, DiskAgrees;
    EmptyPools();
    NothingPending();
    DiskIsPending(s, c);
    var ops := map k | k in s.disk :: Printed(PendingOp(s.pools, k));
    forall k | k in s.disk { StoredDecodes(s, k, c); }
    LoadFiles(map[], s.disk, ops, scan, c);
    ReloadedAgrees(s.disk, ops, Load(map[], s.disk, scan, c.order).value, c);
  }

  lemma EmptyPools()
    ensures PoolsFiled(map[]) && PoolsExact(map[])
  {
    hide Filed, Exact;
    forall m ensures Filed(PoolOf(map[], m), m) && Exact(PoolOf(map[], m)) { EmptyPoolIsFiled(m); }
  }

  lemma DiskIsPending(s: State, c: Config)
    requires Invariant(s, c)
    ensures forall k :: k in s.disk <==> IsPending(s.pools, k)
  {
    hide IsPending, PendingOp, ToJson, PoolsFiled;
  }

  lemma ReloadedAgrees(disk: map<Key, Json>, ops: map<Key, AiOperation>, pools: Pools, c: Config)
    requires forall k | k in disk :: k in ops && ToJson(ops[k], c.checksum) == disk[k]
    requires forall k :: IsPending(pools, k) <==> k in disk
    requires forall k | IsPending(pools, k) :: PendingOp(pools, k) == ops[k]
    requires PoolsFiled(pools)
    ensures Invariant(State(disk, pools), c)
  {
    hide IsPending, PendingOp, ToJson, PoolsFiled;
  }

  lemma NothingPending()
    ensures forall k :: !IsPending(map[], k)
  {
  }

  lemma StoredDecodes(s: State, k: Key, c: Config)
    requires Invariant(s, c) && k in s.disk
    ensures var op := Printed(PendingOp(s.pools, k));
            && New(s.disk[k]) == Some(op) && ToJson(op, c.checksum) == s.disk[k]
            && k == KeyOf(k.aiMiddleware, op) && k.sender != ZeroAddress()
  {
    hide New, ToJson, PoolOk, Pending, Index, ZeroAddress, Printed;
    var op := PendingOp(s.pools, k);
    assert Filed(PoolOf(s.pools, k.aiMiddleware), k.aiMiddleware);
    NewOfToJson(op, c.checksum);
    PrintedKeepsEntities(op);
    PrintedPrintsTheSame(op, c.checksum);
  }

  lemma PrintedPrintsTheSame(op: AiOperation, checksum: Checksum)
    ensures ToJson(Printed(op), checksum) == ToJson(op, checksum)
  {
    hide AddressText, HexInteger, BytesText, Hex, ZeroAddress;
    PrintedKeepsEntities(op);
  }

  // ---------------------------------------------------------------- reading changes nothing

  ghost predicate Alike(pools: Pools, pools': Pools) {
    forall m :: SameContents(PoolOf(pools, m), PoolOf(pools', m))
  }

  lemma SameContentsAsMaps(p: Pool, q: Pool)
    requires SameContents(p, q)
    ensures Pending(p) == Pending(q)
    ensures forall a :: Index(p, a) == Index(q, a)
    ensures PoolOk(q) ==> PoolOk(p)
  {
    hide Entries;
    if PoolOk(q) {
      forall a | a in p.entities ensures Distinct(p.entities[a]) {
        assert p.entities[a] == EntitySet(p, a) == EntitySet(q, a);
        EmptyDistinct();
      }
    }
  }

  lemma SameMapsIndexed(p: Pool, q: Pool)
    requires Pending(p) == Pending(q) && (forall a :: Index(p, a) == Index(q, a)) && Indexed(q)
    ensures Indexed(p)
  {
    hide Pending, Index, Uses;
    forall k, a | k in Pending(p) && Uses(Pending(p)[k], a) ensures Holds(p, a, k) { assert Holds(q, a, k); }
  }

  lemma SameMapsOwnKeys(p: Pool, q: Pool, m: Address)
    requires Pending(p) == Pending(q) && (forall a :: Index(p, a) == Index(q, a)) && OwnKeys(q, m)
    ensures OwnKeys(p, m)
  {
    hide Pending, Index;
    forall a, k | k in Index(p, a)
      ensures OwnKeyAt(p, m, a, k)
    {
      assert k in Index(q, a);
      if k.sender == a { assert Holds(q, a, k); }
    }
  }

  lemma SameContentsFiled(p: Pool, q: Pool, m: Address)
    requires SameContents(p, q) && Filed(q, m)
    ensures Filed(p, m)
  {
    SameContentsAsMaps(p, q);
    hide Pending, Index, PoolOk, SameContents, ZeroAddress, Indexed, OwnKeys;
    SameMapsIndexed(p, q);
    SameMapsOwnKeys(p, q, m);
  }

  lemma AlikeKeepsInvariant(s: State, pools: Pools, c: Config)
    requires Invariant(s, c) && Alike(pools, s.pools)
    ensures Invariant(s.(pools := pools), c)
  {
    hide Filed, Pending, ToJson, SameContents;
    forall m
      ensures Filed(PoolOf(pools, m), m)
      ensures Pending(PoolOf(pools, m)) == Pending(PoolOf(s.pools, m))
    {
      SameContentsFiled(PoolOf(pools, m), PoolOf(s.pools, m), m);
      SameContentsAsMaps(PoolOf(pools, m), PoolOf(s.pools, m));
    }
  }

  // ---------------------------------------------------------------- runs

  ghost predicate AllowedRun(s: State, actions: seq<Action>, c: Config)
    decreases |actions|
  {
    actions == [] || (Allowed(s, actions[0]) && AllowedRun(Step(s, actions[0], c), actions[1..], c))
  }

  ghost function RunActions(s: State, actions: seq<Action>, c: Config): State
    requires AllowedRun(s, actions, c)
    decreases |actions|
  {
    if actions == [] then s else RunActions(Step(s, actions[0], c), actions[1..], c)
  }

  lemma StepKeepsInvariant(s: State, a: Action, c: Config)
    requires Invariant(s, c) && Allowed(s, a)
    ensures Invariant(Step(s, a, c), c)
  {
    match a
    case Add(m, op) => AddKeepsInvariant(s, m, op, c);
    case Remove(m, ops) => RemoveKeepsInvariant(s, m, ops, c);
    case Clear => EmptyKeepsInvariant(c);
    case Restart(scan) => RestartReloads(s, scan, c);
  }

  /** In every state reachable from an empty database the database and the queue agree. */
  lemma {:induction false} EveryRunKeepsInvariant(s: State, actions: seq<Action>, c: Config)
    requires Invariant(s, c) && AllowedRun(s, actions, c)
    ensures Invariant(RunActions(s, actions, c), c)
    decreases |actions|
  {
    hide Invariant, Step;
    if actions != [] {
      StepKeepsInvariant(s, actions[0], c);
      EveryRunKeepsInvariant(Step(s, actions[0], c), actions[1..], c);
    }
  }

  /** A step that keeps every set exact: replacements use every address of what they replace, and
      removals name every address of what they remove. */
  ghost predicate Tidy(s: State, a: Action) {
    match a
    case Add(m, op) => Covers(PoolOf(s.pools, m), m, op)
    case Remove(m, ops) => Names(PoolOf(s.pools, m), m, ops)
    case _ => true
  }

  ghost predicate TidyRun(s: State, actions: seq<Action>, c: Config)
    requires AllowedRun(s, actions, c)
    decreases |actions|
  {
    actions == [] || (Tidy(s, actions[0]) && TidyRun(Step(s, actions[0], c), actions[1..], c))
  }

  lemma StepKeepsExact(s: State, a: Action, c: Config)
    requires Invariant(s, c) && PoolsExact(s.pools) && Allowed(s, a) && Tidy(s, a)
    ensures PoolsExact(Step(s, a, c).pools)
  {
    hide Filed, Exact, DiskAgrees, Covers, AddToPool, RemoveAllFromPool, PoolsAdd;
    match a
    case Add(m, op) => PoolsAddKeepsExact(s.pools, m, op, c.order);
    case Remove(m, ops) =>
      RemoveAllKeepsExact(PoolOf(s.pools, m), m, ops);
      var t := Step(s, a, c);
      assert PoolOf(t.pools, m) == RemoveAllFromPool(PoolOf(s.pools, m), m, ops);
      assert forall x | x != m :: PoolOf(t.pools, x) == PoolOf(s.pools, x);
    case Clear => EmptyKeepsInvariant(c);
    case Restart(scan) => RestartReloads(s, scan, c);
  }

  /** Over tidy runs every set is exactly the filter of `all`. */
  lemma {:induction false} TidyRunKeepsExact(s: State, actions: seq<Action>, c: Config)
    requires Invariant(s, c) && PoolsExact(s.pools)
    requires AllowedRun(s, actions, c) && TidyRun(s, actions, c)
    ensures PoolsExact(RunActions(s, actions, c).pools)
    decreases |actions|
  {
    hide Invariant, PoolsExact, Step, Tidy;
    if actions != [] {
      StepKeepsInvariant(s, actions[0], c);
      StepKeepsExact(s, actions[0], c);
      TidyRunKeepsExact(Step(s, actions[0], c), actions[1..], c);
    }
  }
}
