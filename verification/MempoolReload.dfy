/** Restarting numbers the pending operations afresh. */
module MempoolReload {
  import opened Text
  import opened AiOp
  import opened DbKeys
  import opened MempoolQueue
  import opened Mempool
  import opened MempoolInvariants
  import opened MempoolOrder

  ghost predicate AllDense(pools: Pools) {
    forall m :: Dense(PoolOf(pools, m))
  }

  lemma PoolsAddKeepsDense(pools: Pools, m: Address, op: AiOperation, order: Order)
    requires AllDense(pools) && KeyOf(m, op) !in Pending(PoolOf(pools, m))
    ensures AllDense(PoolsAdd(pools, m, op, order))
  {
    hide Dense, AddToPool, Pending;
    AddFreshAppends(PoolOf(pools, m), m, op, order);
    var r := PoolsAdd(pools, m, op, order);
    assert PoolOf(r, m) == AddToPool(PoolOf(pools, m), m, op, order);
    assert forall x | x != m :: PoolOf(r, x) == PoolOf(pools, x);
  }

  /** A key that decodes to an operation of its own and is not pending yet. */
  ghost predicate Fresh(k: Key, disk: map<Key, Json>, pools: Pools) {
    && k in disk && New(disk[k]).Some? && k == KeyOf(k.aiMiddleware, New(disk[k]).value)
    && k.sender != ZeroAddress() && !IsPending(pools, k)
  }

  lemma LoadsFirst(pools: Pools, disk: map<Key, Json>, scan: seq<Key>, c: Config)
    requires forall k | k in scan :: k in disk
    requires scan != [] && scan[0] in disk && New(disk[scan[0]]).Some?
    ensures forall k | k in scan[1..] :: k in disk
    ensures Load(pools, disk, scan, c.order)
            == Load(PoolsAdd(pools, scan[0].aiMiddleware, New(disk[scan[0]]).value, c.order), disk, scan[1..], c.order)
  {
    hide New, PoolsAdd;
  }

  lemma StaysFresh(k: Key, x: Key, disk: map<Key, Json>, pools: Pools, order: Order)
    requires PoolsFiled(pools) && Fresh(k, disk, pools) && Fresh(x, disk, pools) && x != k
    ensures Fresh(x, disk, PoolsAdd(pools, k.aiMiddleware, New(disk[k]).value, order))
    ensures PoolsFiled(PoolsAdd(pools, k.aiMiddleware, New(disk[k]).value, order))
  {
    hide PoolsFiled, PoolsAdd, New, IsPending, PendingOp, ZeroAddress;
    PoolsAddKeepsFiled(pools, k.aiMiddleware, New(disk[k]).value, order);
  }

  lemma AddsFresh(k: Key, disk: map<Key, Json>, pools: Pools, order: Order)
    requires PoolsFiled(pools) && AllDense(pools) && Fresh(k, disk, pools)
    ensures AllDense(PoolsAdd(pools, k.aiMiddleware, New(disk[k]).value, order))
    ensures PoolsFiled(PoolsAdd(pools, k.aiMiddleware, New(disk[k]).value, order))
  {
    hide PoolsFiled, AllDense, PoolsAdd, New, PendingOp, ZeroAddress, Pending;
    PoolsAddKeepsDense(pools, k.aiMiddleware, New(disk[k]).value, order);
    PoolsAddKeepsFiled(pools, k.aiMiddleware, New(disk[k]).value, order);
  }

  lemma {:induction false} LoadKeepsDense(pools: Pools, disk: map<Key, Json>, scan: seq<Key>, c: Config)
    requires PoolsFiled(pools) && AllDense(pools)
    requires forall k | k in scan :: Fresh(k, disk, pools)
    requires forall i, j | 0 <= i < j < |scan| :: scan[i] != scan[j]
    ensures (forall k | k in scan :: k in disk) && Load(pools, disk, scan, c.order).Some?
    ensures AllDense(Load(pools, disk, scan, c.order).value)
    decreases |scan|
  {
    hide PoolsFiled, AllDense, PoolsAdd, New, IsPending, ZeroAddress;
    if scan != [] {
      var k := scan[0];
      assert k in scan;
      LoadsFirst(pools, disk, scan, c);
      AddsFresh(k, disk, pools, c.order);
      hide Fresh;
      var next := PoolsAdd(pools, k.aiMiddleware, New(disk[k]).value, c.order);
      forall x | x in scan[1..] ensures Fresh(x, disk, next) {
        StaysFresh(k, x, disk, pools, c.order);
      }
      LoadKeepsDense(next, disk, scan[1..], c);
    }
  }

  lemma EmptyIsDense()
    ensures AllDense(map[])
  {
  }

  lemma StoredIsFresh(s: State, k: Key, c: Config)
    requires Invariant(s, c) && k in s.disk
    ensures Fresh(k, s.disk, map[])
  {
    hide Invariant, New, ToJson, ZeroAddress, Printed, IsPending, PendingOp;
    StoredDecodes(s, k, c);
    NothingPending();
  }

  /** After a restart scores are dense again, whatever was removed or replaced before. */
  lemma RestartIsDense(s: State, scan: seq<Key>, c: Config)
    requires Invariant(s, c) && Allowed(s, Restart(scan))
    ensures AllDense(Step(s, Restart(scan), c).pools)
  {
    hide Invariant, PoolsFiled, PoolsExact, AllDense, Load, Fresh;
    EmptyPools();
    EmptyIsDense();
    forall k | k in scan ensures Fresh(k, s.disk, map[]) { StoredIsFresh(s, k, c); }
    LoadKeepsDense(map[], s.disk, scan, c);
  }
}
