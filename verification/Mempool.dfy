/** The mempool of pkg/mempool/instance.go and db.go: the embedded database and the in-memory queue
    kept together through adding, replacing, removing, clearing and restarting. */
module Mempool {
  import opened Text
  import opened AiOp
  import opened DbKeys
  import opened SortedSets
  import opened MempoolQueue

  datatype Config = Config(order: Order, checksum: Checksum)

  /** What the database holds under mempool keys, and the queue's sets. */
  datatype State = State(disk: map<Key, Json>, pools: Pools)

  const EMPTY := State(map[], map[])

  /** `scan` lists the database's keys, each once, in whatever order the iterator yields them. */
  datatype Action =
    | Add(aiMiddleware: Address, op: AiOperation)
    | Remove(aiMiddleware: Address, ops: seq<AiOperation>)
    | Clear
    | Restart(scan: seq<Key>)

  function KeysOf(aiMiddleware: Address, ops: seq<AiOperation>): set<Key> {
    set op | op in ops :: KeyOf(aiMiddleware, op)
  }

  function PoolsAdd(pools: Pools, aiMiddleware: Address, op: AiOperation, order: Order): Pools {
    pools[aiMiddleware := AddToPool(PoolOf(pools, aiMiddleware), aiMiddleware, op, order)]
  }

  function PoolsRemove(pools: Pools, aiMiddleware: Address, ops: seq<AiOperation>): Pools {
    pools[aiMiddleware := RemoveAllFromPool(PoolOf(pools, aiMiddleware), aiMiddleware, ops)]
  }

  /** Filing everything the scan yields; None when a stored value does not decode. */
  function Load(pools: Pools, disk: map<Key, Json>, scan: seq<Key>, order: Order): Option<Pools>
    requires forall k | k in scan :: k in disk
    decreases |scan|
  {
    if scan == [] then Some(pools)
    else
      var op := New(disk[scan[0]]);
      if op.None? then None
      else Load(PoolsAdd(pools, scan[0].aiMiddleware, op.value, order), disk, scan[1..], order)
  }

  predicate Scans(scan: seq<Key>, disk: map<Key, Json>) {
    && (forall k | k in scan :: k in disk) && (forall k | k in disk :: k in scan)
    && forall i, j | 0 <= i < j < |scan| :: scan[i] != scan[j]
  }

  /** What callers owe: operations come from the decoder, so their sender is not zero. */
  predicate Allowed(s: State, a: Action) {
    match a
    case Add(_, op) => op.sender != ZeroAddress()
    case Restart(scan) => Scans(scan, s.disk)
    case _ => true
  }

  function Step(s: State, a: Action, c: Config): State
    requires Allowed(s, a)
  {
    match a
    case Add(aiMiddleware, op) =>
      State(s.disk[KeyOf(aiMiddleware, op) := ToJson(op, c.checksum)],
            PoolsAdd(s.pools, aiMiddleware, op, c.order))
    case Remove(aiMiddleware, ops) =>
      State(s.disk - KeysOf(aiMiddleware, ops), PoolsRemove(s.pools, aiMiddleware, ops))
    case Clear => EMPTY
    case Restart(scan) =>
      var loaded := Load(map[], s.disk, scan, c.order);
      if loaded.None? then s else State(s.disk, loaded.value)
  }

  // ---------------------------------------------------------------- the object

  /** `committed` says whether the database transaction of a call commits; when it does not, the
      call fails. */
  class MempoolInstance {
    var db: map<Key, Json>
    var queue: AiOpQueues
    const config: Config

    function View(): State
      reads this, queue
    {
      State(db, queue.sets)
    }

    ghost predicate Valid()
      reads this, queue
    {
      queue.order == config.order
    }

    constructor (db: map<Key, Json>, config: Config)
      ensures Valid() && fresh(queue) && this.config == config && View() == State(db, map[])
    {
      this.db := db;
      this.config := config;
      queue := new AiOpQueues(config.order);
    }

    /** Fills the new queue of a starting process; `ok` is false if a value does not decode. */
    method LoadFromDisk(scan: seq<Key>) returns (ok: bool)
      requires Valid() && Scans(scan, db)
      modifies queue
      ensures Valid() && db == old(db)
      ensures ok <==> Load(old(queue.sets), db, scan, config.order).Some?
      ensures ok ==> Load(old(queue.sets), db, scan, config.order) == Some(queue.sets)
    {
      hide PoolsAdd, AddToPool, New;
      var i := 0;
      while i < |scan|
        invariant 0 <= i <= |scan| && Valid()
        invariant Load(queue.sets, db, scan[i..], config.order)
                  == Load(old(queue.sets), db, scan, config.order)
      {
        var op := New(db[scan[i]]);
        assert scan[i..][1..] == scan[i + 1..];
        if op.None? {
          return false;
        }
        ghost var before := queue.sets;
        queue.AddOp(scan[i].aiMiddleware, op.value);
        assert queue.sets == PoolsAdd(before, scan[i].aiMiddleware, op.value, config.order) by {
          PoolsAddIs(before, scan[i].aiMiddleware, op.value, config.order);
        }
        i := i + 1;
      }
      return true;
    }

    method AddOp(aiMiddleware: Address, op: AiOperation, committed: bool) returns (ok: bool)
      requires Valid() && Allowed(View(), Add(aiMiddleware, op))
      modifies this, queue
      ensures Valid() && queue == old(queue) && ok == committed
      ensures View() == if ok then Step(old(View()), Add(aiMiddleware, op), config) else old(View())
    {
      var data := ToJson(op, config.checksum);
      if !committed {
        return false;
      }
      db := db[KeyOf(aiMiddleware, op) := data];
      queue.AddOp(aiMiddleware, op);
      return true;
    }

    method RemoveOps(aiMiddleware: Address, ops: seq<AiOperation>, committed: bool) returns (ok: bool)
      requires Valid()
      modifies this, queue
      ensures Valid() && queue == old(queue) && ok == committed
      ensures View() == if ok then Step(old(View()), Remove(aiMiddleware, ops), config) else old(View())
    {
      var txn := db;
      var i := 0;
      while i < |ops|
        invariant 0 <= i <= |ops|
        invariant txn == db - KeysOf(aiMiddleware, ops[..i])
        invariant db == old(db) && queue == old(queue) && queue.sets == old(queue.sets)
      {
        assert ops[..i + 1] == ops[..i] + [ops[i]];
        txn := txn - {KeyOf(aiMiddleware, ops[i])};
        i := i + 1;
      }
      assert ops[..|ops|] == ops;
      if !committed {
        return false;
      }
      db := txn;
      queue.RemoveOps(aiMiddleware, ops);
      return true;
    }

    method GetOps(aiMiddleware: Address, sender: Address) returns (ops: seq<AiOperation>)
      requires Valid()
      modifies queue
      ensures Valid()
      ensures ops == Reverse(Values(EntitySet(PoolOf(old(queue.sets), aiMiddleware), sender)))
      ensures forall m :: SameContents(PoolOf(queue.sets, m), PoolOf(old(queue.sets), m))
    {
      ops := queue.GetOps(aiMiddleware, sender);
    }

    method Dump(aiMiddleware: Address) returns (ops: seq<AiOperation>)
      requires Valid()
      modifies queue
      ensures Valid()
      ensures ops == Values(PoolOf(old(queue.sets), aiMiddleware).all)
      ensures forall m :: SameContents(PoolOf(queue.sets, m), PoolOf(old(queue.sets), m))
    {
      ops := queue.All(aiMiddleware);
    }

    /** Drops what the database holds of the mempool; what else it holds goes too (Client.Debug). */
    method ClearAll(committed: bool) returns (ok: bool)
      requires Valid()
      modifies this
      ensures Valid() && ok == committed && (ok ==> fresh(queue)) && (!ok ==> queue == old(queue))
      ensures View() == if ok then Step(old(View()), Clear, config) else old(View())
    {
      if !committed {
        return false;
      }
      db := map[];
      queue := new AiOpQueues(config.order);
      return true;
    }
  }

  lemma PoolsAddIs(pools: Pools, aiMiddleware: Address, op: AiOperation, order: Order)
    ensures PoolsAdd(pools, aiMiddleware, op, order)
            == pools[aiMiddleware := AddToPool(PoolOf(pools, aiMiddleware), aiMiddleware, op, order)]
  {
  }

  /** Reading creates empty sets; nothing else changes. */
  ghost predicate SameContents(p: Pool, q: Pool) {
    p.all == q.all && forall a :: EntitySet(p, a) == EntitySet(q, a)
  }
}
