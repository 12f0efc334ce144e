/** The in-memory queue of pkg/mempool/queue.go: for every middleware one set of all pending
    operations and one set per sender, factory and paymaster. */
module MempoolQueue {
  import opened Text
  import opened AiOp
  import opened DbKeys
  import opened SortedSets

  type OpSet = seq<Node<AiOperation>>

  /** The sets of one middleware. An address without a set has an empty one. */
  datatype Pool = Pool(all: OpSet, entities: map<Address, OpSet>)

  const EMPTY_POOL := Pool([], map[])

  /** How sets break ties between equal scores, and how a nonce becomes a score. */
  datatype Order = Order(less: Less, nonceScore: nat -> int)

  type Pools = map<Address, Pool>

  function KeyOf(aiMiddleware: Address, op: AiOperation): Key {
    Key(aiMiddleware, op.sender, op.nonce)
  }

  function PoolOf(pools: Pools, aiMiddleware: Address): Pool {
    if aiMiddleware in pools then pools[aiMiddleware] else EMPTY_POOL
  }

  function EntitySet(p: Pool, entity: Address): OpSet {
    if entity in p.entities then p.entities[entity] else []
  }

  function WithEntitySet(p: Pool, entity: Address, s: OpSet): Pool {
    p.(entities := p.entities[entity := s])
  }

  function IndexUnder(p: Pool, entity: Address, key: Key, score: int, op: AiOperation, order: Order): Pool {
    WithEntitySet(p, entity, AddOrUpdate(EntitySet(p, entity), key, score, op, order.less))
  }

  function AddToPool(p: Pool, aiMiddleware: Address, op: AiOperation, order: Order): Pool {
    var key := KeyOf(aiMiddleware, op);
    var p0 := p.(all := AddOrUpdate(p.all, key, |p.all|, op, order.less));
    var p1 := IndexUnder(p0, op.sender, key, order.nonceScore(op.nonce), op, order);
    var factory := GetFactory(op);
    var p2 := if factory == ZeroAddress() then p1
              else IndexUnder(p1, factory, key, |EntitySet(p1, factory)|, op, order);
    var paymaster := GetPaymaster(op);
    if paymaster == ZeroAddress() then p2
    else IndexUnder(p2, paymaster, key, |EntitySet(p2, paymaster)|, op, order)
  }

  function UnindexUnder(p: Pool, entity: Address, key: Key): Pool {
    WithEntitySet(p, entity, Remove(EntitySet(p, entity), key))
  }

  /** Removal goes by the factory and paymaster of the operation passed in, zero included. */
  function RemoveFromPool(p: Pool, aiMiddleware: Address, op: AiOperation): Pool {
    var key := KeyOf(aiMiddleware, op);
    var p0 := p.(all := Remove(p.all, key));
    UnindexUnder(UnindexUnder(UnindexUnder(p0, op.sender, key), GetFactory(op), key), GetPaymaster(op), key)
  }

  function RemoveAllFromPool(p: Pool, aiMiddleware: Address, ops: seq<AiOperation>): Pool
    decreases |ops|
  {
    if ops == [] then p
    else RemoveAllFromPool(RemoveFromPool(p, aiMiddleware, ops[0]), aiMiddleware, ops[1..])
  }

  lemma RemoveNone(p: Pool, aiMiddleware: Address, ops: seq<AiOperation>)
    ensures RemoveAllFromPool(p, aiMiddleware, ops[..0]) == p && ops[..|ops|] == ops
  {
  }

  lemma {:induction false} RemoveAllSnoc(p: Pool, aiMiddleware: Address, ops: seq<AiOperation>, op: AiOperation)
    ensures RemoveAllFromPool(p, aiMiddleware, ops + [op])
            == RemoveFromPool(RemoveAllFromPool(p, aiMiddleware, ops), aiMiddleware, op)
    decreases |ops|
  {
    hide RemoveFromPool;
    if ops == [] {
      assert ([op])[1..] == [];
    } else {
      assert (ops + [op])[1..] == ops[1..] + [op];
      RemoveAllSnoc(RemoveFromPool(p, aiMiddleware, ops[0]), aiMiddleware, ops[1..], op);
    }
  }

  function Reverse<T>(s: seq<T>): seq<T> {
    if s == [] then [] else Reverse(s[1..]) + [s[0]]
  }

  // ---------------------------------------------------------------- the object

  class AiOpQueues {
    var sets: Pools
    const order: Order

    constructor (order: Order)
      ensures sets == map[] && this.order == order
    {
      this.order := order;
      sets := map[];
    }

    /** A set is created on first use. */
    method GetAiMiddlewareSet(aiMiddleware: Address) returns (eps: Pool)
      modifies this
      ensures eps == PoolOf(old(sets), aiMiddleware)
      ensures sets == old(sets)[aiMiddleware := eps]
    {
      if aiMiddleware !in sets {
        sets := sets[aiMiddleware := EMPTY_POOL];
      }
      eps := sets[aiMiddleware];
    }

    method AddOp(aiMiddleware: Address, op: AiOperation)
      modifies this
      ensures sets == old(sets)[aiMiddleware := AddToPool(PoolOf(old(sets), aiMiddleware), aiMiddleware, op, order)]
    {
      hide AddOrUpdate, GetFactory, GetPaymaster, ZeroAddress;
      var eps := GetAiMiddlewareSet(aiMiddleware);
      var key := KeyOf(aiMiddleware, op);

      eps := eps.(all := AddOrUpdate(eps.all, key, |eps.all|, op, order.less));
      eps := IndexUnder(eps, op.sender, key, order.nonceScore(op.nonce), op, order);
      var factory := GetFactory(op);
      if factory != ZeroAddress() {
        var fss := EntitySet(eps, factory);
        eps := IndexUnder(eps, factory, key, |fss|, op, order);
      }
      var paymaster := GetPaymaster(op);
      if paymaster != ZeroAddress() {
        var pss := EntitySet(eps, paymaster);
        eps := IndexUnder(eps, paymaster, key, |pss|, op, order);
      }
      sets := sets[aiMiddleware := eps];
    }

    /** The operations of an entity, highest score first. */
    method GetOps(aiMiddleware: Address, entity: Address) returns (batch: seq<AiOperation>)
      modifies this
      ensures batch == Reverse(Values(EntitySet(PoolOf(old(sets), aiMiddleware), entity)))
      ensures var p := PoolOf(old(sets), aiMiddleware);
              sets == old(sets)[aiMiddleware := WithEntitySet(p, entity, EntitySet(p, entity))]
    {
      var eps := GetAiMiddlewareSet(aiMiddleware);
      var ess := EntitySet(eps, entity);
      sets := sets[aiMiddleware := WithEntitySet(eps, entity, ess)];
      batch := [];
      var i := 0;
      while i < |ess|
        invariant 0 <= i <= |ess|
        invariant batch == Reverse(Values(ess[|ess| - i..]))
      {
        i := i + 1;
        ghost var rest := ess[|ess| - i..];
        assert rest[1..] == ess[|ess| - (i - 1)..];
        batch := batch + [ess[|ess| - i].value];
      }
      assert ess[0..] == ess;
    }

    /** All operations, lowest score first. */
    method All(aiMiddleware: Address) returns (batch: seq<AiOperation>)
      modifies this
      ensures batch == Values(PoolOf(old(sets), aiMiddleware).all)
      ensures sets == old(sets)[aiMiddleware := PoolOf(old(sets), aiMiddleware)]
    {
      var eps := GetAiMiddlewareSet(aiMiddleware);
      batch := [];
      var i := 0;
      while i < |eps.all|
        invariant 0 <= i <= |eps.all|
        invariant batch + Values(eps.all[i..]) == Values(eps.all)
      {
        assert eps.all[i..][1..] == eps.all[i + 1..];
        batch := batch + [eps.all[i].value];
        i := i + 1;
      }
    }

    method RemoveOps(aiMiddleware: Address, ops: seq<AiOperation>)
      modifies this
      ensures sets == old(sets)[aiMiddleware := RemoveAllFromPool(PoolOf(old(sets), aiMiddleware), aiMiddleware, ops)]
    {
      hide *;
      var eps := GetAiMiddlewareSet(aiMiddleware);
      var left := RemoveEach(eps, aiMiddleware, ops);
      sets := sets[aiMiddleware := left];
    }
  }

  method RemoveEach(p: Pool, aiMiddleware: Address, ops: seq<AiOperation>) returns (eps: Pool)
    ensures eps == RemoveAllFromPool(p, aiMiddleware, ops)
  {
    hide Remove, GetFactory, GetPaymaster, UnindexUnder, RemoveAllFromPool;
    RemoveNone(p, aiMiddleware, ops);
    eps := p;
    var i := 0;
    while i < |ops|
      invariant 0 <= i <= |ops|
      invariant eps == RemoveAllFromPool(p, aiMiddleware, ops[..i])
    {
      RemoveAllSnoc(p, aiMiddleware, ops[..i], ops[i]);
      assert ops[..i + 1] == ops[..i] + [ops[i]];
      var key := KeyOf(aiMiddleware, ops[i]);
      eps := eps.(all := Remove(eps.all, key));
      eps := UnindexUnder(eps, ops[i].sender, key);
      eps := UnindexUnder(eps, GetFactory(ops[i]), key);
      eps := UnindexUnder(eps, GetPaymaster(ops[i]), key);
      i := i + 1;
    }
  }

  // ---------------------------------------------------------------- sets as maps

  ghost predicate PoolOk(p: Pool) {
    && Distinct(p.all)
    && forall a | a in p.entities :: Distinct(p.entities[a])
  }

  /** The pending operations by key. */
  function Pending(p: Pool): map<Key, AiOperation> {
    Entries(p.all)
  }

  /** What an entity's set holds, by key. */
  function Index(p: Pool, entity: Address): map<Key, AiOperation> {
    Entries(EntitySet(p, entity))
  }

  /** The addresses an operation is filed under. */
  predicate Uses(op: AiOperation, entity: Address) {
    || entity == op.sender
    || (entity != ZeroAddress() && (entity == GetFactory(op) || entity == GetPaymaster(op)))
  }

  lemma IndexUnderAsMaps(p: Pool, entity: Address, key: Key, score: int, op: AiOperation, order: Order)
    requires PoolOk(p)
    ensures var r := IndexUnder(p, entity, key, score, op, order);
            && PoolOk(r) && r.all == p.all
            && (forall a :: Index(r, a) == if a == entity then Index(p, a)[key := op] else Index(p, a))
  {
    hide Distinct, Entries, AddOrUpdate;
    assert Distinct(EntitySet(p, entity)) by { EmptyDistinct(); }
    AddOrUpdateEntries(EntitySet(p, entity), key, score, op, order.less);
  }

  lemma UnindexUnderAsMaps(p: Pool, entity: Address, key: Key)
    requires PoolOk(p)
    ensures var r := UnindexUnder(p, entity, key);
            && PoolOk(r) && r.all == p.all
            && (forall a :: Index(r, a) == if a == entity then Index(p, a) - {key} else Index(p, a))
  {
    hide Distinct, Entries, Remove;
    assert Distinct(EntitySet(p, entity)) by { EmptyDistinct(); }
    RemoveEntries(EntitySet(p, entity), key);
  }

  lemma EmptyDistinct()
    ensures Distinct<AiOperation>([])
  {
  }

  /** Adding sets the operation's key in `all` and in the set of each address it uses, and changes
      no other set. */
  lemma AddToPoolAsMaps(p: Pool, aiMiddleware: Address, op: AiOperation, order: Order)
    requires PoolOk(p)
    ensures var r := AddToPool(p, aiMiddleware, op, order); var key := KeyOf(aiMiddleware, op);
            && PoolOk(r) && Pending(r) == Pending(p)[key := op]
            && (forall a :: Index(r, a) == if Uses(op, a) then Index(p, a)[key := op] else Index(p, a))
  {
    hide Distinct, Entries, AddOrUpdate, GetFactory, GetPaymaster, ZeroAddress, IndexUnder, Index;
    var key := KeyOf(aiMiddleware, op);
    AddOrUpdateEntries(p.all, key, |p.all|, op, order.less);
    var p0 := p.(all := AddOrUpdate(p.all, key, |p.all|, op, order.less));
    assert forall a :: Index(p0, a) == Index(p, a) by { SameEntities(p, p0); }
    IndexUnderAsMaps(p0, op.sender, key, order.nonceScore(op.nonce), op, order);
    var p1 := IndexUnder(p0, op.sender, key, order.nonceScore(op.nonce), op, order);
    var factory, paymaster := GetFactory(op), GetPaymaster(op);
    var p2 := p1;
    if factory != ZeroAddress() {
      IndexUnderAsMaps(p1, factory, key, |EntitySet(p1, factory)|, op, order);
      p2 := IndexUnder(p1, factory, key, |EntitySet(p1, factory)|, op, order);
    }
    if paymaster != ZeroAddress() {
      IndexUnderAsMaps(p2, paymaster, key, |EntitySet(p2, paymaster)|, op, order);
    }
  }

  lemma SameEntities(p: Pool, q: Pool)
    requires p.entities == q.entities
    ensures forall a :: Index(p, a) == Index(q, a)
  {
  }

  /** Removing drops the operation's key from `all` and from the sets of its addresses only. */
  lemma RemoveFromPoolAsMaps(p: Pool, aiMiddleware: Address, op: AiOperation)
    requires PoolOk(p)
    ensures var r := RemoveFromPool(p, aiMiddleware, op); var key := KeyOf(aiMiddleware, op);
            && PoolOk(r) && Pending(r) == Pending(p) - {key}
            && (forall a :: Index(r, a) ==
                  if a == op.sender || a == GetFactory(op) || a == GetPaymaster(op)
                  then Index(p, a) - {key} else Index(p, a))
  {
    hide Distinct, Entries, Remove, GetFactory, GetPaymaster, UnindexUnder, Index;
    var key := KeyOf(aiMiddleware, op);
    RemoveEntries(p.all, key);
    var p0 := p.(all := Remove(p.all, key));
    assert forall a :: Index(p0, a) == Index(p, a) by { SameEntities(p, p0); }
    UnindexUnderAsMaps(p0, op.sender, key);
    var p1 := UnindexUnder(p0, op.sender, key);
    UnindexUnderAsMaps(p1, GetFactory(op), key);
    var p2 := UnindexUnder(p1, GetFactory(op), key);
    UnindexUnderAsMaps(p2, GetPaymaster(op), key);
  }
}
