/** In which order Dump returns the pending operations. A new operation gets the current count as
    its score, so arrival order is kept as long as nothing is removed or replaced. */
module MempoolOrder {
  import opened Text
  import opened AiOp
  import opened DbKeys
  import opened SortedSets
  import opened MempoolQueue

  /** The scores of `all` are 0, 1, 2, ... */
  ghost predicate Dense(p: Pool) {
    forall i | 0 <= i < |p.all| :: p.all[i].score == i
  }

  function AddInTurn(p: Pool, aiMiddleware: Address, ops: seq<AiOperation>, order: Order): Pool
    decreases |ops|
  {
    if ops == [] then p
    else AddInTurn(AddToPool(p, aiMiddleware, ops[0], order), aiMiddleware, ops[1..], order)
  }

  lemma {:induction false} RemoveAbsent<V>(nodes: seq<Node<V>>, key: Key)
    requires key !in Entries(nodes)
    ensures Remove(nodes, key) == nodes
    decreases |nodes|
  {
    if nodes != [] {
      RemoveAbsent(nodes[1..], key);
    }
  }

  lemma AddFreshAppends(p: Pool, aiMiddleware: Address, op: AiOperation, order: Order)
    requires Dense(p) && KeyOf(aiMiddleware, op) !in Pending(p)
    ensures var r := AddToPool(p, aiMiddleware, op, order);
            Dense(r) && r.all == p.all + [Node(KeyOf(aiMiddleware, op), |p.all|, op)]
  {
    hide Entries, GetFactory, GetPaymaster, ZeroAddress, Remove, Insert, SetValue;
    var key := KeyOf(aiMiddleware, op);
    if HasScore(p.all, key, |p.all|) { EntriesKeys(p.all, key); }
    RemoveAbsent(p.all, key);
    InsertLast(p.all, Node(key, |p.all|, op), order.less);
  }

  lemma {:induction false} OnlyLastIsAppended<V>(nodes: seq<Node<V>>, n: Node<V>, less: Less)
    requires Insert(nodes, n, less) == nodes + [n]
    requires forall i | 0 <= i < |nodes| :: nodes[i].key != n.key
    ensures forall i | 0 <= i < |nodes| :: Before(nodes[i], n, less)
    decreases |nodes|
  {
    if nodes != [] {
      var r := Insert(nodes, n, less);
      assert r[0] == nodes[0];
      assert r[1..] == nodes[1..] + [n];
      OnlyLastIsAppended(nodes[1..], n, less);
      forall i | 0 <= i < |nodes| ensures Before(nodes[i], n, less) {
        if i > 0 { assert nodes[i] == nodes[1..][i - 1]; }
      }
    }
  }

  /** Without the node of its key, a node that is the last one is at the end. */
  lemma {:induction false} SetLast<V>(nodes: seq<Node<V>>, key: Key, value: V, n: Node<V>)
    requires Distinct(nodes) && key in Entries(nodes) && n.key == key && n.value == value
    requires forall i | 0 <= i < |nodes| && nodes[i].key == key :: nodes[i].score == n.score
    ensures SetValue(nodes, key, value) == Remove(nodes, key) + [n] <==> nodes[|nodes| - 1].key == key
    decreases |nodes|
  {
    var rest := nodes[1..];
    if nodes[0].key == key {
      assert SetValue(nodes, key, value) == [n] + rest && Remove(nodes, key) == rest;
      if rest != [] {
        assert nodes[1].key != nodes[0].key && nodes[|nodes| - 1].key != nodes[0].key;
        assert ([n] + rest)[0] == n && (rest + [n])[0] == nodes[1];
      }
    } else {
      SetLast(rest, key, value, n);
      assert SetValue(nodes, key, value) == [nodes[0]] + SetValue(rest, key, value);
      assert Remove(nodes, key) + [n] == [nodes[0]] + (Remove(rest, key) + [n]);
      assert nodes[|nodes| - 1] == rest[|rest| - 1];
      ConsCancel(nodes[0], SetValue(rest, key, value), Remove(rest, key) + [n]);
    }
  }

  lemma ConsCancel<T>(x: T, a: seq<T>, b: seq<T>)
    ensures [x] + a == [x] + b <==> a == b
  {
    if [x] + a == [x] + b {
      assert ([x] + a)[1..] == a && ([x] + b)[1..] == b;
    }
  }

  /** The score of an added or replacing operation, the current count, is past every other score (ties
      broken by key), or the operation it replaces has that very score and is the last one. */
  ghost predicate ComesLast(p: Pool, aiMiddleware: Address, op: AiOperation, order: Order) {
    var n := Node(KeyOf(aiMiddleware, op), |p.all|, op);
    var others := Remove(p.all, n.key);
    if HasScore(p.all, n.key, n.score) then p.all != [] && p.all[|p.all| - 1].key == n.key
    else forall i | 0 <= i < |others| :: Before(others[i], n, order.less)
  }

  /** Where an added operation is placed: ComesLast says exactly when it comes out after all others. */
  lemma ComesLastIff(p: Pool, aiMiddleware: Address, op: AiOperation, order: Order)
    requires PoolOk(p)
    ensures var n := Node(KeyOf(aiMiddleware, op), |p.all|, op);
            AddToPool(p, aiMiddleware, op, order).all == Remove(p.all, n.key) + [n]
            <==> ComesLast(p, aiMiddleware, op, order)
  {
    hide GetFactory, GetPaymaster, ZeroAddress, Entries, Remove, Insert, SetValue, Before;
    var key := KeyOf(aiMiddleware, op);
    var n := Node(key, |p.all|, op);
    if HasScore(p.all, key, |p.all|) {
      EntriesKeys(p.all, key);
      SetLast(p.all, key, op, n);
    } else {
      var others := Remove(p.all, key);
      RemoveEntries(p.all, key);
      forall i | 0 <= i < |others| ensures others[i].key != key { EntriesKeys(others, others[i].key); }
      if forall i | 0 <= i < |others| :: Before(others[i], n, order.less) {
        InsertLast(others, n, order.less);
      } else if AddToPool(p, aiMiddleware, op, order).all == others + [n] {
        OnlyLastIsAppended(others, n, order.less);
      }
    }
  }

  lemma {:induction false} RemoveAt<V>(nodes: seq<Node<V>>, i: nat)
    requires Distinct(nodes) && i < |nodes|
    ensures Remove(nodes, nodes[i].key) == nodes[..i] + nodes[i + 1..]
    decreases |nodes|
  {
    if i > 0 {
      RemoveAt(nodes[1..], i - 1);
      assert nodes[0].key != nodes[i].key;
      assert nodes[1..][..i - 1] == nodes[1..i];
    }
  }

  /** A replacement moves its operation behind all others, whatever its place was. */
  lemma ReplacementMovesLast(p: Pool, aiMiddleware: Address, op: AiOperation, i: nat, order: Order)
    requires PoolOk(p) && Dense(p) && i < |p.all| && p.all[i].key == KeyOf(aiMiddleware, op)
    ensures Values(AddToPool(p, aiMiddleware, op, order).all)
            == Values(p.all[..i] + p.all[i + 1..]) + [op]
  {
    hide GetFactory, GetPaymaster, ZeroAddress, Insert, SetValue, Remove, Values, Entries;
    var n := Node(KeyOf(aiMiddleware, op), |p.all|, op);
    var others := p.all[..i] + p.all[i + 1..];
    RemoveAt(p.all, i);
    assert !HasScore(p.all, n.key, n.score);
    InsertLast(others, n, order.less);
    ValuesAppend(others, n);
  }

  // ---------------------------------------------------------------- arrival order

  ghost predicate AllFresh(p: Pool, aiMiddleware: Address, ops: seq<AiOperation>) {
    && (forall i | 0 <= i < |ops| :: KeyOf(aiMiddleware, ops[i]) !in Pending(p))
    && (forall i, j | 0 <= i < j < |ops| :: KeyOf(aiMiddleware, ops[i]) != KeyOf(aiMiddleware, ops[j]))
  }

  /** Operations with new keys, added while the scores are dense (to an empty pool, for instance),
      come out in the order they went in. */
  lemma {:induction false} FreshArrivalsAreFifo(p: Pool, aiMiddleware: Address, ops: seq<AiOperation>, order: Order)
    requires PoolOk(p) && Dense(p) && AllFresh(p, aiMiddleware, ops)
    ensures var r := AddInTurn(p, aiMiddleware, ops, order);
            Dense(r) && Values(r.all) == Values(p.all) + ops
    decreases |ops|
  {
    hide AddToPool, Dense, PoolOk, Pending, Entries, Values;
    if ops == [] {
      assert Values(p.all) + ops == Values(p.all);
    } else {
      var q := AddToPool(p, aiMiddleware, ops[0], order);
      AddToPoolAsMaps(p, aiMiddleware, ops[0], order);
      AddFreshAppends(p, aiMiddleware, ops[0], order);
      ValuesAppend(p.all, Node(KeyOf(aiMiddleware, ops[0]), |p.all|, ops[0]));
      FreshArrivalsAreFifo(q, aiMiddleware, ops[1..], order);
      assert Values(p.all) + [ops[0]] + ops[1..] == Values(p.all) + ops;
    }
  }

  lemma {:induction false} ValuesAppend<V>(nodes: seq<Node<V>>, n: Node<V>)
    ensures Values(nodes + [n]) == Values(nodes) + [n.value]
    decreases |nodes|
  {
    if nodes == [] {
      assert [n][1..] == [];
    } else {
      assert (nodes + [n])[1..] == nodes[1..] + [n];
      ValuesAppend(nodes[1..], n);
    }
  }

  /** After a removal arrival order can be lost: with a first operation gone, a third one gets the
      same score as the second, and comes out before it if its key sorts first. */
  lemma FifoFailsAfterRemoval(aiMiddleware: Address, first: AiOperation, second: AiOperation,
                              third: AiOperation, order: Order)
    requires AllFresh(EMPTY_POOL, aiMiddleware, [first, second, third])
    requires !order.less(KeyOf(aiMiddleware, second), KeyOf(aiMiddleware, third))
    ensures var p := AddInTurn(EMPTY_POOL, aiMiddleware, [first, second], order);
            var q := RemoveFromPool(p, aiMiddleware, first);
            Values(AddToPool(q, aiMiddleware, third, order).all) == [third, second]
  {
    var k1, k2, k3 := KeyOf(aiMiddleware, first), KeyOf(aiMiddleware, second), KeyOf(aiMiddleware, third);
    assert k1 != k2 && k1 != k3 && k2 != k3 by {
      var ops := [first, second, third];
      assert k1 == KeyOf(aiMiddleware, ops[0]) && k2 == KeyOf(aiMiddleware, ops[1])
          && k3 == KeyOf(aiMiddleware, ops[2]);
    }
    var p1 := AddToPool(EMPTY_POOL, aiMiddleware, first, order);
    AddFreshAppends(EMPTY_POOL, aiMiddleware, first, order);
    var n1, n2 := Node(k1, 0, first), Node(k2, 1, second);
    assert p1.all == [n1];
    assert Entries([n1]) == map[k1 := first];
    AddFreshAppends(p1, aiMiddleware, second, order);
    var p := AddToPool(p1, aiMiddleware, second, order);
    assert p.all == [n1, n2];
    AddTwo(aiMiddleware, first, second, order);
    hide AddToPool, AddInTurn, GetFactory, GetPaymaster, ZeroAddress;
    var q := RemoveFromPool(p, aiMiddleware, first);
    assert q.all == [n2] by { assert [n1, n2][1..] == [n2]; }
    AddThird(q, aiMiddleware, n2, third, order);
  }

  lemma AddTwo(aiMiddleware: Address, first: AiOperation, second: AiOperation, order: Order)
    ensures AddInTurn(EMPTY_POOL, aiMiddleware, [first, second], order)
            == AddToPool(AddToPool(EMPTY_POOL, aiMiddleware, first, order), aiMiddleware, second, order)
  {
    hide AddToPool;
    var p1 := AddToPool(EMPTY_POOL, aiMiddleware, first, order);
    var p2 := AddToPool(p1, aiMiddleware, second, order);
    assert AddInTurn(p2, aiMiddleware, [], order) == p2;
    assert [second][1..] == [];
    assert AddInTurn(p1, aiMiddleware, [second], order) == p2;
    assert [first, second][1..] == [second];
  }

  lemma AddThird(q: Pool, aiMiddleware: Address, n2: Node<AiOperation>, third: AiOperation, order: Order)
    requires q.all == [n2] && n2.score == 1 && n2.key != KeyOf(aiMiddleware, third)
    requires !order.less(n2.key, KeyOf(aiMiddleware, third))
    ensures Values(AddToPool(q, aiMiddleware, third, order).all) == [third, n2.value]
  {
    hide GetFactory, GetPaymaster, ZeroAddress;
    var k3 := KeyOf(aiMiddleware, third);
    var n3 := Node(k3, 1, third);
    assert Remove([n2], k3) == [n2] + Remove([], k3);
    assert Insert([n2], n3, order.less) == [n3] + [n2];
    assert AddToPool(q, aiMiddleware, third, order).all == [n3] + [n2];
    assert ([n3] + [n2])[1..] == [n2] && [n2][1..] == [];
    assert Values([n2]) == [n2.value] + Values([]);
  }
}
