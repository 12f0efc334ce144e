/** When Dump returns operations in the order they arrived (pkg/mempool/instance.go), over whole runs of
    additions, replacements, removals and clearing. A replacement arrives anew. */
module ArrivalOrder {
  import opened Text
  import opened AiOp
  import opened DbKeys
  import opened SortedSets
  import opened MempoolQueue
  import opened Mempool
  import opened MempoolInvariants
  import opened MempoolOrder

  /** A list of operations without the one of a key. */
  function Without(ops: seq<AiOperation>, m: Address, key: Key): seq<AiOperation> {
    if ops == [] then []
    else if KeyOf(m, ops[0]) == key then ops[1..]
    else [ops[0]] + Without(ops[1..], m, key)
  }

  function WithoutAll(ops: seq<AiOperation>, m: Address, gone: seq<AiOperation>): seq<AiOperation>
    decreases |gone|
  {
    if gone == [] then ops else WithoutAll(Without(ops, m, KeyOf(m, gone[0])), m, gone[1..])
  }

  /** The operations of a middleware in the order they arrived, after one more action. */
  function Arrived(arrived: seq<AiOperation>, a: Action, m: Address): seq<AiOperation> {
    match a
    case Add(x, op) => if x == m then Without(arrived, m, KeyOf(m, op)) + [op] else arrived
    case Remove(x, ops) => if x == m then WithoutAll(arrived, m, ops) else arrived
    case Clear => []
    case Restart(_) => arrived
  }

  function DumpOf(s: State, m: Address): seq<AiOperation> {
    Values(PoolOf(s.pools, m).all)
  }

  // ---------------------------------------------------------------- one pool

  ghost predicate KeyedNodes(nodes: seq<Node<AiOperation>>, m: Address) {
    forall i | 0 <= i < |nodes| :: nodes[i].key == KeyOf(m, nodes[i].value)
  }

  lemma FiledNodes(p: Pool, m: Address)
    requires Filed(p, m)
    ensures Distinct(p.all) && KeyedNodes(p.all, m)
  {
    hide Indexed, OwnKeys, Entries;
    forall i | 0 <= i < |p.all| ensures p.all[i].key == KeyOf(m, p.all[i].value) {
      EntryOf(p.all, i);
      assert p.all[i].key in Pending(p);
    }
  }

  lemma {:induction false} ValuesWithout(nodes: seq<Node<AiOperation>>, m: Address, key: Key)
    requires KeyedNodes(nodes, m)
    ensures Values(SortedSets.Remove(nodes, key)) == Without(Values(nodes), m, key)
    decreases |nodes|
  {
    if nodes != [] {
      var rest := nodes[1..];
      assert Values(nodes)[1..] == Values(rest);
      if nodes[0].key != key {
        ValuesWithout(rest, m, key);
        var kept := SortedSets.Remove(rest, key);
        assert ([nodes[0]] + kept)[1..] == kept;
      }
    }
  }

  /** The last node of a list is the one of a key. */
  predicate EndsWith(nodes: seq<Node<AiOperation>>, key: Key) {
    nodes != [] && nodes[|nodes| - 1].key == key
  }

  lemma {:induction false} InsertedAtEnd(nodes: seq<Node<AiOperation>>, n: Node<AiOperation>, less: Less)
    requires forall i | 0 <= i < |nodes| :: nodes[i].key != n.key
    requires EndsWith(Insert(nodes, n, less), n.key)
    ensures Insert(nodes, n, less) == nodes + [n]
    decreases |nodes|
  {
    if nodes != [] && Before(nodes[0], n, less) {
      var rest := Insert(nodes[1..], n, less);
      assert Insert(nodes, n, less) == [nodes[0]] + rest;
      InsertedAtEnd(nodes[1..], n, less);
    }
  }

  lemma LastValue(nodes: seq<Node<AiOperation>>, m: Address, ops: seq<AiOperation>, op: AiOperation)
    requires KeyedNodes(nodes, m) && Values(nodes) == ops + [op]
    ensures EndsWith(nodes, KeyOf(m, op))
  {
    hide Values;
    ValuesAt(nodes);
    assert Values(nodes)[|nodes| - 1] == op;
  }

  lemma EndsLast(p: Pool, m: Address, op: AiOperation, order: Order)
    requires Distinct(p.all) && EndsWith(AddToPool(p, m, op, order).all, KeyOf(m, op))
    ensures ComesLast(p, m, op, order)
  {
    var key := KeyOf(m, op);
    var n := Node(key, |p.all|, op);
    AllAfterAdd(p, m, op, order);
    hide AddToPool, Insert, SetValue, SortedSets.Remove, Entries;
    if HasScore(p.all, key, |p.all|) {
      EntriesKeys(p.all, key);
      SetValueEntries(p.all, key, op);
    } else {
      var others := SortedSets.Remove(p.all, key);
      RemoveEntries(p.all, key);
      forall i | 0 <= i < |others| ensures others[i].key != key { EntriesKeys(others, others[i].key); }
      InsertedAtEnd(others, n, order.less);
      OnlyLastIsAppended(others, n, order.less);
    }
  }

  lemma AllAfterAdd(p: Pool, m: Address, op: AiOperation, order: Order)
    ensures AddToPool(p, m, op, order).all == AddOrUpdate(p.all, KeyOf(m, op), |p.all|, op, order.less)
  {
    hide AddOrUpdate, GetFactory, GetPaymaster, ZeroAddress, EntitySet;
  }

  /** One addition keeps arrival order if and only if its operation comes out after all others. */
  lemma AddInOrderIff(p: Pool, m: Address, op: AiOperation, order: Order)
    requires Filed(p, m) && op.sender != ZeroAddress()
    ensures Values(AddToPool(p, m, op, order).all) == Without(Values(p.all), m, KeyOf(m, op)) + [op]
            <==> ComesLast(p, m, op, order)
  {
    var key := KeyOf(m, op);
    var others, n := SortedSets.Remove(p.all, key), Node(key, |p.all|, op);
    FiledNodes(p, m);
    FiledIsOk(p, m);
    AddKeepsFiled(p, m, op, order);
    FiledNodes(AddToPool(p, m, op, order), m);
    ValuesWithout(p.all, m, key);
    ComesLastIff(p, m, op, order);
    ValuesAppend(others, n);
    hide AddToPool, Filed, KeyedNodes, Distinct, SortedSets.Remove, Without, Values, PoolOk, ZeroAddress, Before;
    if Values(AddToPool(p, m, op, order).all) == Without(Values(p.all), m, key) + [op] {
      LastValue(AddToPool(p, m, op, order).all, m, Without(Values(p.all), m, key), op);
      EndsLast(p, m, op, order);
    }
  }

  lemma {:induction false} RemovalsKeepOrder(p: Pool, m: Address, ops: seq<AiOperation>)
    requires Filed(p, m)
    ensures Values(RemoveAllFromPool(p, m, ops).all) == WithoutAll(Values(p.all), m, ops)
    decreases |ops|
  {
    hide Filed, KeyedNodes, Distinct, Values, Without;
    if ops != [] {
      FiledNodes(p, m);
      ValuesWithout(p.all, m, KeyOf(m, ops[0]));
      RemoveKeepsFiled(p, m, ops[0]);
      RemovalsKeepOrder(RemoveFromPool(p, m, ops[0]), m, ops[1..]);
    }
  }

  // ---------------------------------------------------------------- runs

  /** An addition to the middleware comes out after all others; other actions have nothing to meet. */
  ghost predicate ArrivesLast(s: State, a: Action, c: Config, m: Address) {
    a.Add? && a.aiMiddleware == m ==> ComesLast(PoolOf(s.pools, m), m, a.op, c.order)
  }

  /** One action keeps arrival order if and only if it adds at the end, if it adds. */
  lemma StepInOrderIff(s: State, a: Action, c: Config, m: Address)
    requires Invariant(s, c) && Allowed(s, a) && !a.Restart?
    ensures DumpOf(Step(s, a, c), m) == Arrived(DumpOf(s, m), a, m) <==> ArrivesLast(s, a, c, m)
  {
    assert Filed(PoolOf(s.pools, m), m);
    hide Filed, DiskAgrees, AddToPool, RemoveAllFromPool, ComesLast, Values, Without, WithoutAll, ZeroAddress, ToJson;
    match a
    case Add(x, op) =>
      if x == m {
        AddInOrderIff(PoolOf(s.pools, m), m, op, c.order);
      }
    case Remove(x, ops) =>
      if x == m {
        RemovalsKeepOrder(PoolOf(s.pools, m), m, ops);
      }
    case Clear => NothingDumped(m);
  }

  lemma NothingDumped(m: Address)
    ensures DumpOf(EMPTY, m) == []
  {
  }

  /** At every point of the run Dump returns what has arrived, in that order. */
  ghost predicate InOrder(s: State, arrived: seq<AiOperation>, actions: seq<Action>, c: Config, m: Address)
    requires AllowedRun(s, actions, c)
    decreases |actions|
  {
    && DumpOf(s, m) == arrived
    && (actions == [] || InOrder(Step(s, actions[0], c), Arrived(arrived, actions[0], m), actions[1..], c, m))
  }

  ghost predicate AllArriveLast(s: State, actions: seq<Action>, c: Config, m: Address)
    requires AllowedRun(s, actions, c)
    decreases |actions|
  {
    || actions == []
    || (ArrivesLast(s, actions[0], c, m) && AllArriveLast(Step(s, actions[0], c), actions[1..], c, m))
  }

  /** Between restarts, Dump returns operations in the order they arrived throughout a run if and only if
      every addition found its score past all others, or replaced the last operation under its score. */
  lemma {:induction false} ArrivalOrderIff(s: State, actions: seq<Action>, c: Config, m: Address)
    requires Invariant(s, c) && AllowedRun(s, actions, c)
    requires forall a | a in actions :: !a.Restart?
    ensures InOrder(s, DumpOf(s, m), actions, c, m) <==> AllArriveLast(s, actions, c, m)
    decreases |actions|
  {
    hide Invariant, Step, DumpOf, Arrived, ArrivesLast, Allowed;
    if actions != [] {
      var a := actions[0];
      assert a in actions;
      var t := Step(s, a, c);
      StepKeepsInvariant(s, a, c);
      StepInOrderIff(s, a, c, m);
      if ArrivesLast(s, a, c, m) {
        ArrivalOrderIff(t, actions[1..], c, m);
      }
    }
  }
}
