/** The sorted sets the mempool queue is built on: nodes in order of score, ties broken by some
    order of the keys, with at most one node for a key. The order of keys is a parameter. */
module SortedSets {
  import opened DbKeys

  datatype Node<V> = Node(key: Key, score: int, value: V)

  type Less = (Key, Key) -> bool

  predicate Before<V>(a: Node<V>, b: Node<V>, less: Less) {
    a.score < b.score || (a.score == b.score && less(a.key, b.key))
  }

  function Insert<V>(nodes: seq<Node<V>>, n: Node<V>, less: Less): seq<Node<V>> {
    if nodes == [] || !Before(nodes[0], n, less) then [n] + nodes
    else [nodes[0]] + Insert(nodes[1..], n, less)
  }

  function Remove<V>(nodes: seq<Node<V>>, key: Key): seq<Node<V>> {
    if nodes == [] then []
    else if nodes[0].key == key then nodes[1..]
    else [nodes[0]] + Remove(nodes[1..], key)
  }

  /** The score a key has, if it is there. */
  predicate HasScore<V>(nodes: seq<Node<V>>, key: Key, score: int) {
    exists i :: 0 <= i < |nodes| && nodes[i].key == key && nodes[i].score == score
  }

  function SetValue<V>(nodes: seq<Node<V>>, key: Key, value: V): seq<Node<V>> {
    if nodes == [] then []
    else if nodes[0].key == key then [nodes[0].(value := value)] + nodes[1..]
    else [nodes[0]] + SetValue(nodes[1..], key, value)
  }

  /** Adding a key that is there keeps its place if the score is the same, and moves it otherwise. */
  function AddOrUpdate<V>(nodes: seq<Node<V>>, key: Key, score: int, value: V, less: Less): seq<Node<V>> {
    if HasScore(nodes, key, score) then SetValue(nodes, key, value)
    else Insert(Remove(nodes, key), Node(key, score, value), less)
  }

  function Values<V>(nodes: seq<Node<V>>): seq<V> {
    if nodes == [] then [] else [nodes[0].value] + Values(nodes[1..])
  }

  // ---------------------------------------------------------------- as maps

  ghost predicate Distinct<V>(nodes: seq<Node<V>>) {
    forall i, j | 0 <= i < j < |nodes| :: nodes[i].key != nodes[j].key
  }

  function Entries<V>(nodes: seq<Node<V>>): map<Key, V> {
    if nodes == [] then map[] else Entries(nodes[1..])[nodes[0].key := nodes[0].value]
  }

  lemma {:induction false} EntriesKeys<V>(nodes: seq<Node<V>>, k: Key)
    ensures k in Entries(nodes) <==> exists i :: 0 <= i < |nodes| && nodes[i].key == k
    decreases |nodes|
  {
    if nodes != [] {
      EntriesKeys(nodes[1..], k);
      if k in Entries(nodes[1..]) {
        var i :| 0 <= i < |nodes[1..]| && nodes[1..][i].key == k;
        assert nodes[i + 1].key == k;
      }
    }
  }

  lemma {:induction false} InsertEntries<V>(nodes: seq<Node<V>>, n: Node<V>, less: Less)
    requires Distinct(nodes) && n.key !in Entries(nodes)
    ensures Distinct(Insert(nodes, n, less))
    ensures Entries(Insert(nodes, n, less)) == Entries(nodes)[n.key := n.value]
    ensures |Insert(nodes, n, less)| == |nodes| + 1
    decreases |nodes|
  {
    forall i | 0 <= i < |nodes| ensures nodes[i].key != n.key { EntriesKeys(nodes, nodes[i].key); }
    if nodes == [] || !Before(nodes[0], n, less) {
      assert ([n] + nodes)[1..] == nodes;
    } else {
      var rest := Insert(nodes[1..], n, less);
      InsertEntries(nodes[1..], n, less);
      assert ([nodes[0]] + rest)[1..] == rest;
      ConsDistinct(nodes, rest, n);
    }
  }

  lemma ConsDistinct<V>(nodes: seq<Node<V>>, rest: seq<Node<V>>, n: Node<V>)
    requires nodes != [] && Distinct(nodes) && Distinct(rest)
    requires n.key != nodes[0].key
    requires Entries(rest) == Entries(nodes[1..])[n.key := n.value]
    ensures Distinct([nodes[0]] + rest)
  {
    forall j | 0 <= j < |rest| ensures rest[j].key != nodes[0].key {
      EntriesKeys(rest, rest[j].key);
      EntriesKeys(nodes[1..], rest[j].key);
    }
  }

  lemma {:induction false} RemoveEntries<V>(nodes: seq<Node<V>>, key: Key)
    requires Distinct(nodes)
    ensures Distinct(Remove(nodes, key)) && Entries(Remove(nodes, key)) == Entries(nodes) - {key}
    ensures forall i | 0 <= i < |Remove(nodes, key)| :: Remove(nodes, key)[i] in nodes
    decreases |nodes|
  {
    if nodes != [] {
      EntriesKeys(nodes[1..], nodes[0].key);
      if nodes[0].key != key {
        RemoveEntries(nodes[1..], key);
        var rest := Remove(nodes[1..], key);
        assert ([nodes[0]] + rest)[1..] == rest;
      }
    }
  }

  lemma {:induction false} SetValueEntries<V>(nodes: seq<Node<V>>, key: Key, value: V)
    requires Distinct(nodes) && key in Entries(nodes)
    ensures |SetValue(nodes, key, value)| == |nodes|
    ensures forall i | 0 <= i < |nodes| :: SetValue(nodes, key, value)[i].key == nodes[i].key
    ensures Distinct(SetValue(nodes, key, value))
    ensures Entries(SetValue(nodes, key, value)) == Entries(nodes)[key := value]
    decreases |nodes|
  {
    if nodes[0].key == key {
      var r := [nodes[0].(value := value)] + nodes[1..];
      assert r[1..] == nodes[1..];
    } else {
      SetValueEntries(nodes[1..], key, value);
      var rest := SetValue(nodes[1..], key, value);
      var r := [nodes[0]] + rest;
      assert r[1..] == rest;
    }
  }

  /** A sorted set is a map from keys to values, whatever the scores. */
  lemma AddOrUpdateEntries<V>(nodes: seq<Node<V>>, key: Key, score: int, value: V, less: Less)
    requires Distinct(nodes)
    ensures Distinct(AddOrUpdate(nodes, key, score, value, less))
    ensures Entries(AddOrUpdate(nodes, key, score, value, less)) == Entries(nodes)[key := value]
  {
    hide Distinct, Entries, Remove, Insert, SetValue;
    if HasScore(nodes, key, score) {
      EntriesKeys(nodes, key);
      SetValueEntries(nodes, key, value);
    } else {
      RemoveEntries(nodes, key);
      InsertEntries(Remove(nodes, key), Node(key, score, value), less);
    }
  }

  lemma {:induction false} CountEntries<V>(nodes: seq<Node<V>>)
    requires Distinct(nodes)
    ensures |Entries(nodes)| == |nodes|
    decreases |nodes|
  {
    if nodes != [] {
      EntriesKeys(nodes[1..], nodes[0].key);
      CountEntries(nodes[1..]);
    }
  }

  lemma {:induction false} ValuesAt<V>(nodes: seq<Node<V>>)
    ensures |Values(nodes)| == |nodes|
    ensures forall i | 0 <= i < |nodes| :: Values(nodes)[i] == nodes[i].value
    decreases |nodes|
  {
    if nodes != [] {
      ValuesAt(nodes[1..]);
    }
  }

  lemma {:induction false} EntryOf<V>(nodes: seq<Node<V>>, i: nat)
    requires Distinct(nodes) && i < |nodes|
    ensures nodes[i].key in Entries(nodes) && Entries(nodes)[nodes[i].key] == nodes[i].value
    decreases |nodes|
  {
    if i > 0 {
      EntryOf(nodes[1..], i - 1);
    }
  }

  /** A node that comes after all others is appended. */
  lemma {:induction false} InsertLast<V>(nodes: seq<Node<V>>, n: Node<V>, less: Less)
    requires forall i | 0 <= i < |nodes| :: Before(nodes[i], n, less)
    ensures Insert(nodes, n, less) == nodes + [n]
    decreases |nodes|
  {
    if nodes != [] {
      InsertLast(nodes[1..], n, less);
    }
  }
}
