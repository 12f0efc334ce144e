/** The database as it is stored, keyed by text: the mempool's view of it, keyed by records, is the same
    map, because the texts of different keys differ and each text names its middleware. */
module DiskText {
  import opened Text
  import opened AiOp
  import opened DbKeys
  import opened MempoolQueue
  import opened Mempool

  type TextDisk = map<string, Json>

  /** What is stored under the text of each key, and nothing else. */
  ghost predicate Stores(text: TextDisk, disk: map<Key, Json>, checksum: Checksum) {
    && (forall k :: k in disk <==> UniqueKey(k, checksum) in text)
    && (forall k | k in disk && UniqueKey(k, checksum) in text :: text[UniqueKey(k, checksum)] == disk[k])
    && (forall s | s in text :: exists k :: k in disk && s == UniqueKey(k, checksum))
  }

  lemma EmptyStores(checksum: Checksum)
    ensures Stores(map[], map[], checksum)
  {
  }

  /** Two text databases for the same keys are the same. */
  lemma StoresOnce(text: TextDisk, text': TextDisk, disk: map<Key, Json>, checksum: Checksum)
    requires Stores(text, disk, checksum) && Stores(text', disk, checksum)
    ensures text == text'
  {
    hide UniqueKey;
    forall s ensures s in text <==> s in text' {
      if s in text { var k :| k in disk && s == UniqueKey(k, checksum); }
      if s in text' { var k :| k in disk && s == UniqueKey(k, checksum); }
    }
    forall s | s in text && s in text' ensures text[s] == text'[s] {
      var k :| k in disk && s == UniqueKey(k, checksum);
    }
  }

  /** Setting a text sets its key and no other. */
  lemma SetStores(text: TextDisk, disk: map<Key, Json>, k: Key, data: Json, checksum: Checksum)
    requires Stores(text, disk, checksum)
    ensures Stores(text[UniqueKey(k, checksum) := data], disk[k := data], checksum)
  {
    hide UniqueKey;
    var text', disk' := text[UniqueKey(k, checksum) := data], disk[k := data];
    forall x ensures UniqueKey(x, checksum) == UniqueKey(k, checksum) <==> x == k {
      if UniqueKey(x, checksum) == UniqueKey(k, checksum) { UniqueKeyInjective(x, k, checksum); }
    }
    forall s | s in text' ensures exists x :: x in disk' && s == UniqueKey(x, checksum) {
      if s != UniqueKey(k, checksum) {
        var x :| x in disk && s == UniqueKey(x, checksum);
        assert x in disk';
      }
    }
  }

  /** Deleting a text deletes its key and no other. */
  lemma DeleteStores(text: TextDisk, disk: map<Key, Json>, k: Key, checksum: Checksum)
    requires Stores(text, disk, checksum)
    ensures Stores(text - {UniqueKey(k, checksum)}, disk - {k}, checksum)
  {
    hide UniqueKey;
    var text', disk' := text - {UniqueKey(k, checksum)}, disk - {k};
    forall x ensures UniqueKey(x, checksum) == UniqueKey(k, checksum) <==> x == k {
      if UniqueKey(x, checksum) == UniqueKey(k, checksum) { UniqueKeyInjective(x, k, checksum); }
    }
    forall s | s in text' ensures exists x :: x in disk' && s == UniqueKey(x, checksum) {
      var x :| x in disk && s == UniqueKey(x, checksum);
      assert x in disk';
    }
  }

  function Texts(scan: seq<Key>, checksum: Checksum): seq<string> {
    seq(|scan|, i requires 0 <= i < |scan| => UniqueKey(scan[i], checksum))
  }

  /** Filing what the scan of the texts yields, each under the middleware that its text names. */
  function LoadTexts(pools: Pools, text: TextDisk, texts: seq<string>, order: Order): Option<Pools>
    requires forall s | s in texts :: s in text
    decreases |texts|
  {
    if texts == [] then Some(pools)
    else
      var aiMiddleware, op := AiMiddlewareFromDBKey(texts[0]), New(text[texts[0]]);
      if aiMiddleware.None? || op.None? then None
      else LoadTexts(PoolsAdd(pools, aiMiddleware.value, op.value, order), text, texts[1..], order)
  }

  /** Loading by text is loading by key. */
  lemma {:induction false} LoadTextsIsLoad(pools: Pools, text: TextDisk, disk: map<Key, Json>, scan: seq<Key>,
                                           c: Config)
    requires Stores(text, disk, c.checksum) && forall k | k in scan :: k in disk
    ensures forall s | s in Texts(scan, c.checksum) :: s in text
    ensures LoadTexts(pools, text, Texts(scan, c.checksum), c.order) == Load(pools, disk, scan, c.order)
    decreases |scan|
  {
    hide UniqueKey, New, PoolsAdd, AiMiddlewareFromDBKey;
    var texts := Texts(scan, c.checksum);
    forall s | s in texts ensures s in text {
      var i :| 0 <= i < |texts| && texts[i] == s;
      assert scan[i] in scan;
    }
    if scan != [] {
      assert scan[0] in scan;
      AiMiddlewareOfUniqueKey(scan[0], c.checksum);
      assert texts[1..] == Texts(scan[1..], c.checksum);
      var op := New(disk[scan[0]]);
      if op.Some? {
        LoadTextsIsLoad(PoolsAdd(pools, scan[0].aiMiddleware, op.value, c.order), text, disk, scan[1..], c);
      }
    }
  }

  // ---------------------------------------------------------------- whole steps

  function DeleteAll(text: TextDisk, aiMiddleware: Address, ops: seq<AiOperation>, checksum: Checksum): TextDisk
    decreases |ops|
  {
    if ops == [] then text
    else DeleteAll(text - {UniqueKey(KeyOf(aiMiddleware, ops[0]), checksum)}, aiMiddleware, ops[1..], checksum)
  }

  lemma {:induction false} DeleteAllStores(text: TextDisk, disk: map<Key, Json>, aiMiddleware: Address,
                                           ops: seq<AiOperation>, checksum: Checksum)
    requires Stores(text, disk, checksum)
    ensures Stores(DeleteAll(text, aiMiddleware, ops, checksum), disk - KeysOf(aiMiddleware, ops), checksum)
    decreases |ops|
  {
    hide UniqueKey, Stores;
    if ops == [] {
      assert disk - KeysOf(aiMiddleware, ops) == disk;
    } else {
      var k := KeyOf(aiMiddleware, ops[0]);
      DeleteStores(text, disk, k, checksum);
      DeleteAllStores(text - {UniqueKey(k, checksum)}, disk - {k}, aiMiddleware, ops[1..], checksum);
      assert disk - {k} - KeysOf(aiMiddleware, ops[1..]) == disk - KeysOf(aiMiddleware, ops);
    }
  }

  /** What an action writes to the database, by text. */
  function TextStep(text: TextDisk, a: Action, checksum: Checksum): TextDisk {
    match a
    case Add(aiMiddleware, op) => text[UniqueKey(KeyOf(aiMiddleware, op), checksum) := ToJson(op, checksum)]
    case Remove(aiMiddleware, ops) => DeleteAll(text, aiMiddleware, ops, checksum)
    case Clear => map[]
    case Restart(_) => text
  }

  /** Every action does to the stored texts what the model does to the keys; a restart that scans the
      texts loads what the model loads. */
  lemma StepStores(text: TextDisk, s: State, a: Action, c: Config)
    requires Stores(text, s.disk, c.checksum) && Allowed(s, a)
    ensures Stores(TextStep(text, a, c.checksum), Step(s, a, c).disk, c.checksum)
    ensures a.Restart? ==>
              && (forall x | x in Texts(a.scan, c.checksum) :: x in text)
              && LoadTexts(map[], text, Texts(a.scan, c.checksum), c.order) == Load(map[], s.disk, a.scan, c.order)
  {
    hide Stores, UniqueKey, ToJson, PoolsAdd, PoolsRemove;
    match a
    case Add(aiMiddleware, op) =>
      SetStores(text, s.disk, KeyOf(aiMiddleware, op), ToJson(op, c.checksum), c.checksum);
    case Remove(aiMiddleware, ops) => DeleteAllStores(text, s.disk, aiMiddleware, ops, c.checksum);
    case Clear => EmptyStores(c.checksum);
    case Restart(scan) => LoadTextsIsLoad(map[], text, s.disk, scan, c);
  }
}
