/** The context a bundler run hands from module to module (pkg/modules/context.go), and what
    modules may do to its operations: keep them, mark them for removal, or leave them out. */
module BatchContext {
  import opened Text
  import opened AiOp

  datatype PendingRemovalItem = PendingRemovalItem(op: AiOperation, reason: string)

  function OpsOfItems(items: seq<PendingRemovalItem>): seq<AiOperation> {
    if items == [] then [] else [items[0].op] + OpsOfItems(items[1..])
  }

  lemma {:induction false} OpsOfItemsConcat(a: seq<PendingRemovalItem>, b: seq<PendingRemovalItem>)
    ensures OpsOfItems(a + b) == OpsOfItems(a) + OpsOfItems(b)
    decreases |a|
  {
    if a == [] {
      assert a + b == b;
    } else {
      assert (a + b)[1..] == a[1..] + b;
      OpsOfItemsConcat(a[1..], b);
    }
  }

  /** The batch without the operation at an index, and the removals with it; an index outside the batch
      is ignored. */
  function Mark(batch: seq<AiOperation>, index: int): seq<AiOperation> {
    if 0 <= index < |batch| then batch[..index] + batch[index + 1..] else batch
  }

  function Marked(batch: seq<AiOperation>, items: seq<PendingRemovalItem>, index: int,
                  reason: string): seq<PendingRemovalItem> {
    if 0 <= index < |batch| then items + [PendingRemovalItem(batch[index], reason)] else items
  }

  class BatchHandlerCtx {
    var batch: seq<AiOperation>
    var pendingRemoval: seq<PendingRemovalItem>
    const aiMiddleware: Address
    const baseFee: Option<nat>
    const tip: Option<nat>
    const gasPrice: Option<nat>

    constructor (batch: seq<AiOperation>, aiMiddleware: Address, baseFee: Option<nat>, tip: Option<nat>,
                 gasPrice: Option<nat>)
      ensures this.batch == batch && pendingRemoval == []
      ensures this.aiMiddleware == aiMiddleware && this.baseFee == baseFee
      ensures this.tip == tip && this.gasPrice == gasPrice
    {
      this.batch := batch;
      this.pendingRemoval := [];
      this.aiMiddleware := aiMiddleware;
      this.baseFee := baseFee;
      this.tip := tip;
      this.gasPrice := gasPrice;
    }

    /** An index outside the batch is ignored. */
    method MarkOpIndexForRemoval(index: int, reason: string)
      modifies this
      ensures batch == Mark(old(batch), index)
      ensures pendingRemoval == Marked(old(batch), old(pendingRemoval), index, reason)
    {
      var kept: seq<AiOperation> := [];
      var op: Option<AiOperation> := None;
      for i := 0 to |batch|
        invariant batch == old(batch) && pendingRemoval == old(pendingRemoval)
        invariant if 0 <= index < i then kept == batch[..index] + batch[index + 1..i] && op == Some(batch[index])
                  else kept == batch[..i] && op == None
      {
        if i == index {
          op := Some(batch[i]);
        } else {
          kept := kept + [batch[i]];
        }
      }
      if op.None? {
        return;
      }
      batch := kept;
      pendingRemoval := pendingRemoval + [PendingRemovalItem(op.value, reason)];
    }
  }

  // ---------------------------------------------------------------- conservation

  /** Going from one batch and removal list to another, nothing was invented or duplicated, and
      nothing marked for removal was unmarked; operations may have been left out. */
  ghost predicate Conserves(batch: seq<AiOperation>, items: seq<PendingRemovalItem>,
                            batch': seq<AiOperation>, items': seq<PendingRemovalItem>) {
    && items <= items'
    && multiset(batch') + multiset(OpsOfItems(items')) <= multiset(batch) + multiset(OpsOfItems(items))
  }

  /** As Conserves, and nothing was left out. */
  ghost predicate Accounts(batch: seq<AiOperation>, items: seq<PendingRemovalItem>,
                           batch': seq<AiOperation>, items': seq<PendingRemovalItem>) {
    && items <= items'
    && multiset(batch') + multiset(OpsOfItems(items')) == multiset(batch) + multiset(OpsOfItems(items))
  }

  lemma ConservesTrans(b0: seq<AiOperation>, p0: seq<PendingRemovalItem>, b1: seq<AiOperation>,
                       p1: seq<PendingRemovalItem>, b2: seq<AiOperation>, p2: seq<PendingRemovalItem>)
    requires Conserves(b0, p0, b1, p1) && Conserves(b1, p1, b2, p2)
    ensures Conserves(b0, p0, b2, p2)
  {
    hide OpsOfItems;
  }

  /** Marking an index accounts for every operation. */
  lemma MarkingAccounts(batch: seq<AiOperation>, items: seq<PendingRemovalItem>, index: nat, reason: string)
    requires index < |batch|
    ensures Accounts(batch, items, batch[..index] + batch[index + 1..],
                     items + [PendingRemovalItem(batch[index], reason)])
  {
    var item := PendingRemovalItem(batch[index], reason);
    OpsOfItemsConcat(items, [item]);
    assert OpsOfItems([item]) == [batch[index]] + OpsOfItems([]);
    hide OpsOfItems;
    assert batch == batch[..index] + [batch[index]] + batch[index + 1..];
  }

  lemma MarkAccounts(batch: seq<AiOperation>, items: seq<PendingRemovalItem>, index: int, reason: string)
    ensures Accounts(batch, items, Mark(batch, index), Marked(batch, items, index, reason))
  {
    if 0 <= index < |batch| {
      MarkingAccounts(batch, items, index, reason);
    }
  }

  lemma AccountsTrans(b0: seq<AiOperation>, p0: seq<PendingRemovalItem>, b1: seq<AiOperation>,
                      p1: seq<PendingRemovalItem>, b2: seq<AiOperation>, p2: seq<PendingRemovalItem>)
    requires Accounts(b0, p0, b1, p1) && Accounts(b1, p1, b2, p2)
    ensures Accounts(b0, p0, b2, p2)
  {
    hide OpsOfItems;
  }

  // ---------------------------------------------------------------- keeping and dropping by verdict

  function Kept<T>(xs: seq<T>, drop: seq<bool>): seq<T>
    requires |xs| == |drop|
  {
    if xs == [] then [] else (if drop[0] then [] else [xs[0]]) + Kept(xs[1..], drop[1..])
  }

  function Dropped<T>(xs: seq<T>, drop: seq<bool>): seq<T>
    requires |xs| == |drop|
  {
    if xs == [] then [] else (if drop[0] then [xs[0]] else []) + Dropped(xs[1..], drop[1..])
  }

  /** The removal items of dropped operations, last operation first. */
  function ItemsBackward(dropped: seq<AiOperation>, reason: string): seq<PendingRemovalItem> {
    if dropped == [] then []
    else ItemsBackward(dropped[1..], reason) + [PendingRemovalItem(dropped[0], reason)]
  }

  /** Where a walk that goes backward from the end stands after judging positions `i` and up. */
  ghost predicate WalkedTo(i: nat, batch: seq<AiOperation>, items: seq<PendingRemovalItem>, drop: seq<bool>,
                           reason: string, batch': seq<AiOperation>, items': seq<PendingRemovalItem>)
    requires i <= |batch| == |drop|
  {
    && batch' == batch[..i] + Kept(batch[i..], drop[i..])
    && items' == items + ItemsBackward(Dropped(batch[i..], drop[i..]), reason)
  }

  lemma WalkStarts(batch: seq<AiOperation>, items: seq<PendingRemovalItem>, drop: seq<bool>, reason: string)
    requires |batch| == |drop|
    ensures WalkedTo(|batch|, batch, items, drop, reason, batch, items)
  {
  }

  lemma WalkKeeps(i: nat, batch: seq<AiOperation>, items: seq<PendingRemovalItem>, drop: seq<bool>,
                  reason: string, batch': seq<AiOperation>, items': seq<PendingRemovalItem>)
    requires i < |batch| == |drop| && !drop[i]
    requires WalkedTo(i + 1, batch, items, drop, reason, batch', items')
    ensures WalkedTo(i, batch, items, drop, reason, batch', items')
    ensures |batch'| > i && batch'[i] == batch[i]
  {
    assert batch[i..][1..] == batch[i + 1..] && drop[i..][1..] == drop[i + 1..];
    assert Dropped(batch[i..], drop[i..]) == Dropped(batch[i + 1..], drop[i + 1..]);
  }

  /** Marking position i drops exactly the operation judged there: what was before it has not
      moved. */
  lemma WalkDrops(i: nat, batch: seq<AiOperation>, items: seq<PendingRemovalItem>, drop: seq<bool>,
                  reason: string, batch': seq<AiOperation>, items': seq<PendingRemovalItem>)
    requires i < |batch| == |drop| && drop[i]
    requires WalkedTo(i + 1, batch, items, drop, reason, batch', items')
    ensures |batch'| > i && batch'[i] == batch[i]
    ensures WalkedTo(i, batch, items, drop, reason, batch'[..i] + batch'[i + 1..],
                     items' + [PendingRemovalItem(batch'[i], reason)])
  {
    assert batch[i..][1..] == batch[i + 1..] && drop[i..][1..] == drop[i + 1..];
    var dropped := Dropped(batch[i + 1..], drop[i + 1..]);
    assert Dropped(batch[i..], drop[i..]) == [batch[i]] + dropped;
    assert ([batch[i]] + dropped)[1..] == dropped;
  }

  lemma {:induction false} KeptAndDropped<T>(xs: seq<T>, drop: seq<bool>)
    requires |xs| == |drop|
    ensures multiset(xs) == multiset(Kept(xs, drop)) + multiset(Dropped(xs, drop))
    decreases |xs|
  {
    if xs != [] {
      KeptAndDropped(xs[1..], drop[1..]);
      assert xs == [xs[0]] + xs[1..];
    }
  }

  lemma {:induction false} OpsOfItemsBackward(dropped: seq<AiOperation>, reason: string)
    ensures multiset(OpsOfItems(ItemsBackward(dropped, reason))) == multiset(dropped)
    decreases |dropped|
  {
    if dropped != [] {
      var item := PendingRemovalItem(dropped[0], reason);
      OpsOfItemsBackward(dropped[1..], reason);
      OpsOfItemsConcat(ItemsBackward(dropped[1..], reason), [item]);
      assert OpsOfItems([item]) == [dropped[0]] + OpsOfItems([]);
      assert dropped == [dropped[0]] + dropped[1..];
    }
  }

  lemma Reassemble(prefix: seq<AiOperation>, rest: seq<AiOperation>, kept: seq<AiOperation>,
                   dropped: seq<AiOperation>, items: seq<PendingRemovalItem>, more: seq<PendingRemovalItem>)
    requires multiset(rest) == multiset(kept) + multiset(dropped)
    requires multiset(OpsOfItems(more)) == multiset(dropped)
    ensures Accounts(prefix + rest, items, prefix + kept, items + more)
  {
    OpsOfItemsConcat(items, more);
    hide OpsOfItems;
  }

  /** A walk accounts for every operation, also when an error cuts it short. */
  lemma WalkAccounts(i: nat, batch: seq<AiOperation>, items: seq<PendingRemovalItem>, drop: seq<bool>,
                     reason: string, batch': seq<AiOperation>, items': seq<PendingRemovalItem>)
    requires i <= |batch| == |drop| && WalkedTo(i, batch, items, drop, reason, batch', items')
    ensures Accounts(batch, items, batch', items')
  {
    hide Kept, Dropped, OpsOfItems, ItemsBackward, Accounts;
    var rest, verdicts := batch[i..], drop[i..];
    var dropped := Dropped(rest, verdicts);
    KeptAndDropped(rest, verdicts);
    OpsOfItemsBackward(dropped, reason);
    Reassemble(batch[..i], rest, Kept(rest, verdicts), dropped, items, ItemsBackward(dropped, reason));
    assert batch == batch[..i] + rest;
  }

  /** A finished walk is an order-preserving filter; what it drops is listed last one first. */
  lemma WalkEnds(batch: seq<AiOperation>, items: seq<PendingRemovalItem>, drop: seq<bool>, reason: string,
                 batch': seq<AiOperation>, items': seq<PendingRemovalItem>)
    requires |batch| == |drop| && WalkedTo(0, batch, items, drop, reason, batch', items')
    ensures batch' == Kept(batch, drop)
    ensures items' == items + ItemsBackward(Dropped(batch, drop), reason)
    ensures Accounts(batch, items, batch', items')
  {
    hide Kept, Dropped, ItemsBackward, Accounts;
    WalkAccounts(0, batch, items, drop, reason, batch', items');
    assert batch[0..] == batch && drop[0..] == drop && batch[..0] == [];
  }
}
