/** The batch checks of pkg/modules/checks: code hashes, paymaster deposits and cleaning up. */
module BatchChecks {
  import opened Text
  import opened AiOp
  import opened BatchContext
  import opened Expire

  const CODE_CHANGED := "code hash changed"
  const OVERDRAWN := "insufficient paymaster deposit"

  datatype CodeHash = CodeHash(address: Address, hash: Hash)

  /** The hash of an address's code; None when the node does not answer. */
  type CodeAt = Address -> Option<Hash>

  /** An address's deposit; None when the node does not answer. */
  type Deposits = Address -> Option<int>

  // ---------------------------------------------------------------- code hashes

  /** The hash last saved for an address. */
  function Latest(chs: seq<CodeHash>, a: Address): Option<Hash> {
    if chs == [] then None
    else
      var last := chs[|chs| - 1];
      if last.address == a then Some(last.hash) else Latest(chs[..|chs| - 1], a)
  }

  function CodeChanged(chs: seq<CodeHash>, codeAt: CodeAt): Option<bool> {
    if exists ch | ch in chs :: codeAt(ch.address).None? then None
    else Some(exists ch | ch in chs :: codeAt(ch.address) != Latest(chs, ch.address))
  }

  method GetCodeHashes(ic: seq<Address>, codeAt: CodeAt) returns (ret: Option<seq<CodeHash>>)
    ensures ret.None? <==> exists a | a in ic :: codeAt(a).None?
    ensures ret.Some? ==>
              && |ret.value| == |ic|
              && forall i | 0 <= i < |ic| :: ret.value[i].address == ic[i] && codeAt(ic[i]) == Some(ret.value[i].hash)
  {
    var hashes: seq<CodeHash> := [];
    for i := 0 to |ic|
      invariant |hashes| == i
      invariant forall j | 0 <= j < i :: hashes[j].address == ic[j] && codeAt(ic[j]) == Some(hashes[j].hash)
    {
      var h := codeAt(ic[i]);
      if h.None? {
        return None;
      }
      hashes := hashes + [CodeHash(ic[i], h.value)];
    }
    return Some(hashes);
  }

  /** The saved hashes as a map, a later one for an address replacing an earlier one. */
  method SavedHashes(chs: seq<CodeHash>) returns (prev: map<Address, Hash>, ic: seq<Address>)
    ensures |ic| == |chs| && forall j | 0 <= j < |chs| :: ic[j] == chs[j].address && ic[j] in prev
    ensures forall a :: Latest(chs, a) == if a in prev then Some(prev[a]) else None
  {
    prev := map[];
    ic := [];
    var i := 0;
    while i < |chs|
      invariant 0 <= i <= |chs| && |ic| == i
      invariant forall j | 0 <= j < i :: ic[j] == chs[j].address && ic[j] in prev
      invariant forall a :: Latest(chs[..i], a) == if a in prev then Some(prev[a]) else None
    {
      assert chs[..i + 1][..i] == chs[..i];
      prev := prev[chs[i].address := chs[i].hash];
      ic := ic + [chs[i].address];
      i := i + 1;
    }
    assert chs[..|chs|] == chs;
  }

  method HasCodeHashChanges(chs: seq<CodeHash>, codeAt: CodeAt) returns (changed: Option<bool>)
    ensures changed == CodeChanged(chs, codeAt)
  {
    hide Latest;
    var prev, ic := SavedHashes(chs);
    var curr := GetCodeHashes(ic, codeAt);
    if curr.None? {
      ghost var j :| 0 <= j < |ic| && codeAt(ic[j]).None?;
      assert chs[j] in chs;
      return None;
    }
    forall ch | ch in chs ensures codeAt(ch.address).Some? {
      var j :| 0 <= j < |chs| && chs[j] == ch;
      assert ic[j] in ic;
    }
    var i := 0;
    while i < |curr.value|
      invariant 0 <= i <= |curr.value|
      invariant forall j | 0 <= j < i :: codeAt(chs[j].address) == Latest(chs, chs[j].address)
    {
      var ch := curr.value[i];
      if ch.hash != prev[ch.address] {
        assert chs[i] in chs;
        return Some(true);
      }
      i := i + 1;
    }
    return Some(false);
  }

  lemma {:induction false} LatestOfCode(chs: seq<CodeHash>, a: Address, codeAt: CodeAt)
    requires forall ch | ch in chs :: codeAt(ch.address) == Some(ch.hash)
    ensures Latest(chs, a) == if exists ch :: ch in chs && ch.address == a then codeAt(a) else None
    decreases |chs|
  {
    if chs != [] {
      var before, last := chs[..|chs| - 1], chs[|chs| - 1];
      assert chs == before + [last];
      LatestOfCode(before, a, codeAt);
    }
  }

  /** What the check compares: once the hashes of the contracts an operation touched are saved, it reports a
      change exactly when the code of one of them is no longer what it was. */
  lemma ChangedSinceSaved(chs: seq<CodeHash>, ic: seq<Address>, before: CodeAt, now: CodeAt)
    requires |chs| == |ic|
    requires forall i | 0 <= i < |ic| :: chs[i].address == ic[i] && before(ic[i]) == Some(chs[i].hash)
    ensures CodeChanged(chs, now) == if exists a | a in ic :: now(a).None? then None
                                     else Some(exists a | a in ic :: now(a) != before(a))
  {
    hide Latest;
    forall ch | ch in chs
      ensures ch.address in ic && before(ch.address) == Some(ch.hash)
      ensures Latest(chs, ch.address) == before(ch.address)
    {
      var i :| 0 <= i < |chs| && chs[i] == ch;
      forall other | other in chs ensures before(other.address) == Some(other.hash) {
        var j :| 0 <= j < |chs| && chs[j] == other;
      }
      LatestOfCode(chs, ch.address, before);
    }
    forall a | a in ic ensures exists ch | ch in chs :: ch.address == a {
      var i :| 0 <= i < |ic| && ic[i] == a;
      assert chs[i] in chs;
    }
  }

  // ---------------------------------------------------------------- marking by index

  /** Marking indices one after the other, each in what the ones before it left. */
  function MarkAll(batch: seq<AiOperation>, indices: seq<nat>): seq<AiOperation> {
    if indices == [] then batch
    else Mark(MarkAll(batch, indices[..|indices| - 1]), indices[|indices| - 1])
  }

  function MarkedAll(batch: seq<AiOperation>, items: seq<PendingRemovalItem>, indices: seq<nat>,
                     reason: string): seq<PendingRemovalItem> {
    if indices == [] then items
    else
      var before := indices[..|indices| - 1];
      Marked(MarkAll(batch, before), MarkedAll(batch, items, before, reason), indices[|indices| - 1], reason)
  }

  lemma {:induction false} MarkAllAccounts(batch: seq<AiOperation>, items: seq<PendingRemovalItem>,
                                           indices: seq<nat>, reason: string)
    ensures Accounts(batch, items, MarkAll(batch, indices), MarkedAll(batch, items, indices, reason))
    decreases |indices|
  {
    if indices != [] {
      hide Accounts, Mark, Marked;
      var before, last := indices[..|indices| - 1], indices[|indices| - 1];
      var b, p := MarkAll(batch, before), MarkedAll(batch, items, before, reason);
      MarkAllAccounts(batch, items, before, reason);
      MarkAccounts(b, p, last, reason);
      AccountsTrans(batch, items, b, p, Mark(b, last), Marked(b, p, last, reason));
    }
  }

  // ---------------------------------------------------------------- paymaster deposits

  /** The most a paymaster may have to pay for a list of operations. */
  function Owed(ops: seq<AiOperation>, pm: Address): nat {
    if ops == [] then 0
    else
      var last := ops[|ops| - 1];
      Owed(ops[..|ops| - 1], pm) + if GetPaymaster(last) == pm then GetMaxPrefund(last) else 0
  }

  /** With this operation, its paymaster's part of the batch exceeds its deposit. */
  predicate Overdraws(batch: seq<AiOperation>, i: nat, deposits: Deposits)
    requires i < |batch|
  {
    var pm := GetPaymaster(batch[i]);
    pm != ZeroAddress() && deposits(pm).Some? && deposits(pm).value < Owed(batch[..i + 1], pm)
  }

  function OverdrawnUpTo(batch: seq<AiOperation>, n: nat, deposits: Deposits): seq<nat>
    requires n <= |batch|
  {
    if n == 0 then []
    else OverdrawnUpTo(batch, n - 1, deposits) + if Overdraws(batch, n - 1, deposits) then [n - 1] else []
  }

  lemma {:induction false} OverdrawnAscends(batch: seq<AiOperation>, n: nat, deposits: Deposits)
    requires n <= |batch|
    ensures var idx := OverdrawnUpTo(batch, n, deposits);
            && (forall i :: i in idx <==> 0 <= i < n && Overdraws(batch, i, deposits))
            && (forall j, k | 0 <= j < k < |idx| :: idx[j] < idx[k])
    decreases n
  {
    hide Overdraws;
    if n > 0 {
      var before, idx := OverdrawnUpTo(batch, n - 1, deposits), OverdrawnUpTo(batch, n, deposits);
      OverdrawnAscends(batch, n - 1, deposits);
      forall j, k | 0 <= j < k < |idx| ensures idx[j] < idx[k] {
        assert before[j] in before;
      }
    }
  }

  /** What the walk knows of a paymaster before position `i`. */
  ghost predicate DepositAt(pm: Address, i: nat, batch: seq<AiOperation>, deposits: Deposits, deps: map<Address, int>)
    requires i <= |batch|
  {
    if pm in deps then deposits(pm) == Some(deps[pm] + Owed(batch[..i], pm))
    else Owed(batch[..i], pm) == 0 && forall j | 0 <= j < i :: GetPaymaster(batch[j]) != pm
  }

  ghost predicate DepositsTo(i: nat, batch: seq<AiOperation>, deposits: Deposits, deps: map<Address, int>)
    requires i <= |batch|
  {
    forall pm | pm != ZeroAddress() :: DepositAt(pm, i, batch, deposits, deps)
  }

  /** Where the walk stands before position `i`: every index that overdrew so far is marked. */
  ghost predicate MarkedTo(i: nat, batch: seq<AiOperation>, items: seq<PendingRemovalItem>, deposits: Deposits,
                           batch': seq<AiOperation>, items': seq<PendingRemovalItem>)
    requires i <= |batch|
  {
    var indices := OverdrawnUpTo(batch, i, deposits);
    batch' == MarkAll(batch, indices) && items' == MarkedAll(batch, items, indices, OVERDRAWN)
  }

  lemma MarksNone(i: nat, batch: seq<AiOperation>, items: seq<PendingRemovalItem>, deposits: Deposits,
                  batch': seq<AiOperation>, items': seq<PendingRemovalItem>)
    requires i < |batch| && !Overdraws(batch, i, deposits)
    requires MarkedTo(i, batch, items, deposits, batch', items')
    ensures MarkedTo(i + 1, batch, items, deposits, batch', items')
  {
    hide Overdraws, MarkAll, MarkedAll;
    var indices := OverdrawnUpTo(batch, i, deposits);
    assert indices + [] == indices;
  }

  lemma MarksOne(i: nat, batch: seq<AiOperation>, items: seq<PendingRemovalItem>, deposits: Deposits,
                 batch': seq<AiOperation>, items': seq<PendingRemovalItem>)
    requires i < |batch| && Overdraws(batch, i, deposits)
    requires MarkedTo(i, batch, items, deposits, batch', items')
    ensures MarkedTo(i + 1, batch, items, deposits, Mark(batch', i), Marked(batch', items', i, OVERDRAWN))
  {
    hide Overdraws, Mark, Marked;
    var indices := OverdrawnUpTo(batch, i, deposits);
    assert (indices + [i])[..|indices|] == indices;
  }

  lemma MarkedToAccounts(i: nat, batch: seq<AiOperation>, items: seq<PendingRemovalItem>, deposits: Deposits,
                         batch': seq<AiOperation>, items': seq<PendingRemovalItem>)
    requires i <= |batch| && MarkedTo(i, batch, items, deposits, batch', items')
    ensures Accounts(batch, items, batch', items')
  {
    hide Accounts, Overdraws;
    MarkAllAccounts(batch, items, OverdrawnUpTo(batch, i, deposits), OVERDRAWN);
  }

  lemma OwedStep(batch: seq<AiOperation>, i: nat, pm: Address)
    requires i < |batch|
    ensures Owed(batch[..i + 1], pm)
            == Owed(batch[..i], pm) + if GetPaymaster(batch[i]) == pm then GetMaxPrefund(batch[i]) else 0
  {
    assert batch[..i + 1][..i] == batch[..i];
  }

  lemma DepositStep(pm: Address, i: nat, batch: seq<AiOperation>, deposits: Deposits, deps: map<Address, int>,
                    deps': map<Address, int>)
    requires i < |batch| && DepositAt(pm, i, batch, deposits, deps)
    requires pm in deps' <==> pm in deps || pm == GetPaymaster(batch[i])
    requires if pm == GetPaymaster(batch[i])
             then deposits(pm).Some?
                  && deps'[pm] == (if pm in deps then deps[pm] else deposits(pm).value) - GetMaxPrefund(batch[i])
             else pm in deps ==> deps'[pm] == deps[pm]
    ensures DepositAt(pm, i + 1, batch, deposits, deps')
  {
    OwedStep(batch, i, pm);
    hide Owed, GetPaymaster, GetMaxPrefund;
  }

  lemma DepositsSkip(i: nat, batch: seq<AiOperation>, deposits: Deposits, deps: map<Address, int>)
    requires i < |batch| && DepositsTo(i, batch, deposits, deps) && GetPaymaster(batch[i]) == ZeroAddress()
    ensures DepositsTo(i + 1, batch, deposits, deps)
  {
    hide DepositAt, GetPaymaster, ZeroAddress;
    var n := i + 1;
    forall pm | pm != ZeroAddress() ensures DepositAt(pm, n, batch, deposits, deps) {
      DepositStep(pm, i, batch, deposits, deps, deps);
    }
  }

  lemma DepositsTake(i: nat, batch: seq<AiOperation>, deposits: Deposits, deps: map<Address, int>, rest: int)
    requires i < |batch| && DepositsTo(i, batch, deposits, deps) && GetPaymaster(batch[i]) != ZeroAddress()
    requires var pm := GetPaymaster(batch[i]);
             && deposits(pm).Some?
             && rest == (if pm in deps then deps[pm] else deposits(pm).value) - GetMaxPrefund(batch[i])
    ensures DepositsTo(i + 1, batch, deposits, deps[GetPaymaster(batch[i]) := rest])
    ensures Overdraws(batch, i, deposits) <==> rest < 0
  {
    hide DepositAt, GetPaymaster, GetMaxPrefund, ZeroAddress, Owed;
    var deps' := deps[GetPaymaster(batch[i]) := rest];
    var n := i + 1;
    forall pm | pm != ZeroAddress() ensures DepositAt(pm, n, batch, deposits, deps') {
      DepositStep(pm, i, batch, deposits, deps, deps');
    }
    WhatIsLeft(GetPaymaster(batch[i]), i + 1, batch, deposits, deps', rest);
  }

  lemma WhatIsLeft(pm: Address, i: nat, batch: seq<AiOperation>, deposits: Deposits, deps: map<Address, int>, rest: int)
    requires i <= |batch| && DepositAt(pm, i, batch, deposits, deps) && pm in deps && deps[pm] == rest
    ensures deposits(pm) == Some(rest + Owed(batch[..i], pm))
  {
    hide Owed, GetPaymaster;
  }

  /** Every paymaster's deposit is known. */
  ghost predicate Answered(batch: seq<AiOperation>, deposits: Deposits) {
    forall op | op in batch :: GetPaymaster(op) == ZeroAddress() || deposits(GetPaymaster(op)).Some?
  }

  lemma DepositsAnswered(batch: seq<AiOperation>, deposits: Deposits, deps: map<Address, int>)
    requires DepositsTo(|batch|, batch, deposits, deps)
    ensures Answered(batch, deposits)
  {
    hide Owed, GetPaymaster, ZeroAddress;
    forall op | op in batch && GetPaymaster(op) != ZeroAddress() ensures deposits(GetPaymaster(op)).Some? {
      assert DepositAt(GetPaymaster(op), |batch|, batch, deposits, deps);
    }
  }

  lemma NotAnswered(batch: seq<AiOperation>, i: nat, deposits: Deposits)
    requires i < |batch| && GetPaymaster(batch[i]) != ZeroAddress() && deposits(GetPaymaster(batch[i])).None?
    ensures !Answered(batch, deposits)
  {
    hide GetPaymaster, ZeroAddress;
    assert batch[i] in batch;
  }

  // ---------------------------------------------------------------- the object

  function Hashes(ops: seq<AiOperation>, hash: Hasher): set<Hash> {
    set op | op in ops :: hash(op)
  }

  type CodeHashes = map<Hash, seq<CodeHash>>

  /** What the check says of an operation; None when its hashes are not there or the node does not
      answer. */
  function Verdict(db: CodeHashes, op: AiOperation, hash: Hasher, codeAt: CodeAt): Option<bool> {
    if hash(op) in db then CodeChanged(db[hash(op)], codeAt) else None
  }

  /** From saving to judging: once an operation's hashes are saved, it is judged by whether the code of some
      contract it touched has changed since, and not at all while the code of one cannot be read. */
  lemma JudgedSinceSaved(db: CodeHashes, op: AiOperation, hash: Hasher, chs: seq<CodeHash>, ic: seq<Address>,
                         before: CodeAt, now: CodeAt)
    requires |chs| == |ic|
    requires forall i | 0 <= i < |ic| :: chs[i].address == ic[i] && before(ic[i]) == Some(chs[i].hash)
    ensures Verdict(db[hash(op) := chs], op, hash, now)
            == if exists a | a in ic :: now(a).None? then None else Some(exists a | a in ic :: now(a) != before(a))
  {
    hide CodeChanged;
    ChangedSinceSaved(chs, ic, before, now);
  }

  /** Without saved hashes, as after cleaning up, there is no verdict, and the module fails. */
  lemma NoVerdictOnceForgotten(db: CodeHashes, ops: seq<AiOperation>, op: AiOperation, hash: Hasher, codeAt: CodeAt)
    requires op in ops
    ensures Verdict(db - Hashes(ops, hash), op, hash, codeAt) == None
  {
    hide CodeChanged;
  }

  function Changed(db: CodeHashes, batch: seq<AiOperation>, hash: Hasher, codeAt: CodeAt): (drop: seq<bool>)
    ensures |drop| == |batch|
    ensures forall i | 0 <= i < |batch| :: drop[i] == (Verdict(db, batch[i], hash, codeAt) == Some(true))
  {
    seq(|batch|, i requires 0 <= i < |batch| => Verdict(db, batch[i], hash, codeAt) == Some(true))
  }

  /** `db` holds the code hashes of the contracts each pending operation touched when it was first
      simulated. */
  class Standalone {
    var db: CodeHashes

    constructor ()
      ensures db == map[]
    {
      db := map[];
    }

    /** Keeps exactly the operations whose code has not changed; fails if one cannot be judged. */
    method CodeHashes(ctx: BatchHandlerCtx, hash: Hasher, codeAt: CodeAt) returns (ok: bool)
      modifies ctx
      ensures ok <==> forall op | op in old(ctx.batch) :: Verdict(db, op, hash, codeAt).Some?
      ensures ok ==>
                var drop := Changed(db, old(ctx.batch), hash, codeAt);
                && ctx.batch == Kept(old(ctx.batch), drop)
                && ctx.pendingRemoval
                   == old(ctx.pendingRemoval) + ItemsBackward(Dropped(old(ctx.batch), drop), CODE_CHANGED)
      ensures Accounts(old(ctx.batch), old(ctx.pendingRemoval), ctx.batch, ctx.pendingRemoval)
    {
      hide WalkedTo, Accounts, Kept, Dropped, ItemsBackward, Changed, CodeChanged;
      ghost var batch, items := ctx.batch, ctx.pendingRemoval;
      ghost var drop := Changed(db, batch, hash, codeAt);
      WalkStarts(batch, items, drop, CODE_CHANGED);
      WalkedPrefix(|batch|, batch, items, drop, CODE_CHANGED, ctx.batch, ctx.pendingRemoval);
      var i := |ctx.batch|;
      while i > 0
        invariant 0 <= i <= |batch| && i <= |ctx.batch| && ctx.batch[..i] == batch[..i]
        invariant WalkedTo(i, batch, items, drop, CODE_CHANGED, ctx.batch, ctx.pendingRemoval)
        invariant forall j | i <= j < |batch| :: Verdict(db, batch[j], hash, codeAt).Some?
      {
        i := i - 1;
        var op := ctx.batch[i];
        assert op == ctx.batch[..i + 1][i] == batch[..i + 1][i];
        var changed := None;
        if hash(op) in db {
          changed := HasCodeHashChanges(db[hash(op)], codeAt);
        }
        assert changed == Verdict(db, batch[i], hash, codeAt);
        if changed.None? {
          WalkAccounts(i + 1, batch, items, drop, CODE_CHANGED, ctx.batch, ctx.pendingRemoval);
          return false;
        }
        assert drop[i] == changed.value;
        if changed.value {
          WalkDrops(i, batch, items, drop, CODE_CHANGED, ctx.batch, ctx.pendingRemoval);
          ctx.MarkOpIndexForRemoval(i, CODE_CHANGED);
        } else {
          WalkKeeps(i, batch, items, drop, CODE_CHANGED, ctx.batch, ctx.pendingRemoval);
        }
        WalkedPrefix(i, batch, items, drop, CODE_CHANGED, ctx.batch, ctx.pendingRemoval);
      }
      WalkEnds(batch, items, drop, CODE_CHANGED, ctx.batch, ctx.pendingRemoval);
      return true;
    }

    /** Walks forward over the batch as it was at the start, marking indices in what is left of it. */
    method PaymasterDeposit(ctx: BatchHandlerCtx, deposits: Deposits) returns (ok: bool)
      modifies ctx
      ensures ok <==> Answered(old(ctx.batch), deposits)
      ensures ok ==> MarkedTo(|old(ctx.batch)|, old(ctx.batch), old(ctx.pendingRemoval), deposits,
                              ctx.batch, ctx.pendingRemoval)
      ensures Accounts(old(ctx.batch), old(ctx.pendingRemoval), ctx.batch, ctx.pendingRemoval)
    {
      var batch := ctx.batch;
      ghost var items := ctx.pendingRemoval;
      var deps: map<Address, int> := map[];
      var i := 0;
      hide *;
      NothingOwed(batch, deposits);
      NothingMarked(batch, items, deposits);
      while i < |batch|
        invariant 0 <= i <= |batch| && DepositsTo(i, batch, deposits, deps)
        invariant MarkedTo(i, batch, items, deposits, ctx.batch, ctx.pendingRemoval)
      {
        var pm := GetPaymaster(batch[i]);
        if pm == ZeroAddress() {
          DepositsSkip(i, batch, deposits, deps);
          NoPaymasterNoOverdraft(batch, i, deposits);
          MarksNone(i, batch, items, deposits, ctx.batch, ctx.pendingRemoval);
        } else {
          if deposits(pm).None? {
            NotAnswered(batch, i, deposits);
            MarkedToAccounts(i, batch, items, deposits, ctx.batch, ctx.pendingRemoval);
            return false;
          }
          var rest := (if pm in deps then deps[pm] else deposits(pm).value) - GetMaxPrefund(batch[i]);
          DepositsTake(i, batch, deposits, deps, rest);
          deps := deps[pm := rest];
          if rest < 0 {
            MarkOverdrawn(ctx, i, batch, items, deposits);
          } else {
            MarksNone(i, batch, items, deposits, ctx.batch, ctx.pendingRemoval);
          }
        }
        i := i + 1;
      }
      DepositsAnswered(batch, deposits, deps);
      MarkedToAccounts(|batch|, batch, items, deposits, ctx.batch, ctx.pendingRemoval);
      return true;
    }

    method SaveCodeHashes(hash: Hash, chs: seq<CodeHash>, committed: bool) returns (ok: bool)
      modifies this
      ensures ok == committed && db == if ok then old(db)[hash := chs] else old(db)
    {
      if committed {
        db := db[hash := chs];
      }
      return committed;
    }

    /** Forgets the hashes of everything that was sent or removed. */
    method Clean(ctx: BatchHandlerCtx, hash: Hasher, committed: bool) returns (ok: bool)
      modifies this
      ensures ok == committed
      ensures db == if !ok then old(db)
                    else old(db) - Hashes(ctx.batch + OpsOfItems(ctx.pendingRemoval), hash)
    {
      var all := ctx.batch;
      hide OpsOfItems;
      var i := 0;
      AllItems(ctx.pendingRemoval);
      while i < |ctx.pendingRemoval|
        invariant 0 <= i <= |ctx.pendingRemoval|
        invariant db == old(db) && all == ctx.batch + OpsOfItems(ctx.pendingRemoval[..i])
      {
        OneMoreItem(ctx.pendingRemoval, i);
        all := all + [ctx.pendingRemoval[i].op];
        i := i + 1;
      }
      var txn := db;
      i := 0;
      while i < |all|
        invariant 0 <= i <= |all| && db == old(db)
        invariant txn == db - Hashes(all[..i], hash)
      {
        assert all[..i + 1] == all[..i] + [all[i]];
        txn := txn - {hash(all[i])};
        i := i + 1;
      }
      assert all[..|all|] == all;
      if committed {
        db := txn;
      }
      return committed;
    }
  }

  method MarkOverdrawn(ctx: BatchHandlerCtx, i: nat, ghost batch: seq<AiOperation>,
                       ghost items: seq<PendingRemovalItem>, ghost deposits: Deposits)
    requires i < |batch| && Overdraws(batch, i, deposits)
    requires MarkedTo(i, batch, items, deposits, ctx.batch, ctx.pendingRemoval)
    modifies ctx
    ensures MarkedTo(i + 1, batch, items, deposits, ctx.batch, ctx.pendingRemoval)
  {
    hide MarkedTo, Overdraws;
    MarksOne(i, batch, items, deposits, ctx.batch, ctx.pendingRemoval);
    ctx.MarkOpIndexForRemoval(i, OVERDRAWN);
  }

  lemma AllItems(items: seq<PendingRemovalItem>)
    ensures OpsOfItems(items[..0]) == [] && items[..|items|] == items
  {
  }

  lemma OneMoreItem(items: seq<PendingRemovalItem>, i: nat)
    requires i < |items|
    ensures OpsOfItems(items[..i + 1]) == OpsOfItems(items[..i]) + [items[i].op]
  {
    OpsOfItemsConcat(items[..i], [items[i]]);
    assert items[..i + 1] == items[..i] + [items[i]];
    assert OpsOfItems([items[i]]) == [items[i].op] + OpsOfItems([]);
  }

  lemma NothingOwed(batch: seq<AiOperation>, deposits: Deposits)
    ensures DepositsTo(0, batch, deposits, map[])
  {
  }

  lemma NothingMarked(batch: seq<AiOperation>, items: seq<PendingRemovalItem>, deposits: Deposits)
    ensures MarkedTo(0, batch, items, deposits, batch, items)
  {
    assert OverdrawnUpTo(batch, 0, deposits) == [];
  }

  lemma NoPaymasterNoOverdraft(batch: seq<AiOperation>, i: nat, deposits: Deposits)
    requires i < |batch| && GetPaymaster(batch[i]) == ZeroAddress()
    ensures !Overdraws(batch, i, deposits)
  {
  }

  // ---------------------------------------------------------------- what the deposit check achieves

  lemma {:induction false} OwedGrows(batch: seq<AiOperation>, i: nat, n: nat, pm: Address)
    requires i <= n <= |batch|
    ensures Owed(batch[..i], pm) <= Owed(batch[..n], pm)
    decreases n
  {
    if i < n {
      OwedGrows(batch, i, n - 1, pm);
      OwedStep(batch, n - 1, pm);
    }
  }

  lemma {:induction false} LastOfPaymaster(batch: seq<AiOperation>, n: nat, pm: Address) returns (i: nat)
    requires n <= |batch| && exists j :: 0 <= j < n && GetPaymaster(batch[j]) == pm
    ensures i < n && GetPaymaster(batch[i]) == pm && Owed(batch[..i + 1], pm) == Owed(batch[..n], pm)
    decreases n
  {
    hide GetPaymaster, Owed, GetMaxPrefund;
    OwedStep(batch, n - 1, pm);
    if GetPaymaster(batch[n - 1]) == pm {
      i := n - 1;
    } else {
      i := LastOfPaymaster(batch, n - 1, pm);
    }
  }

  /** No paymaster in the batch may have to pay more than its deposit. */
  ghost predicate Covered(batch: seq<AiOperation>, deposits: Deposits) {
    forall op | op in batch && GetPaymaster(op) != ZeroAddress() && deposits(GetPaymaster(op)).Some? ::
      Owed(batch, GetPaymaster(op)) <= deposits(GetPaymaster(op)).value
  }

  lemma NoneOverdrawsIffCovered(batch: seq<AiOperation>, deposits: Deposits)
    ensures (forall i | 0 <= i < |batch| :: !Overdraws(batch, i, deposits)) <==> Covered(batch, deposits)
  {
    hide Owed, GetPaymaster, ZeroAddress;
    assert batch[..|batch|] == batch;
    if Covered(batch, deposits) {
      forall i | 0 <= i < |batch| ensures !Overdraws(batch, i, deposits) {
        assert batch[i] in batch;
        OwedGrows(batch, i + 1, |batch|, GetPaymaster(batch[i]));
      }
    }
    if forall i | 0 <= i < |batch| :: !Overdraws(batch, i, deposits) {
      forall op | op in batch && GetPaymaster(op) != ZeroAddress() && deposits(GetPaymaster(op)).Some?
        ensures Owed(batch, GetPaymaster(op)) <= deposits(GetPaymaster(op)).value
      {
        var i := LastOfPaymaster(batch, |batch|, GetPaymaster(op));
        assert !Overdraws(batch, i, deposits);
      }
    }
  }

  ghost predicate AscendingIn(indices: seq<nat>, n: nat) {
    && (forall j, k | 0 <= j < k < |indices| :: indices[j] < indices[k])
    && (forall j | 0 <= j < |indices| :: indices[j] < n)
  }

  lemma {:induction false} MarkAllShrinks(batch: seq<AiOperation>, indices: seq<nat>)
    requires indices != [] && indices[0] < |batch|
    ensures |MarkAll(batch, indices)| < |batch|
    decreases |indices|
  {
    if |indices| == 1 {
      assert MarkAll(batch, indices[..0]) == batch;
    } else {
      MarkAllShrinks(batch, indices[..|indices| - 1]);
    }
  }

  /** The second operation to overdraw is never removed: by the time its index is marked it has
      moved one place down. */
  lemma {:induction false} SecondStays(batch: seq<AiOperation>, indices: seq<nat>)
    requires |indices| >= 2 && AscendingIn(indices, |batch|)
    ensures 0 <= indices[0] < indices[1] <= |MarkAll(batch, indices)|
    ensures MarkAll(batch, indices)[indices[1] - 1] == batch[indices[1]]
    decreases |indices|
  {
    var before := indices[..|indices| - 1];
    if |indices| == 2 {
      assert MarkAll(batch, before[..0]) == batch;
      assert before[..0] == before[..|before| - 1];
      assert MarkAll(batch, before) == Mark(batch, indices[0]);
    } else {
      SecondStays(batch, before);
    }
  }

  lemma OneMarkRemovesIt(batch: seq<AiOperation>, indices: seq<nat>)
    requires |indices| == 1 && indices[0] < |batch|
    requires forall i, j | 0 <= i < j < |batch| :: batch[i] != batch[j]
    ensures batch[indices[0]] !in MarkAll(batch, indices)
  {
    assert MarkAll(batch, indices[..0]) == batch;
    assert MarkAll(batch, indices) == Mark(batch, indices[0]);
  }

  /** The check leaves the batch as it is if and only if every paymaster in it can pay. */
  lemma UnchangedIffCovered(batch: seq<AiOperation>, deposits: Deposits)
    ensures MarkAll(batch, OverdrawnUpTo(batch, |batch|, deposits)) == batch <==> Covered(batch, deposits)
  {
    var indices := OverdrawnUpTo(batch, |batch|, deposits);
    OverdrawnAscends(batch, |batch|, deposits);
    NoneOverdrawsIffCovered(batch, deposits);
    hide Overdraws, OverdrawnUpTo, Covered;
    if indices != [] {
      assert indices[0] in indices;
      MarkAllShrinks(batch, indices);
    }
  }

  /** The check removes every operation that overdraws its paymaster if and only if there is at most
      one: the indices it marks are those of the batch as it was before it started removing. */
  lemma RemovesOverdrawersIffAtMostOne(batch: seq<AiOperation>, deposits: Deposits)
    requires forall i, j | 0 <= i < j < |batch| :: batch[i] != batch[j]
    ensures var indices := OverdrawnUpTo(batch, |batch|, deposits);
            (forall i | 0 <= i < |batch| && Overdraws(batch, i, deposits) :: batch[i] !in MarkAll(batch, indices))
            <==> |indices| <= 1
  {
    var indices := OverdrawnUpTo(batch, |batch|, deposits);
    OverdrawnAscends(batch, |batch|, deposits);
    hide Overdraws, OverdrawnUpTo, MarkAll;
    assert AscendingIn(indices, |batch|) by {
      forall j | 0 <= j < |indices| ensures indices[j] < |batch| { assert indices[j] in indices; }
    }
    if |indices| >= 2 {
      assert indices[1] in indices;
      SecondStays(batch, indices);
      assert batch[indices[1]] in MarkAll(batch, indices);
    } else if |indices| == 1 {
      assert indices[0] in indices;
      OneMarkRemovesIt(batch, indices);
    }
  }
}
