/** What the deposit check of pkg/modules/checks leaves of a batch. It removes by the indices of the
    batch as it was, so the k-th removal takes the operation k places further on. */
module DepositsLeft {
  import opened Text
  import opened AiOp
  import opened BatchContext
  import opened BatchChecks

  /** The operations taken by marking ascending indices one after the other. */
  function Taken(batch: seq<AiOperation>, indices: seq<nat>): seq<AiOperation> {
    if indices == [] then []
    else
      var n := |indices| - 1;
      Taken(batch, indices[..n]) + if indices[n] + n < |batch| then [batch[indices[n] + n]] else []
  }

  ghost predicate Ascending(indices: seq<nat>) {
    forall j, k | 0 <= j < k < |indices| :: indices[j] < indices[k]
  }

  /** Taking operations out of a batch takes what they owe out of what it owes. */
  ghost predicate Splits(batch: seq<AiOperation>, left: seq<AiOperation>, taken: seq<AiOperation>) {
    && multiset(left) + multiset(taken) == multiset(batch)
    && forall pm :: Owed(left, pm) + Owed(taken, pm) == Owed(batch, pm)
  }

  lemma {:induction false} OwedConcat(a: seq<AiOperation>, b: seq<AiOperation>, pm: Address)
    ensures Owed(a + b, pm) == Owed(a, pm) + Owed(b, pm)
    decreases |b|
  {
    hide GetPaymaster, GetMaxPrefund;
    if b == [] {
      assert a + b == a;
    } else {
      var n := |b| - 1;
      assert (a + b)[..|a + b| - 1] == a + b[..n];
      OwedConcat(a, b[..n], pm);
    }
  }

  lemma OwedOfOne(op: AiOperation, pm: Address)
    ensures Owed([op], pm) == if GetPaymaster(op) == pm then GetMaxPrefund(op) else 0
  {
    assert [op][..0] == [];
  }

  lemma MarkSplits(batch: seq<AiOperation>, index: nat)
    requires index < |batch|
    ensures Splits(batch, Mark(batch, index), [batch[index]])
  {
    hide Owed;
    var before, after := batch[..index], batch[index + 1..];
    assert batch == before + [batch[index]] + after;
    assert multiset(batch) == multiset(before) + multiset([batch[index]]) + multiset(after);
    forall pm ensures Owed(before + after, pm) + Owed([batch[index]], pm) == Owed(batch, pm) {
      OwedConcat(before, after, pm);
      OwedConcat(before, [batch[index]], pm);
      OwedConcat(before + [batch[index]], after, pm);
    }
  }

  lemma SplitsMore(batch: seq<AiOperation>, left: seq<AiOperation>, taken: seq<AiOperation>,
                   left': seq<AiOperation>, op: AiOperation)
    requires Splits(batch, left, taken) && Splits(left, left', [op])
    ensures Splits(batch, left', taken + [op])
  {
    hide Owed;
    forall pm ensures Owed(left', pm) + Owed(taken + [op], pm) == Owed(batch, pm) {
      OwedConcat(taken, [op], pm);
    }
  }

  /** Behind the last index marked the batch has moved down by the number of operations taken; once
      an index misses the batch, so do all that follow. */
  ghost predicate MovedDown(batch: seq<AiOperation>, indices: seq<nat>, left: seq<AiOperation>, taken: nat) {
    var from := if indices == [] then 0 else indices[|indices| - 1];
    && taken <= |indices| && |left| + taken == |batch| && (taken < |indices| ==> from >= |left|)
    && forall j | from <= j < |left| :: left[j] == batch[j + taken]
  }

  lemma {:induction false} MarksTake(batch: seq<AiOperation>, indices: seq<nat>)
    requires Ascending(indices)
    ensures MovedDown(batch, indices, MarkAll(batch, indices), |Taken(batch, indices)|)
    ensures Splits(batch, MarkAll(batch, indices), Taken(batch, indices))
    decreases |indices|
  {
    hide Owed, GetPaymaster, GetMaxPrefund;
    if indices == [] {
      assert forall pm :: Owed([], pm) == 0 by { NothingIsOwed(); }
    } else {
      hide MovedDown, Splits;
      var before := indices[..|indices| - 1];
      MarksTake(batch, before);
      TakesOne(batch, indices, MarkAll(batch, before), Taken(batch, before));
    }
  }

  lemma TakesOne(batch: seq<AiOperation>, indices: seq<nat>, left: seq<AiOperation>, taken: seq<AiOperation>)
    requires Ascending(indices) && indices != []
    requires MovedDown(batch, indices[..|indices| - 1], left, |taken|) && Splits(batch, left, taken)
    ensures var n := |indices| - 1; var last := indices[n];
            var more := if last + n < |batch| then [batch[last + n]] else [];
            && MovedDown(batch, indices, Mark(left, last), |taken + more|)
            && Splits(batch, Mark(left, last), taken + more)
  {
    hide Splits;
    var n := |indices| - 1;
    var last := indices[n];
    if |taken| == n && last < |left| {
      assert left[last] == batch[last + n];
      MarkSplits(left, last);
      SplitsMore(batch, left, taken, Mark(left, last), left[last]);
    } else {
      assert taken + [] == taken;
    }
  }

  lemma NothingIsOwed()
    ensures forall pm :: Owed([], pm) == 0
  {
  }

  /** No deposit is negative. */
  ghost predicate NonNegative(deposits: Deposits) {
    forall a | deposits(a).Some? :: deposits(a).value >= 0
  }

  /** Every paymaster can pay for its operations but those taken. */
  ghost predicate CoveredWithout(batch: seq<AiOperation>, taken: seq<AiOperation>, deposits: Deposits) {
    forall op | op in batch && GetPaymaster(op) != ZeroAddress() && deposits(GetPaymaster(op)).Some? ::
      Owed(batch, GetPaymaster(op)) - Owed(taken, GetPaymaster(op)) <= deposits(GetPaymaster(op)).value
  }

  lemma {:induction false} OwesNothing(batch: seq<AiOperation>, pm: Address)
    requires forall op | op in batch :: GetPaymaster(op) != pm
    ensures Owed(batch, pm) == 0
    decreases |batch|
  {
    hide GetPaymaster, GetMaxPrefund;
    if batch != [] {
      OwesNothing(batch[..|batch| - 1], pm);
    }
  }

  lemma SplitIsCoveredIff(batch: seq<AiOperation>, left: seq<AiOperation>, taken: seq<AiOperation>,
                          deposits: Deposits)
    requires Splits(batch, left, taken) && NonNegative(deposits)
    ensures Covered(left, deposits) <==> CoveredWithout(batch, taken, deposits)
  {
    hide Owed, GetPaymaster, GetMaxPrefund, ZeroAddress;
    assert forall op | op in left :: op in batch by {
      forall op | op in left ensures op in batch { assert op in multiset(left) + multiset(taken); }
    }
    if Covered(left, deposits) {
      forall op | op in batch && GetPaymaster(op) != ZeroAddress() && deposits(GetPaymaster(op)).Some?
        ensures Owed(batch, GetPaymaster(op)) - Owed(taken, GetPaymaster(op)) <= deposits(GetPaymaster(op)).value
      {
        var pm := GetPaymaster(op);
        assert Owed(left, pm) + Owed(taken, pm) == Owed(batch, pm);
        if other :| other in left && GetPaymaster(other) == pm {
          assert Owed(left, GetPaymaster(other)) <= deposits(GetPaymaster(other)).value;
        } else {
          OwesNothing(left, pm);
        }
      }
    }
  }

  /** What the check promises: that every paymaster can pay for the operations left. It holds if and
      only if each can pay for its part of the batch without the operations at the k-th overdrawn index
      plus k. */
  lemma LeftIsCoveredIff(batch: seq<AiOperation>, deposits: Deposits)
    requires NonNegative(deposits)
    ensures var indices := OverdrawnUpTo(batch, |batch|, deposits);
            Covered(MarkAll(batch, indices), deposits)
            <==> CoveredWithout(batch, Taken(batch, indices), deposits)
  {
    var indices := OverdrawnUpTo(batch, |batch|, deposits);
    OverdrawnAscends(batch, |batch|, deposits);
    hide Overdraws, OverdrawnUpTo, Splits, MovedDown, Covered, CoveredWithout, NonNegative;
    MarksTake(batch, indices);
    SplitIsCoveredIff(batch, MarkAll(batch, indices), Taken(batch, indices), deposits);
  }

  /** Before a position nobody overdraws at, a paymaster that can pay nothing owes nothing. */
  lemma CoveredUpTo(batch: seq<AiOperation>, n: nat, pm: Address, deposits: Deposits)
    requires n <= |batch| && NonNegative(deposits) && pm != ZeroAddress() && deposits(pm).Some?
    requires forall i | 0 <= i < n && GetPaymaster(batch[i]) == pm :: !Overdraws(batch, i, deposits)
    ensures Owed(batch[..n], pm) <= deposits(pm).value
  {
    hide Owed, GetPaymaster, GetMaxPrefund, ZeroAddress;
    if exists j :: 0 <= j < n && GetPaymaster(batch[j]) == pm {
      var i := LastOfPaymaster(batch, n, pm);
      assert !Overdraws(batch, i, deposits);
    } else {
      OwesNothing(batch[..n], pm);
    }
  }

  /** The paymaster that overdraws once can pay for the rest. */
  lemma OneOverdrawn(batch: seq<AiOperation>, index: nat, pm: Address, deposits: Deposits)
    requires index < |batch| && NonNegative(deposits) && Overdraws(batch, index, deposits)
    requires forall i | 0 <= i < |batch| && Overdraws(batch, i, deposits) :: i == index
    requires pm != ZeroAddress() && deposits(pm).Some?
    ensures Owed(batch, pm) - Owed([batch[index]], pm) <= deposits(pm).value
  {
    hide Owed, GetPaymaster, GetMaxPrefund, ZeroAddress;
    assert batch[..|batch|] == batch;
    OwedOfOne(batch[index], pm);
    if GetPaymaster(batch[index]) == pm {
      CoveredUpTo(batch, index, pm, deposits);
      OwedStep(batch, index, pm);
      var last := LastOfPaymaster(batch, |batch|, pm);
      if last < index {
        OwedGrows(batch, last + 1, index, pm);
        OwedGrows(batch, index, index + 1, pm);
        OwedGrows(batch, index + 1, |batch|, pm);
      } else {
        OwedGrows(batch, index + 1, last + 1, pm);
        assert Overdraws(batch, last, deposits);
      }
    } else {
      CoveredUpTo(batch, |batch|, pm, deposits);
    }
  }

  lemma NobodyOverdraws(batch: seq<AiOperation>, deposits: Deposits)
    requires OverdrawnUpTo(batch, |batch|, deposits) == []
    ensures Covered(MarkAll(batch, []), deposits)
  {
    OverdrawnAscends(batch, |batch|, deposits);
    NoneOverdrawsIffCovered(batch, deposits);
  }

  lemma OneOverdraws(batch: seq<AiOperation>, index: nat, deposits: Deposits)
    requires NonNegative(deposits) && OverdrawnUpTo(batch, |batch|, deposits) == [index]
    ensures index < |batch| && CoveredWithout(batch, [batch[index]], deposits)
  {
    OverdrawnAscends(batch, |batch|, deposits);
    assert index in [index];
    hide Overdraws, OverdrawnUpTo, Owed, GetPaymaster, ZeroAddress;
    forall op | op in batch && GetPaymaster(op) != ZeroAddress() && deposits(GetPaymaster(op)).Some?
      ensures Owed(batch, GetPaymaster(op)) - Owed([batch[index]], GetPaymaster(op))
              <= deposits(GetPaymaster(op)).value
    {
      OneOverdrawn(batch, index, GetPaymaster(op), deposits);
    }
  }

  /** With at most one operation that overdraws, every paymaster can pay for what is left. */
  lemma OneOverdrawerLeavesCovered(batch: seq<AiOperation>, deposits: Deposits)
    requires NonNegative(deposits) && |OverdrawnUpTo(batch, |batch|, deposits)| <= 1
    ensures Covered(MarkAll(batch, OverdrawnUpTo(batch, |batch|, deposits)), deposits)
  {
    hide OverdrawnUpTo, MarkAll, Covered, CoveredWithout, NonNegative;
    var indices := OverdrawnUpTo(batch, |batch|, deposits);
    LeftIsCoveredIff(batch, deposits);
    if indices == [] {
      NobodyOverdraws(batch, deposits);
    } else {
      var index := indices[0];
      assert indices == [index];
      OneOverdraws(batch, index, deposits);
      assert Taken(batch, indices[..0]) == [];
      assert Taken(batch, indices) == [] + [batch[index]] == [batch[index]];
    }
  }

  /** Two operations of one paymaster, each beyond its deposit: the second stays and cannot be paid. */
  lemma TwoOverdrawersLeaveUncovered(first: AiOperation, second: AiOperation, deposits: Deposits)
    requires GetPaymaster(first) == GetPaymaster(second) != ZeroAddress()
    requires deposits(GetPaymaster(first)).Some?
    requires 0 <= deposits(GetPaymaster(first)).value < GetMaxPrefund(first)
    requires deposits(GetPaymaster(first)).value < GetMaxPrefund(second)
    ensures var batch := [first, second];
            var left := MarkAll(batch, OverdrawnUpTo(batch, |batch|, deposits));
            left == [second] && !Covered(left, deposits)
  {
    hide GetPaymaster, GetMaxPrefund, ZeroAddress, Owed;
    var batch, pm := [first, second], GetPaymaster(first);
    OwedOfOne(first, pm);
    OwedOfOne(second, pm);
    OwedConcat([first], [second], pm);
    assert batch[..1] == [first] && batch[..2] == [first] + [second];
    assert Overdraws(batch, 0, deposits) && Overdraws(batch, 1, deposits);
    TwoOverdrawn(batch, deposits);
    assert second in [second];
  }

  lemma TwoOverdrawn(batch: seq<AiOperation>, deposits: Deposits)
    requires |batch| == 2 && Overdraws(batch, 0, deposits) && Overdraws(batch, 1, deposits)
    ensures MarkAll(batch, OverdrawnUpTo(batch, |batch|, deposits)) == [batch[1]]
  {
    hide Overdraws;
    assert OverdrawnUpTo(batch, 0, deposits) == [];
    assert OverdrawnUpTo(batch, 1, deposits) == [0];
    assert OverdrawnUpTo(batch, 2, deposits) == [0] + [1];
    var indices: seq<nat> := [0, 1];
    assert indices[..1] == [0] && indices[..1][..0] == [];
    assert MarkAll(batch, []) == batch;
    assert MarkAll(batch, indices[..1]) == [batch[1]];
    assert MarkAll(batch, indices) == Mark([batch[1]], 1) == [batch[1]];
  }
}
