/** The sending module of pkg/modules/relay/relayer.go. */
module Relayer {
  import opened Text
  import opened AiOp
  import opened BatchContext

  /** An answer to a gas estimate of the batch transaction. */
  datatype Estimate = Fails | Reverts(opIndex: int, reason: string) | Enough(gas: nat)

  /** Where the estimates leave a batch; `settled` when it is empty or its gas is known. */
  datatype Estimation = Estimation(batch: seq<AiOperation>, items: seq<PendingRemovalItem>, settled: bool)

  /** Each answer that blames an index marks it, in what the answers before left; when the answers run
      out the module never comes back. */
  function AfterEstimates(batch: seq<AiOperation>, items: seq<PendingRemovalItem>, answers: seq<Estimate>): Estimation
    decreases |answers|
  {
    if batch == [] then Estimation(batch, items, true)
    else if answers == [] then Estimation(batch, items, false)
    else
      match answers[0]
      case Fails => Estimation(batch, items, false)
      case Enough(_) => Estimation(batch, items, true)
      case Reverts(opIndex, reason) =>
        AfterEstimates(Mark(batch, opIndex), Marked(batch, items, opIndex, reason), answers[1..])
  }

  /** Whatever the answers, every operation stays accounted for. */
  lemma {:induction false} EstimatesAccount(batch: seq<AiOperation>, items: seq<PendingRemovalItem>,
                                            answers: seq<Estimate>)
    ensures var e := AfterEstimates(batch, items, answers); Accounts(batch, items, e.batch, e.items)
    decreases |answers|
  {
    var e := AfterEstimates(batch, items, answers);
    hide Mark, Marked, OpsOfItems;
    if batch != [] && answers != [] && answers[0].Reverts? {
      var b, p := Mark(batch, answers[0].opIndex), Marked(batch, items, answers[0].opIndex, answers[0].reason);
      MarkAccounts(batch, items, answers[0].opIndex, answers[0].reason);
      EstimatesAccount(b, p, answers[1..]);
      AccountsTrans(batch, items, b, p, e.batch, e.items);
    }
  }

  /** Some answer is a gas limit, and all before it blame an index. */
  predicate ComesToEnough(answers: seq<Estimate>)
    decreases |answers|
  {
    answers != [] && (answers[0].Enough? || (answers[0].Reverts? && ComesToEnough(answers[1..])))
  }

  lemma {:induction false} EstimatesSettle(batch: seq<AiOperation>, items: seq<PendingRemovalItem>,
                                           answers: seq<Estimate>)
    requires ComesToEnough(answers)
    ensures AfterEstimates(batch, items, answers).settled
    decreases |answers|
  {
    hide Mark, Marked;
    if answers[0].Reverts? {
      EstimatesSettle(Mark(batch, answers[0].opIndex),
                      Marked(batch, items, answers[0].opIndex, answers[0].reason), answers[1..]);
    }
  }

  /** The estimates settle a batch if and only if nothing is left of it, or they come to a gas limit; a failed
      estimate settles nothing. */
  lemma {:induction false} SettledIff(batch: seq<AiOperation>, items: seq<PendingRemovalItem>,
                                      answers: seq<Estimate>)
    ensures var e := AfterEstimates(batch, items, answers);
            e.settled <==> e.batch == [] || ComesToEnough(answers)
    decreases |answers|
  {
    hide Mark, Marked;
    if batch == [] {
      if ComesToEnough(answers) { EstimatesSettle(batch, items, answers); }
    } else if answers != [] && answers[0].Reverts? {
      SettledIff(Mark(batch, answers[0].opIndex),
                 Marked(batch, items, answers[0].opIndex, answers[0].reason), answers[1..]);
    }
  }

  /** `answers` are the successive answers of the node, `sent` whether it takes the transaction and, if it
      is waited for, includes it in time and without failing; otherwise the transaction is an error, as one
      that is refused, even though the node may have it. `txn` is what a transaction that was sent carries:
      the batch as it was before any operation was dropped. */
  method SendAiOperation(ctx: BatchHandlerCtx, answers: seq<Estimate>, sent: bool)
    returns (ok: bool, txn: Option<seq<AiOperation>>)
    modifies ctx
    ensures var e := AfterEstimates(old(ctx.batch), old(ctx.pendingRemoval), answers);
            && ctx.batch == e.batch && ctx.pendingRemoval == e.items
            && (ok <==> e.settled && (ctx.batch != [] ==> sent))
    ensures ok <==> ctx.batch == [] || (ComesToEnough(answers) && sent)
    ensures txn == if ok && ctx.batch != [] then Some(old(ctx.batch)) else None
  {
    hide Mark, Marked, ComesToEnough;
    SettledIff(ctx.batch, ctx.pendingRemoval, answers);
    var captured := ctx.batch;
    ghost var e := AfterEstimates(ctx.batch, ctx.pendingRemoval, answers);
    assert answers[0..] == answers;
    var i := 0;
    while |ctx.batch| > 0
      invariant 0 <= i <= |answers|
      invariant e == AfterEstimates(ctx.batch, ctx.pendingRemoval, answers[i..])
      decreases |answers| - i
    {
      if i == |answers| {
        return false, None;
      }
      assert answers[i..][1..] == answers[i + 1..];
      match answers[i]
      case Fails =>
        return false, None;
      case Reverts(opIndex, reason) =>
        ctx.MarkOpIndexForRemoval(opIndex, reason);
        i := i + 1;
      case Enough(_) =>
        break;
    }
    if |ctx.batch| > 0 {
      if !sent {
        return false, None;
      }
      return true, Some(captured);
    }
    return true, None;
  }

  /** Until an answer ends the module, none blames an index of a batch of `n` operations. */
  predicate BlamesNothing(n: nat, answers: seq<Estimate>)
    decreases |answers|
  {
    || n == 0 || answers == [] || !answers[0].Reverts?
    || (!(0 <= answers[0].opIndex < n) && BlamesNothing(n, answers[1..]))
  }

  lemma {:induction false} BatchNeverGrows(batch: seq<AiOperation>, items: seq<PendingRemovalItem>,
                                           answers: seq<Estimate>)
    ensures |AfterEstimates(batch, items, answers).batch| <= |batch|
    decreases |answers|
  {
    if batch != [] && answers != [] && answers[0].Reverts? {
      BatchNeverGrows(Mark(batch, answers[0].opIndex),
                      Marked(batch, items, answers[0].opIndex, answers[0].reason), answers[1..]);
    }
  }

  /** The batch captured for the transaction is still the batch when it is sent if and only if no answer
      blamed one of its operations. */
  lemma {:induction false} SentIsBatchIffNothingBlamed(batch: seq<AiOperation>, items: seq<PendingRemovalItem>,
                                                       answers: seq<Estimate>)
    ensures AfterEstimates(batch, items, answers).batch == batch <==> BlamesNothing(|batch|, answers)
    decreases |answers|
  {
    if batch != [] && answers != [] && answers[0].Reverts? {
      var index, reason := answers[0].opIndex, answers[0].reason;
      if 0 <= index < |batch| {
        BatchNeverGrows(Mark(batch, index), Marked(batch, items, index, reason), answers[1..]);
      } else {
        SentIsBatchIffNothingBlamed(batch, items, answers[1..]);
      }
    }
  }

  /** One blamed operation out of two: the transaction still carries both. */
  lemma BlamedOperationIsSent(first: AiOperation, second: AiOperation, reason: string, gas: nat)
    ensures var answers := [Reverts(0, reason), Enough(gas)];
            var e := AfterEstimates([first, second], [], answers);
            && e == Estimation([second], [PendingRemovalItem(first, reason)], true)
            && !BlamesNothing(2, answers) && e.batch != [first, second]
  {
    var batch, answers := [first, second], [Reverts(0, reason), Enough(gas)];
    assert Mark(batch, 0) == [second] && Marked(batch, [], 0, reason) == [PendingRemovalItem(first, reason)];
    assert answers[1..] == [Enough(gas)];
    assert AfterEstimates([second], [PendingRemovalItem(first, reason)], [Enough(gas)])
           == Estimation([second], [PendingRemovalItem(first, reason)], true);
  }
}
