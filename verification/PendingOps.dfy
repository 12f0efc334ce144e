/** The replacement rule of pkg/modules/checks/pendingops.go. */
module PendingOps {
  import opened Text
  import opened AiOp

  const MIN_PRICE_BUMP := 10

  /** The fee a replacement must reach: the old one raised by 10%, rounded down. */
  function NewThreshold(fee: nat): nat {
    (100 + MIN_PRICE_BUMP) * fee / 100
  }

  /** The last pending operation with the same nonce. */
  function Replaced(op: AiOperation, penOps: seq<AiOperation>): Option<AiOperation> {
    if penOps == [] then None
    else if penOps[|penOps| - 1].nonce == op.nonce then Some(penOps[|penOps| - 1])
    else Replaced(op, penOps[..|penOps| - 1])
  }

  predicate Outbids(op: AiOperation, oldOp: AiOperation) {
    && op.maxFeePerGas >= NewThreshold(oldOp.maxFeePerGas)
    && op.maxPriorityFeePerGas >= NewThreshold(oldOp.maxPriorityFeePerGas)
  }

  predicate PassesPendingOps(op: AiOperation, penOps: seq<AiOperation>) {
    var oldOp := Replaced(op, penOps);
    oldOp.Some? ==> Outbids(op, oldOp.value)
  }

  method ValidatePendingOps(op: AiOperation, penOps: seq<AiOperation>) returns (ok: bool)
    ensures ok <==> PassesPendingOps(op, penOps)
  {
    hide NewThreshold;
    if |penOps| > 0 {
      var oldOp: Option<AiOperation> := None;
      for i := 0 to |penOps|
        invariant oldOp == Replaced(op, penOps[..i])
      {
        assert penOps[..i + 1][..i] == penOps[..i];
        if op.nonce == penOps[i].nonce {
          oldOp := Some(penOps[i]);
        }
      }
      assert penOps[..|penOps|] == penOps;
      if oldOp.Some? {
        var newMf, newMpf := NewThreshold(oldOp.value.maxFeePerGas), NewThreshold(oldOp.value.maxPriorityFeePerGas);
        if op.maxFeePerGas < newMf || op.maxPriorityFeePerGas < newMpf {
          return false;
        }
      }
    }
    return true;
  }

  /** When one nonce belongs to one operation, that is the one replaced. */
  lemma {:induction false} ReplacedIsTheOne(op: AiOperation, penOps: seq<AiOperation>, prior: AiOperation)
    requires prior in penOps && prior.nonce == op.nonce
    requires forall o | o in penOps :: o.nonce == op.nonce ==> o == prior
    ensures Replaced(op, penOps) == Some(prior)
    decreases |penOps|
  {
    var last := penOps[|penOps| - 1];
    if last.nonce != op.nonce {
      var rest := penOps[..|penOps| - 1];
      assert penOps == rest + [last];
      ReplacedIsTheOne(op, rest, prior);
    }
  }

  /** One replacement never lowers a fee, and raises it by a tenth but for what rounding takes. */
  lemma OneBump(prior: nat, fee: nat)
    requires fee >= NewThreshold(prior)
    ensures fee >= prior && 10 * (fee - 9) >= 11 * (prior - 9)
  {
  }

  /** What the thresholds mean: a replacement is accepted if and only if ten times each of its fees, with
      one more unit, exceeds eleven times the old one; a rise by exactly a tenth always suffices. */
  lemma OutbidsIff(op: AiOperation, oldOp: AiOperation)
    ensures Outbids(op, oldOp)
            <==> && 10 * (op.maxFeePerGas + 1) > 11 * oldOp.maxFeePerGas
                 && 10 * (op.maxPriorityFeePerGas + 1) > 11 * oldOp.maxPriorityFeePerGas
    ensures (&& 10 * op.maxFeePerGas >= 11 * oldOp.maxFeePerGas
             && 10 * op.maxPriorityFeePerGas >= 11 * oldOp.maxPriorityFeePerGas) ==> Outbids(op, oldOp)
  {
  }
}
