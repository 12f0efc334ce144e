/** Whom the reputation of pkg/modules/entities keeps out: what the status of an operation's entities
    means for its admission. */
module Admission {
  import opened Text
  import opened AiOp
  import opened Arithmetic
  import opened MempoolQueue
  import opened Reputation
  import opened Client

  function StatusAt(db: Counts, a: Address, now: int, rc: ReputationConstants): Status
    requires rc.minInclusionRateDenominator >= 1
  {
    StatusOfEntry(EntryAt(db, a, now), rc)
  }

  // ---------------------------------------------------------------- status in counts

  lemma BeyondSlack(seen: nat, included: nat, slack: nat, d: nat)
    requires d >= 1
    ensures !Within(seen, included, slack, d) <==> seen >= d * (included + slack + 1)
  {
    var q := included + slack + 1;
    if seen >= d * q {
      DivideAtLeast(seen, d, q);
    } else {
      DivideBelow(seen, d, q);
    }
  }

  /** The number of operations seen from which on an entity is throttled, and from which on it is banned,
      given how many were included; a ban slack below the throttling slack is overruled by it. */
  lemma StatusInCounts(seen: nat, included: nat, rc: ReputationConstants)
    requires rc.minInclusionRateDenominator >= 1
    ensures var d := rc.minInclusionRateDenominator;
            var throttled := d * (included + rc.throttlingSlack + 1);
            var banned := d * (included + rc.banSlack + 1);
            StatusOf(seen, included, rc) ==
            if seen < throttled then Ok else if seen < banned then Throttled else Banned
  {
    var d := rc.minInclusionRateDenominator;
    BeyondSlack(seen, included, rc.throttlingSlack, d);
    BeyondSlack(seen, included, rc.banSlack, d);
    hide Within;
    if seen == 0 {
      assert d * (included + rc.throttlingSlack + 1) >= d by { ScaleUp(d, 1, included + rc.throttlingSlack + 1); }
    }
  }

  /** Counts decay by no more than a 24th an hour. */
  lemma {:induction false} DecayAtLeast(x: nat, hours: nat)
    ensures Pow(24, hours) * Decay(x, hours) >= Pow(23, hours) * x
    decreases hours
  {
    if hours > 0 {
      var next := DecayOnce(x);
      assert 24 * next >= 23 * x;
      DecayAtLeast(next, hours - 1);
      hide Decay, DecayOnce;
      var a, b, z := Pow(24, hours - 1), Pow(23, hours - 1), Decay(next, hours - 1);
      assert Pow(24, hours) * Decay(x, hours) >= Pow(23, hours) * x by {
        assert Decay(x, hours) == z by { DecayNext(x, hours); }
        ScaleHours(a, b, x, next, z);
      }
    }
  }

  lemma DecayNext(x: nat, hours: nat)
    requires hours > 0
    ensures Decay(x, hours) == Decay(DecayOnce(x), hours - 1)
  {
  }

  lemma ScaleHours(a: nat, b: nat, x: nat, next: nat, z: nat)
    requires a * z >= b * next && 24 * next >= 23 * x
    ensures (24 * a) * z >= (23 * b) * x
  {
    assert (24 * a) * z == 24 * (a * z);
    assert b * (24 * next) >= b * (23 * x);
    assert b * (24 * next) == 24 * (b * next);
    assert b * (23 * x) == (23 * b) * x;
  }

  /** Only whole hours count. */
  lemma HoursAreWhole(stamp: int, now: int)
    requires stamp <= now
    ensures 3600 * HoursSince(stamp, now) <= now - stamp < 3600 * (HoursSince(stamp, now) + 1)
  {
  }

  // ---------------------------------------------------------------- admission

  /** A banned entity is refused, whatever is pending. */
  lemma BannedIsRefused(db: Counts, op: AiOperation, a: Address, pso: nat, pfo: nat, ppo: nat, now: int,
                        rc: ReputationConstants)
    requires rc.minInclusionRateDenominator >= 1
    requires Roles(op, a) > 0 && StatusAt(db, a, now, rc) == Banned
    ensures !AdmitsAll(db, op, pso, pfo, ppo, now, rc)
  {
    hide StatusOfEntry, EntryAt, GetFactory, GetPaymaster, ZeroAddress;
  }

  /** Entities in good standing are admitted, whatever is pending. */
  lemma OkIsAdmitted(db: Counts, op: AiOperation, pso: nat, pfo: nat, ppo: nat, now: int, rc: ReputationConstants)
    requires rc.minInclusionRateDenominator >= 1
    requires forall a | Roles(op, a) > 0 :: StatusAt(db, a, now, rc) == Ok
    ensures AdmitsAll(db, op, pso, pfo, ppo, now, rc)
  {
    hide StatusOfEntry, EntryAt, GetFactory, GetPaymaster, ZeroAddress;
    assert Roles(op, op.sender) > 0;
    assert GetFactory(op) != ZeroAddress() ==> Roles(op, GetFactory(op)) > 0;
    assert GetPaymaster(op) != ZeroAddress() ==> Roles(op, GetPaymaster(op)) > 0;
  }

  /** With nobody banned, an operation is refused exactly if a throttled entity of it has just its number of
      operations pending, each entity counted by its own. */
  lemma ThrottledRule(db: Counts, op: AiOperation, pso: nat, pfo: nat, ppo: nat, now: int, rc: ReputationConstants)
    requires rc.minInclusionRateDenominator >= 1
    requires forall a | Roles(op, a) > 0 :: StatusAt(db, a, now, rc) != Banned
    ensures var limit := rc.throttledEntityMempoolCount;
            !AdmitsAll(db, op, pso, pfo, ppo, now, rc)
            <==> || (StatusAt(db, op.sender, now, rc) == Throttled && pso == limit)
                 || (&& GetFactory(op) != ZeroAddress() && StatusAt(db, GetFactory(op), now, rc) == Throttled
                     && pfo == limit)
                 || (&& GetPaymaster(op) != ZeroAddress() && StatusAt(db, GetPaymaster(op), now, rc) == Throttled
                     && ppo == limit)
  {
    hide StatusOfEntry, EntryAt, GetFactory, GetPaymaster, ZeroAddress;
    assert Roles(op, op.sender) > 0;
    assert GetFactory(op) != ZeroAddress() ==> Roles(op, GetFactory(op)) > 0;
    assert GetPaymaster(op) != ZeroAddress() ==> Roles(op, GetPaymaster(op)) > 0;
  }

  lemma TimeNeverWorsens(db: Counts, a: Address, now: int, later: int, rc: ReputationConstants)
    requires rc.minInclusionRateDenominator >= 1 && now <= later
    ensures NoWorse(StatusAt(db, a, later, rc), StatusAt(db, a, now, rc))
  {
    hide StatusOf, Decay, HoursSince, NoWorse;
    if a in db {
      var e := db[a];
      var h, h' := HoursSince(e.stamp, now), HoursSince(e.stamp, later);
      LaterIsMoreHours(e.stamp, now, later);
      DecayComposes(e.opsSeen, h, h' - h);
      DecayComposes(e.opsIncluded, h, h' - h);
      DecayNeverWorsens(Decay(e.opsSeen, h), Decay(e.opsIncluded, h), h' - h, rc);
    } else {
      SameIsNoWorse(StatusOf(0, 0, rc));
    }
  }

  lemma LaterIsMoreHours(stamp: int, now: int, later: int)
    requires now <= later
    ensures HoursSince(stamp, now) <= HoursSince(stamp, later)
  {
  }

  lemma AdmitsNoWorse(s: Status, than: Status, pending: nat, rc: ReputationConstants)
    requires NoWorse(s, than) && Admits(than, pending, rc)
    ensures Admits(s, pending, rc)
  {
  }

  /** Time alone never turns an admitted operation into a refused one. */
  lemma TimeNeverRefuses(db: Counts, op: AiOperation, pso: nat, pfo: nat, ppo: nat, now: int, later: int,
                         rc: ReputationConstants)
    requires rc.minInclusionRateDenominator >= 1 && now <= later
    requires AdmitsAll(db, op, pso, pfo, ppo, now, rc)
    ensures AdmitsAll(db, op, pso, pfo, ppo, later, rc)
  {
    var factory, paymaster := GetFactory(op), GetPaymaster(op);
    TimeNeverWorsens(db, op.sender, now, later, rc);
    TimeNeverWorsens(db, factory, now, later, rc);
    TimeNeverWorsens(db, paymaster, now, later, rc);
    hide StatusOfEntry, EntryAt, GetFactory, GetPaymaster, ZeroAddress, NoWorse, Admits;
    AdmitsNoWorse(StatusAt(db, op.sender, later, rc), StatusAt(db, op.sender, now, rc), pso, rc);
    if factory != ZeroAddress() {
      AdmitsNoWorse(StatusAt(db, factory, later, rc), StatusAt(db, factory, now, rc), pfo, rc);
    }
    if paymaster != ZeroAddress() {
      AdmitsNoWorse(StatusAt(db, paymaster, later, rc), StatusAt(db, paymaster, now, rc), ppo, rc);
    }
  }

  /** So a submission that names a banned entity is never accepted. */
  lemma BannedIsNeverAccepted(ctx: AiOpHandlerCtx, db: Counts, a: Answers, rc: ReputationConstants, entity: Address)
    requires rc.minInclusionRateDenominator >= 1
    requires Roles(ctx.op, entity) > 0 && StatusAt(db, entity, a.now, rc) == Banned
    ensures !Accepts(ctx, VerdictsOf(ctx, db, a, rc), rc)
  {
    hide StatusAt, Roles, AdmitsAll, PassesOpLimit, PassesInitCode, StakesKnown;
    BannedIsRefused(db, ctx.op, entity, |ctx.pendingSenderOps|, |ctx.pendingFactoryOps|, |ctx.pendingPaymasterOps|,
                    a.now, rc);
  }

  /** And one that names a throttled entity is accepted only while the number of operations pending for that
      entity is not its limit, whichever role the entity has. */
  lemma ThrottledIsAcceptedOffLimit(pools: Pools, m: Address, op: AiOperation, db: Counts, a: Answers,
                                    rc: ReputationConstants, entity: Address)
    requires rc.minInclusionRateDenominator >= 1
    requires Roles(op, entity) > 0 && StatusAt(db, entity, a.now, rc) == Throttled
    requires Accepts(Context(pools, m, op), VerdictsOf(Context(pools, m, op), db, a, rc), rc)
    ensures |OpsOf(pools, m, entity)| != rc.throttledEntityMempoolCount
  {
    hide StatusOfEntry, EntryAt, OpsOf, GetFactory, GetPaymaster, ZeroAddress, PassesOpLimit, PassesInitCode,
         StakesKnown;
  }

  /** An accepted submission has the stake of each of its addresses looked up, and one without stake is off
      the limit of its role. */
  lemma UnstakedIsAcceptedOffLimit(pools: Pools, m: Address, op: AiOperation, db: Counts, a: Answers,
                                   rc: ReputationConstants)
    requires rc.minInclusionRateDenominator >= 1
    requires Accepts(Context(pools, m, op), VerdictsOf(Context(pools, m, op), db, a, rc), rc)
    ensures var factory, paymaster := GetFactory(op), GetPaymaster(op);
            && a.stakes(op.sender).Some? && a.stakes(factory).Some? && a.stakes(paymaster).Some?
            && (!a.stakes(op.sender).value ==> |OpsOf(pools, m, op.sender)| != rc.sameSenderMempoolCount)
            && (factory != ZeroAddress() && !a.stakes(factory).value ==>
                  |OpsOf(pools, m, factory)| != rc.sameUnstakedEntityMempoolCount)
            && (paymaster != ZeroAddress() && !a.stakes(paymaster).value ==>
                  |OpsOf(pools, m, paymaster)| != rc.sameUnstakedEntityMempoolCount)
  {
    hide StatusOfEntry, EntryAt, OpsOf, GetFactory, GetPaymaster, ZeroAddress, AdmitsAll, PassesInitCode;
  }
}
