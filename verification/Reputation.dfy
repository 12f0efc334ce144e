/** Reputation counters and status of pkg/modules/entities: counts that decay by a 24th each hour,
    and a status read off them. */
module Reputation {
  import opened Text
  import opened AiOp
  import opened Arithmetic

  const EMA_HOURS: nat := 24
  const SECONDS_PER_HOUR: nat := 3600

  /** What is stored for an entity; `stamp` is the second it was last read or written. */
  datatype Entry = Entry(opsSeen: nat, opsIncluded: nat, stamp: int)

  datatype ReputationConstants = ReputationConstants(
    minInclusionRateDenominator: nat,
    throttlingSlack: nat,
    banSlack: nat,
    throttledEntityMempoolCount: int,
    sameSenderMempoolCount: int,
    sameUnstakedEntityMempoolCount: int)

  datatype Status = Ok | Throttled | Banned

  // ---------------------------------------------------------------- decay

  function DecayOnce(x: nat): nat {
    x - x / EMA_HOURS
  }

  function Decay(x: nat, hours: nat): nat
    decreases hours
  {
    if hours == 0 then x else Decay(DecayOnce(x), hours - 1)
  }

  /** Whole hours since `stamp`; none if the clock is behind it. */
  function HoursSince(stamp: int, now: int): nat {
    if now < stamp then 0 else (now - stamp) / SECONDS_PER_HOUR
  }

  function Decayed(e: Entry, now: int): Entry {
    var h := HoursSince(e.stamp, now);
    Entry(Decay(e.opsSeen, h), Decay(e.opsIncluded, h), now)
  }

  lemma {:induction false} SmallCountsStay(x: nat, hours: nat)
    requires x < EMA_HOURS
    ensures Decay(x, hours) == x
    decreases hours
  {
    if hours > 0 {
      SmallCountsStay(x, hours - 1);
    }
  }

  /** The loop that stops once both counters are small is the decay over all the hours. */
  method ApplyExpWeights(seen: nat, included: nat, hours: nat) returns (opsSeen: nat, opsIncluded: nat)
    ensures opsSeen == Decay(seen, hours) && opsIncluded == Decay(included, hours)
  {
    opsSeen, opsIncluded := seen, included;
    var i := hours;
    while i > 0
      invariant 0 <= i <= hours
      invariant Decay(opsSeen, i) == Decay(seen, hours)
      invariant Decay(opsIncluded, i) == Decay(included, hours)
    {
      if opsSeen < 24 && opsIncluded < 24 {
        SmallCountsStay(opsSeen, i);
        SmallCountsStay(opsIncluded, i);
        break;
      }
      opsSeen := opsSeen - opsSeen / EMA_HOURS;
      opsIncluded := opsIncluded - opsIncluded / EMA_HOURS;
      i := i - 1;
    }
  }

  lemma DecayOnceMonotone(x: nat, y: nat)
    requires x <= y
    ensures DecayOnce(x) <= DecayOnce(y)
  {
  }

  /** Decay keeps the order of counts; so operations included stay at most operations seen. */
  lemma {:induction false} DecayMonotone(x: nat, y: nat, hours: nat)
    requires x <= y
    ensures Decay(x, hours) <= Decay(y, hours) <= y
    decreases hours
  {
    if hours > 0 {
      DecayOnceMonotone(x, y);
      DecayMonotone(DecayOnce(x), DecayOnce(y), hours - 1);
    }
  }

  /** Whole-hour decays compose exactly. */
  lemma {:induction false} DecayComposes(x: nat, a: nat, b: nat)
    ensures Decay(Decay(x, a), b) == Decay(x, a + b)
    decreases a
  {
    if a > 0 {
      DecayComposes(DecayOnce(x), a - 1, b);
    }
  }

  lemma OneHourBound(x: nat)
    requires x >= 23
    ensures DecayOnce(x) >= 23 && 24 * (DecayOnce(x) - 23) <= 23 * (x - 23)
  {
  }

  lemma ScaleDown(a: nat, b: nat, x: int, y: int, z: int)
    requires a * z <= b * y && 24 * y <= 23 * x
    ensures (24 * a) * z <= (23 * b) * x
  {
    assert b * (24 * y) <= b * (23 * x);
    assert (24 * a) * z == 24 * (a * z);
    assert b * (24 * y) == 24 * (b * y);
    assert (23 * b) * x == b * (23 * x);
  }

  /** A count above 23 approaches 23 at least as fast as (23/24)^h. */
  lemma {:induction false} DecayBound(x: nat, hours: nat)
    requires x >= 23
    ensures Decay(x, hours) >= 23
    ensures Pow(24, hours) * (Decay(x, hours) - 23) <= Pow(23, hours) * (x - 23)
    decreases hours
  {
    if hours > 0 {
      OneHourBound(x);
      DecayBound(DecayOnce(x), hours - 1);
      hide DecayOnce;
      ScaleDown(Pow(24, hours - 1), Pow(23, hours - 1), x - 23, DecayOnce(x) - 23, Decay(x, hours) - 23);
    }
  }

  // ---------------------------------------------------------------- reading more often

  function ReadAt(e: Entry, times: seq<int>): Entry
    decreases |times|
  {
    if times == [] then e else ReadAt(Decayed(e, times[0]), times[1..])
  }

  /** The hours that count when an entry is read, and restamped, at each of the times. */
  function HoursCounted(stamp: int, times: seq<int>): nat
    decreases |times|
  {
    if times == [] then 0 else HoursSince(stamp, times[0]) + HoursCounted(times[0], times[1..])
  }

  lemma {:induction false} ReadsCountHours(e: Entry, times: seq<int>)
    ensures ReadAt(e, times).opsSeen == Decay(e.opsSeen, HoursCounted(e.stamp, times))
    ensures ReadAt(e, times).opsIncluded == Decay(e.opsIncluded, HoursCounted(e.stamp, times))
    decreases |times|
  {
    hide Decay, HoursSince;
    if times == [] {
      DecayNothing(e.opsSeen);
      DecayNothing(e.opsIncluded);
    } else {
      ReadsCountHours(Decayed(e, times[0]), times[1..]);
      DecayComposes(e.opsSeen, HoursSince(e.stamp, times[0]), HoursCounted(times[0], times[1..]));
      DecayComposes(e.opsIncluded, HoursSince(e.stamp, times[0]), HoursCounted(times[0], times[1..]));
    }
  }

  lemma DecayNothing(x: nat)
    ensures Decay(x, 0) == x
  {
  }

  /** `fewer` leaves out some of the times, but not the last one. */
  predicate Thinned(fewer: seq<int>, more: seq<int>)
    decreases |more|
  {
    if more == [] then fewer == []
    else
      || (fewer != [] && fewer[0] == more[0] && Thinned(fewer[1..], more[1..]))
      || (|more| > 1 && Thinned(fewer, more[1..]))
  }

  predicate Ascending(stamp: int, times: seq<int>)
    decreases |times|
  {
    times == [] || (stamp <= times[0] && Ascending(times[0], times[1..]))
  }

  lemma {:induction false} ThinnedFirst(stamp: int, fewer: seq<int>, more: seq<int>)
    requires Thinned(fewer, more) && more != [] && Ascending(stamp, more)
    ensures fewer != [] && stamp <= fewer[0]
    decreases |more|
  {
    if !(fewer != [] && fewer[0] == more[0]) {
      ThinnedFirst(more[0], fewer, more[1..]);
    }
  }

  lemma {:induction false} FewerReadsCountMoreHours(stamp: int, fewer: seq<int>, more: seq<int>)
    requires Thinned(fewer, more) && Ascending(stamp, more)
    ensures HoursCounted(stamp, fewer) >= HoursCounted(stamp, more)
    decreases |more|
  {
    if more != [] {
      ThinnedFirst(stamp, fewer, more);
      if fewer[0] == more[0] && Thinned(fewer[1..], more[1..]) {
        FewerReadsCountMoreHours(more[0], fewer[1..], more[1..]);
      } else {
        ThinnedFirst(more[0], fewer, more[1..]);
        FewerReadsCountMoreHours(more[0], fewer, more[1..]);
        SplitHours(stamp, more[0], fewer[0]);
      }
    }
  }

  /** Splitting a stretch of time can only lose a part of an hour. */
  lemma SplitHours(a: int, b: int, c: int)
    requires a <= b <= c
    ensures HoursSince(a, b) + HoursSince(b, c) <= HoursSince(a, c)
  {
  }

  /** Reading more often, each time restamping the entry, never leaves its counters lower. */
  lemma ExtraReadsNeverLower(e: Entry, fewer: seq<int>, more: seq<int>)
    requires Thinned(fewer, more) && Ascending(e.stamp, more)
    ensures ReadAt(e, more).opsSeen >= ReadAt(e, fewer).opsSeen
    ensures ReadAt(e, more).opsIncluded >= ReadAt(e, fewer).opsIncluded
  {
    hide Decay, Thinned, Ascending, ReadAt, HoursCounted;
    ReadsCountHours(e, fewer);
    ReadsCountHours(e, more);
    FewerReadsCountMoreHours(e.stamp, fewer, more);
    var a, b := HoursCounted(e.stamp, more), HoursCounted(e.stamp, fewer);
    DecayComposes(e.opsSeen, a, b - a);
    DecayComposes(e.opsIncluded, a, b - a);
    DecayMonotone(Decay(e.opsSeen, a), Decay(e.opsSeen, a), b - a);
    DecayMonotone(Decay(e.opsIncluded, a), Decay(e.opsIncluded, a), b - a);
  }

  // ---------------------------------------------------------------- status

  /** The operations seen call for no more than the operations included plus a slack. */
  predicate Within(seen: nat, included: nat, slack: nat, denominator: nat)
    requires denominator >= 1
  {
    seen / denominator <= included + slack
  }

  function StatusOf(seen: nat, included: nat, rc: ReputationConstants): Status
    requires rc.minInclusionRateDenominator >= 1
  {
    if seen == 0 then Ok
    else if Within(seen, included, rc.throttlingSlack, rc.minInclusionRateDenominator) then Ok
    else if Within(seen, included, rc.banSlack, rc.minInclusionRateDenominator) then Throttled
    else Banned
  }

  lemma DivideBlocks(seen: nat, d: nat)
    requires d >= 1
    ensures seen / 24 >= d * (seen / d / 24)
  {
    var q := seen / d;
    var b := q / 24;
    assert d * q <= seen;
    assert d * (24 * b) <= d * q;
    assert d * (24 * b) == 24 * (d * b);
  }

  lemma SubtractBlocks(seen: nat, d: nat, b: nat, less: nat)
    requires d >= 1 && d * b <= less <= seen
    ensures (seen - less) / d <= seen / d - b
  {
    var q := (seen - less) / d;
    assert d * q <= seen - less;
    assert d * (q + b) == d * q + d * b;
    assert d * (q + b) <= seen;
    DivideAtLeast(seen, d, q + b);
  }

  /** One hour of decay keeps an entity within any slack it was within. */
  lemma OneHourKeepsWithin(seen: nat, included: nat, slack: nat, d: nat)
    requires d >= 1 && Within(seen, included, slack, d)
    ensures Within(DecayOnce(seen), DecayOnce(included), slack, d)
  {
    var q := seen / d;
    DivideBlocks(seen, d);
    SubtractBlocks(seen, d, q / 24, seen / 24);
    DecayOnceMonotone(q, included + slack);
    assert DecayOnce(included + slack) <= DecayOnce(included) + slack;
  }

  /** Any number of hours does. */
  lemma {:induction false} DecayKeepsWithin(seen: nat, included: nat, slack: nat, d: nat, hours: nat)
    requires d >= 1 && Within(seen, included, slack, d)
    ensures Within(Decay(seen, hours), Decay(included, hours), slack, d)
    decreases hours
  {
    hide Within, DecayOnce;
    if hours > 0 {
      OneHourKeepsWithin(seen, included, slack, d);
      DecayKeepsWithin(DecayOnce(seen), DecayOnce(included), slack, d, hours - 1);
    }
  }

  predicate NoWorse(s: Status, than: Status) {
    s.Ok? || than.Banned? || (s.Throttled? && than.Throttled?)
  }

  /** Time never worsens a status. */
  lemma DecayNeverWorsens(seen: nat, included: nat, hours: nat, rc: ReputationConstants)
    requires rc.minInclusionRateDenominator >= 1
    ensures NoWorse(StatusOf(Decay(seen, hours), Decay(included, hours), rc), StatusOf(seen, included, rc))
  {
    var d := rc.minInclusionRateDenominator;
    if seen == 0 {
      SmallCountsStay(seen, hours);
    } else {
      hide Within;
      if Within(seen, included, rc.throttlingSlack, d) {
        DecayKeepsWithin(seen, included, rc.throttlingSlack, d, hours);
      }
      if Within(seen, included, rc.banSlack, d) {
        DecayKeepsWithin(seen, included, rc.banSlack, d, hours);
      }
    }
  }

  lemma MoreIncludedNeverWorsens(seen: nat, included: nat, n: nat, rc: ReputationConstants)
    requires rc.minInclusionRateDenominator >= 1
    ensures NoWorse(StatusOf(seen, included + n, rc), StatusOf(seen, included, rc))
  {
  }

  lemma OneMoreSeen(seen: nat, d: nat)
    requires d >= 1
    ensures (seen + 1) / d <= seen / d + 1
  {
    var q := (seen + 1) / d;
    assert d * q <= seen + 1;
    if q >= 1 {
      assert d * (q - 1) == d * q - d;
      DivideAtLeast(seen, d, q - 1);
    }
  }

  /** With a ban slack above the throttling slack, no single decay or increment bans an entity that
      is in good standing. */
  lemma NoStepFromOkToBanned(seen: nat, included: nat, hours: nat, n: nat, rc: ReputationConstants)
    requires rc.minInclusionRateDenominator >= 1 && rc.banSlack > rc.throttlingSlack
    requires StatusOf(seen, included, rc).Ok?
    ensures StatusOf(Decay(seen, hours), Decay(included, hours), rc).Ok?
    ensures StatusOf(seen, included + n, rc).Ok?
    ensures !StatusOf(seen + 1, included, rc).Banned?
  {
    DecayNeverWorsens(seen, included, hours, rc);
    MoreIncludedNeverWorsens(seen, included, n, rc);
    OneMoreSeen(seen, rc.minInclusionRateDenominator);
    hide Decay;
    if seen == 0 {
      DivideZero(rc.minInclusionRateDenominator);
    }
  }

  lemma DivideZero(d: nat)
    requires d >= 1
    ensures 0 / d == 0
  {
  }

  /** With a ban slack no larger than the throttling slack, one more operation can ban outright. */
  lemma SmallBanSlackBans(rc: ReputationConstants)
    requires rc.minInclusionRateDenominator >= 1 && rc.banSlack <= rc.throttlingSlack
    ensures var seen: nat := rc.minInclusionRateDenominator * (rc.throttlingSlack + 1) - 1;
            StatusOf(seen, 0, rc).Ok? && StatusOf(seen + 1, 0, rc).Banned?
  {
    var d, q := rc.minInclusionRateDenominator, rc.throttlingSlack + 1;
    DivideAtLeast(d * q, d, q);
    DivideBelow(d * q - 1, d, q);
  }

  /** Being seen in one more operation never takes an entity from ok straight to banned if and only
      if the ban slack is above the throttling slack. */
  lemma OneMoreSeenNeverBansIff(rc: ReputationConstants)
    requires rc.minInclusionRateDenominator >= 1
    ensures (forall seen: nat, included: nat | StatusOf(seen, included, rc).Ok? ::
               !StatusOf(seen + 1, included, rc).Banned?)
            <==> rc.banSlack > rc.throttlingSlack
  {
    hide StatusOf;
    if rc.banSlack > rc.throttlingSlack {
      forall seen: nat, included: nat | StatusOf(seen, included, rc).Ok?
        ensures !StatusOf(seen + 1, included, rc).Banned?
      {
        NoStepFromOkToBanned(seen, included, 0, 0, rc);
      }
    } else {
      SmallBanSlackBans(rc);
    }
  }

  // ---------------------------------------------------------------- over any history

  datatype RepEvent = Read(now: int) | Seen(now: int) | Included(n: nat, now: int)

  function AfterEvent(e: Entry, ev: RepEvent): Entry {
    match ev
    case Read(now) => Decayed(e, now)
    case Seen(now) => var d := Decayed(e, now); d.(opsSeen := d.opsSeen + 1)
    case Included(n, now) => var d := Decayed(e, now); d.(opsIncluded := d.opsIncluded + n)
  }

  function AfterEvents(e: Entry, evs: seq<RepEvent>): Entry
    decreases |evs|
  {
    if evs == [] then e else AfterEvents(AfterEvent(e, evs[0]), evs[1..])
  }

  function StatusOfEntry(e: Entry, rc: ReputationConstants): Status
    requires rc.minInclusionRateDenominator >= 1
  {
    StatusOf(e.opsSeen, e.opsIncluded, rc)
  }

  lemma NoWorseTrans(a: Status, b: Status, c: Status)
    requires NoWorse(a, b) && NoWorse(b, c)
    ensures NoWorse(a, c)
  {
  }

  /** Over any history, only being seen in a new operation can worsen an entity's status. */
  lemma {:induction false} OnlySeenWorsens(e: Entry, evs: seq<RepEvent>, rc: ReputationConstants)
    requires rc.minInclusionRateDenominator >= 1
    requires forall ev | ev in evs :: !ev.Seen?
    ensures NoWorse(StatusOfEntry(AfterEvents(e, evs), rc), StatusOfEntry(e, rc))
    decreases |evs|
  {
    hide StatusOf, Decay, HoursSince, NoWorse;
    if evs == [] {
      SameIsNoWorse(StatusOfEntry(e, rc));
    } else {
      var next := AfterEvent(e, evs[0]);
      var d := Decayed(e, evs[0].now);
      assert evs[0] in evs;
      DecayNeverWorsens(e.opsSeen, e.opsIncluded, HoursSince(e.stamp, evs[0].now), rc);
      if evs[0].Included? {
        MoreIncludedNeverWorsens(d.opsSeen, d.opsIncluded, evs[0].n, rc);
        NoWorseTrans(StatusOfEntry(next, rc), StatusOfEntry(d, rc), StatusOfEntry(e, rc));
      }
      OnlySeenWorsens(next, evs[1..], rc);
      NoWorseTrans(StatusOfEntry(AfterEvents(e, evs), rc), StatusOfEntry(next, rc), StatusOfEntry(e, rc));
    }
  }

  lemma SameIsNoWorse(s: Status)
    ensures NoWorse(s, s)
  {
  }

  // ---------------------------------------------------------------- the store

  type Counts = map<Address, Entry>

  /** The counters as they are now; an unknown entity has none and is not written. */
  function Refreshed(db: Counts, entity: Address, now: int): Counts {
    if entity in db then db[entity := Decayed(db[entity], now)] else db
  }

  function EntryAt(db: Counts, entity: Address, now: int): Entry {
    if entity in db then Decayed(db[entity], now) else Entry(0, 0, now)
  }

  function SeenOnceMore(db: Counts, entity: Address, now: int): Counts {
    var e := EntryAt(db, entity, now);
    db[entity := e.(opsSeen := e.opsSeen + 1)]
  }

  /** The entities of an operation: its sender, its factory and paymaster unless zero. */
  function Roles(op: AiOperation, a: Address): nat {
    (if op.sender == a then 1 else 0)
    + (if GetFactory(op) != ZeroAddress() && GetFactory(op) == a then 1 else 0)
    + (if GetPaymaster(op) != ZeroAddress() && GetPaymaster(op) == a then 1 else 0)
  }

  /** How often an address is an entity of a batch's operations. */
  function RoleCount(batch: seq<AiOperation>, a: Address): nat {
    if batch == [] then 0 else RoleCount(batch[..|batch| - 1], a) + Roles(batch[|batch| - 1], a)
  }

  /** A bundle's effect: each entity of its operations gains as many inclusions as it has roles. */
  ghost predicate CountsIncluded(before: Counts, after: Counts, batch: seq<AiOperation>, now: int) {
    forall a: Address ::
      if RoleCount(batch, a) == 0 then
        (a in after <==> a in before) && (a in before && a in after ==> after[a] == before[a])
      else
        var e := EntryAt(before, a, now);
        a in after && after[a] == e.(opsIncluded := e.opsIncluded + RoleCount(batch, a))
  }

  /** The entities in `done`, and only they, have gained their count. */
  ghost predicate Credited(before: Counts, after: Counts, count: map<Address, nat>, done: set<Address>, now: int) {
    && done <= count.Keys
    && after.Keys == before.Keys + done
    && (forall a | a in done && a in after && a in count ::
          after[a] == EntryAt(before, a, now).(opsIncluded := EntryAt(before, a, now).opsIncluded + count[a]))
    && forall a | a in before && a !in done && a in after :: after[a] == before[a]
  }

  lemma NothingCredited(db: Counts, count: map<Address, nat>, now: int)
    ensures Credited(db, db, count, {}, now)
  {
  }

  lemma CreditOne(before: Counts, db: Counts, count: map<Address, nat>, done: set<Address>, entity: Address, now: int)
    requires Credited(before, db, count, done, now) && entity in count && entity !in done
    ensures var e := EntryAt(db, entity, now);
            var after := Refreshed(db, entity, now)[entity := Entry(e.opsSeen, e.opsIncluded + count[entity], now)];
            Credited(before, after, count, done + {entity}, now)
  {
    hide Decayed;
    StampIsNow(db, entity, now);
    assert EntryAt(before, entity, now) == EntryAt(db, entity, now);
  }

  function CountOf(c: map<Address, nat>, a: Address): nat {
    if a in c then c[a] else 0
  }

  function Bump(c: map<Address, nat>, a: Address): map<Address, nat> {
    c[a := CountOf(c, a) + 1]
  }

  /** The counters hold every address's roles in a batch, and no zeros. */
  ghost predicate Tallies(c: map<Address, nat>, batch: seq<AiOperation>) {
    && (forall a: Address :: CountOf(c, a) == RoleCount(batch, a))
    && NoZeros(c)
  }

  ghost predicate NoZeros(c: map<Address, nat>) {
    forall a | a in c :: c[a] > 0
  }

  lemma BumpCounts(c: map<Address, nat>, a: Address)
    requires NoZeros(c)
    ensures NoZeros(Bump(c, a))
    ensures forall x :: CountOf(Bump(c, a), x) == CountOf(c, x) + if x == a then 1 else 0
  {
  }

  lemma TallyOne(c: map<Address, nat>, batch: seq<AiOperation>, op: AiOperation)
    requires Tallies(c, batch)
    ensures var c1 := Bump(c, op.sender);
            var c2 := if GetFactory(op) == ZeroAddress() then c1 else Bump(c1, GetFactory(op));
            var c3 := if GetPaymaster(op) == ZeroAddress() then c2 else Bump(c2, GetPaymaster(op));
            Tallies(c3, batch + [op])
  {
    hide GetFactory, GetPaymaster, ZeroAddress, CountOf, Bump, NoZeros;
    var c1 := Bump(c, op.sender);
    var c2 := if GetFactory(op) == ZeroAddress() then c1 else Bump(c1, GetFactory(op));
    BumpCounts(c, op.sender);
    BumpCounts(c1, GetFactory(op));
    BumpCounts(c2, GetPaymaster(op));
    RoleCountOneMore(batch, op);
  }

  lemma RoleCountOneMore(batch: seq<AiOperation>, op: AiOperation)
    ensures forall a: Address :: RoleCount(batch + [op], a) == RoleCount(batch, a) + Roles(op, a)
  {
    hide Roles;
    assert (batch + [op])[..|batch|] == batch;
  }

  lemma TalliesCredited(before: Counts, after: Counts, c: map<Address, nat>, batch: seq<AiOperation>, now: int)
    requires Tallies(c, batch) && Credited(before, after, c, c.Keys, now)
    ensures CountsIncluded(before, after, batch, now)
  {
    hide RoleCount, EntryAt;
    forall a: Address ensures a in c <==> RoleCount(batch, a) != 0 {
      assert CountOf(c, a) == RoleCount(batch, a);
    }
  }

  lemma NothingTallied(batch: seq<AiOperation>)
    ensures Tallies(map[], batch[..0]) && batch[..|batch|] == batch
  {
  }

  method CountRoles(batch: seq<AiOperation>) returns (c: map<Address, nat>)
    ensures Tallies(c, batch)
  {
    hide *;
    NothingTallied(batch);
    c := map[];
    var i := 0;
    while i < |batch|
      invariant 0 <= i <= |batch|
      invariant Tallies(c, batch[..i])
    {
      TallyOne(c, batch[..i], batch[i]);
      assert batch[..i + 1] == batch[..i] + [batch[i]];
      var op := batch[i];
      c := Bump(c, op.sender);
      var factory := GetFactory(op);
      if factory != ZeroAddress() {
        c := Bump(c, factory);
      }
      var paymaster := GetPaymaster(op);
      if paymaster != ZeroAddress() {
        c := Bump(c, paymaster);
      }
      i := i + 1;
    }
  }

  /** Banned entities are refused, throttled ones only at exactly their number of pending operations. */
  predicate Admits(s: Status, pending: nat, rc: ReputationConstants) {
    s != Banned && (s == Throttled ==> pending != rc.throttledEntityMempoolCount)
  }

  /** Every entity of an operation is admitted by what its counters are now. */
  predicate AdmitsAll(db: Counts, op: AiOperation, pso: nat, pfo: nat, ppo: nat, now: int, rc: ReputationConstants)
    requires rc.minInclusionRateDenominator >= 1
  {
    var factory, paymaster := GetFactory(op), GetPaymaster(op);
    && Admits(StatusOfEntry(EntryAt(db, op.sender, now), rc), pso, rc)
    && (factory == ZeroAddress() || Admits(StatusOfEntry(EntryAt(db, factory, now), rc), pfo, rc))
    && (paymaster == ZeroAddress() || Admits(StatusOfEntry(EntryAt(db, paymaster, now), rc), ppo, rc))
  }

  class ReputationStore {
    var db: Counts
    const repConst: ReputationConstants

    constructor (repConst: ReputationConstants)
      ensures db == map[] && this.repConst == repConst
    {
      this.repConst := repConst;
      db := map[];
    }

    method GetOpsCountByEntity(entity: Address, now: int) returns (opsSeen: nat, opsIncluded: nat)
      modifies this
      ensures db == Refreshed(old(db), entity, now)
      ensures opsSeen == EntryAt(old(db), entity, now).opsSeen
      ensures opsIncluded == EntryAt(old(db), entity, now).opsIncluded
    {
      if entity !in db {
        return 0, 0;
      }
      var e := db[entity];
      opsSeen, opsIncluded := ApplyExpWeights(e.opsSeen, e.opsIncluded, HoursSince(e.stamp, now));
      db := db[entity := Entry(opsSeen, opsIncluded, now)];
    }

    method IncrementOpsSeenByEntity(entity: Address, now: int)
      modifies this
      ensures db == SeenOnceMore(old(db), entity, now)
    {
      hide Decayed;
      var opsSeen, opsIncluded := GetOpsCountByEntity(entity, now);
      assert EntryAt(old(db), entity, now).stamp == now by { StampIsNow(old(db), entity, now); }
      db := db[entity := Entry(opsSeen + 1, opsIncluded, now)];
    }

    method CreditEntity(entity: Address, n: nat, now: int)
      modifies this
      ensures var e := EntryAt(old(db), entity, now);
              db == Refreshed(old(db), entity, now)[entity := Entry(e.opsSeen, e.opsIncluded + n, now)]
    {
      var opsSeen, opsIncluded := GetOpsCountByEntity(entity, now);
      db := db[entity := Entry(opsSeen, opsIncluded + n, now)];
    }

    /** Entities are visited in any order; each is counted once. */
    method IncrementOpsIncludedByEntity(count: map<Address, nat>, now: int)
      modifies this
      ensures Credited(old(db), db, count, count.Keys, now)
    {
      NothingCredited(db, count, now);
      hide Credited, EntryAt, Refreshed;
      var rest := count.Keys;
      ghost var done: set<Address> := {};
      while rest != {}
        invariant done !! rest && done + rest == count.Keys
        invariant Credited(old(db), db, count, done, now)
        decreases rest
      {
        var entity :| entity in rest;
        CreditOne(old(db), db, count, done, entity, now);
        CreditEntity(entity, count[entity], now);
        rest := rest - {entity};
        done := done + {entity};
      }
      assert done == count.Keys;
    }

    method GetStatus(entity: Address, now: int) returns (s: Status)
      requires repConst.minInclusionRateDenominator >= 1
      modifies this
      ensures db == Refreshed(old(db), entity, now)
      ensures s == StatusOfEntry(EntryAt(old(db), entity, now), repConst)
    {
      hide Decayed;
      var opsSeen, opsIncluded := GetOpsCountByEntity(entity, now);
      if opsSeen == 0 {
        return Ok;
      }
      var minExpectedIncluded := opsSeen / repConst.minInclusionRateDenominator;
      if minExpectedIncluded <= opsIncluded + repConst.throttlingSlack {
        return Ok;
      } else if minExpectedIncluded <= opsIncluded + repConst.banSlack {
        return Throttled;
      } else {
        return Banned;
      }
    }

    /** `pso`, `pfo` and `ppo` count the pending operations of the sender, factory and paymaster. A
        refusal aborts the transaction that the reads are part of. */
    method CheckStatus(op: AiOperation, pso: nat, pfo: nat, ppo: nat, now: int) returns (ok: bool)
      requires repConst.minInclusionRateDenominator >= 1
      modifies this
      ensures ok <==> AdmitsAll(old(db), op, pso, pfo, ppo, now, repConst)
      ensures !ok ==> db == old(db)
      ensures forall a :: EntryAt(db, a, now) == EntryAt(old(db), a, now)
    {
      hide EntryAt, Refreshed, StatusOfEntry, GetFactory, GetPaymaster, ZeroAddress;
      var before := db;
      ReadingChangesNothing(db, op.sender, now);
      var status := GetStatus(op.sender, now);
      if !Admits(status, pso, repConst) {
        db := before;
        return false;
      }
      var factory := GetFactory(op);
      if factory != ZeroAddress() {
        ReadingChangesNothing(db, factory, now);
        status := GetStatus(factory, now);
        if !Admits(status, pfo, repConst) {
          db := before;
          return false;
        }
      }
      var paymaster := GetPaymaster(op);
      if paymaster != ZeroAddress() {
        ReadingChangesNothing(db, paymaster, now);
        status := GetStatus(paymaster, now);
        if !Admits(status, ppo, repConst) {
          db := before;
          return false;
        }
      }
      return true;
    }

    /** Counts the roles of every address in the batch, then adds them up in the store. */
    method IncOpsIncluded(batch: seq<AiOperation>, now: int)
      modifies this
      ensures CountsIncluded(old(db), db, batch, now)
    {
      hide *;
      var c := CountRoles(batch);
      IncrementOpsIncludedByEntity(c, now);
      TalliesCredited(old(db), db, c, batch, now);
    }

    /** A submission: every entity is seen once more in each of its roles. */
    method IncOpsSeen(op: AiOperation, now: int)
      modifies this
      ensures db == AllSeen(old(db), op, now)
    {
      hide SeenOnceMore, GetFactory, GetPaymaster, ZeroAddress;
      IncrementOpsSeenByEntity(op.sender, now);
      var factory := GetFactory(op);
      if factory != ZeroAddress() {
        IncrementOpsSeenByEntity(factory, now);
      }
      var paymaster := GetPaymaster(op);
      if paymaster != ZeroAddress() {
        IncrementOpsSeenByEntity(paymaster, now);
      }
    }
  }

  lemma SeeingOne(db: Counts, entity: Address, now: int, a: Address)
    ensures EntryAt(SeenOnceMore(db, entity, now), a, now)
            == (var e := EntryAt(db, a, now); if a == entity then e.(opsSeen := e.opsSeen + 1) else e)
  {
    var e := EntryAt(db, entity, now);
    StampIsNow(db, entity, now);
    DecayNothing(e.opsSeen + 1);
    DecayNothing(e.opsIncluded);
    assert HoursSince(now, now) == 0;
  }

  /** The counters after every entity of an operation has been seen. */
  function AllSeen(db: Counts, op: AiOperation, now: int): Counts {
    var d1 := SeenOnceMore(db, op.sender, now);
    var d2 := if GetFactory(op) == ZeroAddress() then d1 else SeenOnceMore(d1, GetFactory(op), now);
    if GetPaymaster(op) == ZeroAddress() then d2 else SeenOnceMore(d2, GetPaymaster(op), now)
  }

  /** An address is seen once for each role it plays, and no other counter changes. */
  lemma SeenInEveryRole(db: Counts, op: AiOperation, now: int, a: Address)
    ensures var e := EntryAt(db, a, now);
            EntryAt(AllSeen(db, op, now), a, now) == e.(opsSeen := e.opsSeen + Roles(op, a))
  {
    hide EntryAt, SeenOnceMore, GetFactory, GetPaymaster, ZeroAddress;
    var d1 := SeenOnceMore(db, op.sender, now);
    var d2 := if GetFactory(op) == ZeroAddress() then d1 else SeenOnceMore(d1, GetFactory(op), now);
    SeeingOne(db, op.sender, now, a);
    SeeingOne(d1, GetFactory(op), now, a);
    SeeingOne(d2, GetPaymaster(op), now, a);
  }

  /** Reading a counter again at the same time gives the same; other counters are not touched. */
  lemma ReadingChangesNothing(db: Counts, entity: Address, now: int)
    ensures forall a :: EntryAt(Refreshed(db, entity, now), a, now) == EntryAt(db, a, now)
  {
    if entity in db {
      var e := db[entity];
      assert HoursSince(now, now) == 0;
      assert Decayed(Decayed(e, now), now) == Decayed(e, now);
    }
    hide Decayed;
  }

  lemma StampIsNow(db: Counts, entity: Address, now: int)
    ensures EntryAt(db, entity, now).stamp == now
  {
  }
}
