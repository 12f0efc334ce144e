/** The expiry module of pkg/modules/expire/expire.go, which remembers across runs when it first saw
    an operation. */
module Expire {
  import opened Text
  import opened AiOp
  import opened BatchContext

  type Hash = seq<byte>
  type Hasher = AiOperation -> Hash
  type SeenAt = map<Hash, int>

  /** What is remembered after the positions `i` and up of a batch, from the last one down;
      `clock[j]` is what the clock says when position j is reached. */
  function SeenDownTo(i: nat, batch: seq<AiOperation>, clock: seq<int>, hash: Hasher, seen: SeenAt): SeenAt
    requires i <= |batch| == |clock|
    decreases |batch| - i
  {
    if i == |batch| then seen
    else
      var s := SeenDownTo(i + 1, batch, clock, hash, seen);
      var h := hash(batch[i]);
      if h in s then s else s[h := clock[i]]
  }

  /** Seen before this position, and longer ago than the time to live. */
  predicate ExpiredAt(i: nat, batch: seq<AiOperation>, clock: seq<int>, hash: Hasher, seen: SeenAt, ttl: int)
    requires i < |batch| == |clock|
  {
    var s, h := SeenDownTo(i + 1, batch, clock, hash, seen), hash(batch[i]);
    h in s && s[h] + ttl < clock[i]
  }

  function Expired(batch: seq<AiOperation>, clock: seq<int>, hash: Hasher, seen: SeenAt, ttl: int): (drop: seq<bool>)
    requires |batch| == |clock|
    ensures |drop| == |batch|
    ensures forall i | 0 <= i < |batch| :: drop[i] == ExpiredAt(i, batch, clock, hash, seen, ttl)
  {
    seq(|batch|, i requires 0 <= i < |batch| => ExpiredAt(i, batch, clock, hash, seen, ttl))
  }

  const EXPIRED := "op expired"

  class ExpireHandler {
    var seenAt: SeenAt
    const ttl: int

    constructor (ttl: int)
      ensures seenAt == map[] && this.ttl == ttl
    {
      this.ttl := ttl;
      seenAt := map[];
    }

    /** The batch keeps exactly what has not expired, in order; the rest is marked, last one first. */
    method DropExpired(ctx: BatchHandlerCtx, hash: Hasher, clock: seq<int>)
      requires |clock| == |ctx.batch|
      modifies this, ctx
      ensures seenAt == SeenDownTo(0, old(ctx.batch), clock, hash, old(seenAt))
      ensures var drop := Expired(old(ctx.batch), clock, hash, old(seenAt), ttl);
              && ctx.batch == Kept(old(ctx.batch), drop)
              && ctx.pendingRemoval == old(ctx.pendingRemoval) + ItemsBackward(Dropped(old(ctx.batch), drop), EXPIRED)
      ensures Accounts(old(ctx.batch), old(ctx.pendingRemoval), ctx.batch, ctx.pendingRemoval)
    {
      hide WalkedTo, Accounts, Kept, Dropped, ItemsBackward, Expired;
      ghost var batch, items, seen := ctx.batch, ctx.pendingRemoval, seenAt;
      ghost var drop := Expired(batch, clock, hash, seen, ttl);
      WalkStarts(batch, items, drop, EXPIRED);
      var i := |ctx.batch|;
      while i > 0
        invariant 0 <= i <= |batch|
        invariant seenAt == SeenDownTo(i, batch, clock, hash, seen)
        invariant WalkedTo(i, batch, items, drop, EXPIRED, ctx.batch, ctx.pendingRemoval)
        invariant i > 0 ==> i <= |ctx.batch| && ctx.batch[i - 1] == batch[i - 1]
      {
        i := i - 1;
        assert drop[i] == ExpiredAt(i, batch, clock, hash, seen, ttl);
        if drop[i] {
          WalkDrops(i, batch, items, drop, EXPIRED, ctx.batch, ctx.pendingRemoval);
        } else {
          WalkKeeps(i, batch, items, drop, EXPIRED, ctx.batch, ctx.pendingRemoval);
        }
        var h := hash(ctx.batch[i]);
        if h !in seenAt {
          seenAt := seenAt[h := clock[i]];
        } else if seenAt[h] + ttl < clock[i] {
          ctx.MarkOpIndexForRemoval(i, EXPIRED);
        }
        WalkedPrefix(i, batch, items, drop, EXPIRED, ctx.batch, ctx.pendingRemoval);
      }
      WalkEnds(batch, items, drop, EXPIRED, ctx.batch, ctx.pendingRemoval);
    }
  }

  lemma WalkedPrefix(i: nat, batch: seq<AiOperation>, items: seq<PendingRemovalItem>, drop: seq<bool>,
                     reason: string, batch': seq<AiOperation>, items': seq<PendingRemovalItem>)
    requires i <= |batch| == |drop| && WalkedTo(i, batch, items, drop, reason, batch', items')
    ensures i <= |batch'| && batch'[..i] == batch[..i]
  {
  }

  // ---------------------------------------------------------------- across runs

  /** The time an operation was first seen never changes. */
  lemma {:induction false} FirstSeenStays(i: nat, batch: seq<AiOperation>, clock: seq<int>, hash: Hasher,
                                          seen: SeenAt, h: Hash)
    requires i <= |batch| == |clock| && h in seen
    ensures var s := SeenDownTo(i, batch, clock, hash, seen); h in s && s[h] == seen[h]
    decreases |batch| - i
  {
    if i < |batch| {
      FirstSeenStays(i + 1, batch, clock, hash, seen, h);
    }
  }

  datatype BatchRun = BatchRun(batch: seq<AiOperation>, clock: seq<int>)

  function SeenAfter(runs: seq<BatchRun>, hash: Hasher, seen: SeenAt): SeenAt
    requires forall r | r in runs :: |r.batch| == |r.clock|
    decreases |runs|
  {
    if runs == [] then seen
    else SeenAfter(runs[1..], hash, SeenDownTo(0, runs[0].batch, runs[0].clock, hash, seen))
  }

  lemma {:induction false} FirstSeenStaysOverRuns(runs: seq<BatchRun>, hash: Hasher, seen: SeenAt, h: Hash)
    requires forall r | r in runs :: |r.batch| == |r.clock|
    requires h in seen
    ensures var s := SeenAfter(runs, hash, seen); h in s && s[h] == seen[h]
    decreases |runs|
  {
    if runs != [] {
      var first := SeenDownTo(0, runs[0].batch, runs[0].clock, hash, seen);
      FirstSeenStays(0, runs[0].batch, runs[0].clock, hash, seen, h);
      FirstSeenStaysOverRuns(runs[1..], hash, first, h);
    }
  }

  /** An operation whose hash was seen before a run is dropped in it if and only if the time of the
      first sight plus the time to live is strictly past, however many runs lie between. */
  lemma DroppedIffPastFirstSight(before: seq<BatchRun>, run: BatchRun, i: nat, hash: Hasher, seen: SeenAt, ttl: int)
    requires forall r | r in before :: |r.batch| == |r.clock|
    requires i < |run.batch| == |run.clock| && hash(run.batch[i]) in seen
    ensures ExpiredAt(i, run.batch, run.clock, hash, SeenAfter(before, hash, seen), ttl)
            <==> seen[hash(run.batch[i])] + ttl < run.clock[i]
  {
    var h := hash(run.batch[i]);
    FirstSeenStaysOverRuns(before, hash, seen, h);
    FirstSeenStays(i + 1, run.batch, run.clock, hash, SeenAfter(before, hash, seen), h);
  }

  /** The first sight of an operation is recorded, and it survives that run. */
  lemma {:induction false} FirstSightIsRecorded(i: nat, batch: seq<AiOperation>, clock: seq<int>, hash: Hasher,
                                                seen: SeenAt,
                                                j: nat, ttl: int)
    requires i <= j < |batch| == |clock| && hash(batch[j]) !in seen
    requires forall k | j < k < |batch| :: hash(batch[k]) != hash(batch[j])
    ensures var s := SeenDownTo(i, batch, clock, hash, seen); hash(batch[j]) in s && s[hash(batch[j])] == clock[j]
    ensures !ExpiredAt(j, batch, clock, hash, seen, ttl)
    decreases |batch| - i
  {
    NotSeenYet(j + 1, batch, clock, hash, seen, hash(batch[j]));
    if i < j {
      FirstSightIsRecorded(i + 1, batch, clock, hash, seen, j, ttl);
    }
  }

  lemma {:induction false} NotSeenYet(i: nat, batch: seq<AiOperation>, clock: seq<int>, hash: Hasher,
                                      seen: SeenAt, h: Hash)
    requires i <= |batch| == |clock| && h !in seen
    requires forall k | i <= k < |batch| :: hash(batch[k]) != h
    ensures h !in SeenDownTo(i, batch, clock, hash, seen)
    decreases |batch| - i
  {
    if i < |batch| {
      NotSeenYet(i + 1, batch, clock, hash, seen, h);
    }
  }
}
