/** The base fee that pkg/modules/builder/client.go projects for the blocks it bids for, against the
    base fees that the Specification section of EIP-1559 allows those blocks to have. */
module BaseFee {
  import opened Arithmetic

  function ProjectOnce(baseFee: nat): nat {
    baseFee * 1125 / 1000 + 1
  }

  function Project(baseFee: nat, blocks: nat): nat {
    if blocks == 0 then baseFee else ProjectOnce(Project(baseFee, blocks - 1))
  }

  /** The loop that fills in the base fee of the transaction. */
  method ProjectBaseFee(baseFee: nat, blocksInTheFuture: int) returns (mbf: nat)
    ensures mbf == Project(baseFee, if blocksInTheFuture < 0 then 0 else blocksInTheFuture)
  {
    mbf := baseFee;
    var i := 0;
    while i < blocksInTheFuture
      invariant 0 <= i && (i <= blocksInTheFuture || i == 0)
      invariant mbf == Project(baseFee, i)
    {
      var a := mbf * 1125;
      var b := a / 1000;
      mbf := b + 1;
      i := i + 1;
    }
  }

  // ---------------------------------------------------------------- EIP-1559

  /** The gas target and the gas used of a block. */
  datatype Block = Block(target: nat, used: nat)

  const BASE_FEE_MAX_CHANGE_DENOMINATOR := 8

  /** The base fee of the block after one with this base fee. */
  function NextBaseFee(baseFee: nat, b: Block): int
    requires b.target > 0
  {
    if b.used == b.target then baseFee
    else if b.used > b.target then
      baseFee + Max(baseFee * (b.used - b.target) / b.target / BASE_FEE_MAX_CHANGE_DENOMINATOR, 1)
    else
      baseFee - baseFee * (b.target - b.used) / b.target / BASE_FEE_MAX_CHANGE_DENOMINATOR
  }

  lemma ProjectOnceIs(x: nat)
    ensures ProjectOnce(x) == x + x / 8 + 1
  {
  }

  lemma QuotientAtMost(x: nat, d: nat, k: nat, t: nat)
    requires t > 0 && d <= k * t
    ensures 0 <= x * d / t <= k * x
  {
    assert x * d <= x * (k * t) by { ScaleUp(x, d, k * t); }
    assert x * (k * t) == t * (k * x);
    DivideAtMost(x * d, t, k * x);
  }

  /** A block that uses at most twice its target stays within one step of the projection. */
  lemma NextWithinProjection(baseFee: nat, b: Block)
    requires b.target > 0 && b.used <= 2 * b.target
    ensures 0 <= NextBaseFee(baseFee, b) <= ProjectOnce(baseFee)
  {
    ProjectOnceIs(baseFee);
    if b.used > b.target {
      QuotientAtMost(baseFee, b.used - b.target, 1, b.target);
    } else if b.used < b.target {
      QuotientAtMost(baseFee, b.target - b.used, 1, b.target);
    }
  }

  /** A block that uses more than twice its target can escape the projection: a full block can when
      its gas limit is odd, since the target is half the limit rounded down. */
  lemma OverfullBlockEscapes(b: Block)
    requires b.target > 0 && b.used > 2 * b.target
    ensures NextBaseFee(16 * b.target, b) > ProjectOnce(16 * b.target)
  {
    var x := 16 * b.target;
    ProjectOnceIs(x);
    var delta := b.used - b.target;
    assert x * delta >= x * (b.target + 1) by { ScaleUp(x, b.target + 1, delta); }
    assert x * (b.target + 1) == b.target * (16 * (b.target + 1));
    DivideAtLeast(x * delta, b.target, 16 * (b.target + 1));
  }

  /** The projection covers the block after any base fee if and only if the block uses at most twice
      its target. */
  lemma ProjectionCoversIff(b: Block)
    requires b.target > 0
    ensures (forall baseFee: nat :: NextBaseFee(baseFee, b) <= ProjectOnce(baseFee)) <==> b.used <= 2 * b.target
  {
    hide NextBaseFee, ProjectOnce;
    if b.used <= 2 * b.target {
      forall baseFee: nat ensures NextBaseFee(baseFee, b) <= ProjectOnce(baseFee) { NextWithinProjection(baseFee, b); }
    } else {
      OverfullBlockEscapes(b);
    }
  }

  // ---------------------------------------------------------------- over several blocks

  predicate WithinTwiceTarget(blocks: seq<Block>) {
    forall b | b in blocks :: b.target > 0 && b.used <= 2 * b.target
  }

  /** The base fee after a sequence of blocks. */
  function BaseFeeAfter(baseFee: nat, blocks: seq<Block>): (r: nat)
    requires WithinTwiceTarget(blocks)
    decreases |blocks|
  {
    if blocks == [] then baseFee
    else
      var before := BaseFeeAfter(baseFee, blocks[..|blocks| - 1]);
      var last := blocks[|blocks| - 1];
      assert last in blocks;
      NextWithinProjection(before, last);
      NextBaseFee(before, last)
  }

  lemma ProjectOnceMonotone(x: nat, y: nat)
    requires x <= y
    ensures ProjectOnce(x) <= ProjectOnce(y)
  {
  }

  /** After n blocks the projection is at least any base fee those blocks can lead to. */
  lemma {:induction false} ProjectionCovers(baseFee: nat, blocks: seq<Block>)
    requires WithinTwiceTarget(blocks)
    ensures BaseFeeAfter(baseFee, blocks) <= Project(baseFee, |blocks|)
    decreases |blocks|
  {
    if blocks != [] {
      hide NextBaseFee, ProjectOnce;
      var front, last := blocks[..|blocks| - 1], blocks[|blocks| - 1];
      assert last in blocks;
      ProjectionCovers(baseFee, front);
      NextWithinProjection(BaseFeeAfter(baseFee, front), last);
      ProjectOnceMonotone(BaseFeeAfter(baseFee, front), Project(baseFee, |front|));
    }
  }

  lemma ProjectOnceGrows(x: nat)
    ensures ProjectOnce(x) > x
  {
  }

  /** Looking further ahead strictly raises the projection, so it also covers every earlier block. */
  lemma {:induction false} ProjectionGrows(baseFee: nat, n: nat, m: nat)
    requires n < m
    ensures Project(baseFee, n) < Project(baseFee, m)
    decreases m
  {
    hide ProjectOnce;
    ProjectOnceGrows(Project(baseFee, m - 1));
    if n < m - 1 {
      ProjectionGrows(baseFee, n, m - 1);
    }
  }

  lemma OneProjectionBound(x: nat)
    ensures 8 * (ProjectOnce(x) + 8) <= 9 * (x + 8)
  {
  }

  /** The projection overshoots a growth of an eighth a block by a bounded factor only:
      8^n * (m_n + 8) <= 9^n * (b + 8). */
  lemma {:induction false} ProjectionBound(baseFee: nat, n: nat)
    ensures Pow(8, n) * (Project(baseFee, n) + 8) <= Pow(9, n) * (baseFee + 8)
    decreases n
  {
    hide ProjectOnce;
    if n > 0 {
      var before := Project(baseFee, n - 1);
      OneProjectionBound(before);
      ProjectionBound(baseFee, n - 1);
      Chain(Pow(8, n - 1), Pow(9, n - 1), ProjectOnce(before) + 8, before + 8, baseFee + 8);
    }
  }

  lemma Chain(p: nat, q: nat, next: nat, x: nat, start: nat)
    requires 8 * next <= 9 * x && p * x <= q * start
    ensures (8 * p) * next <= (9 * q) * start
  {
    ScaleUp(p, 8 * next, 9 * x);
  }
}
