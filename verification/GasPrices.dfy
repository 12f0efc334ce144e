/** The modules that order and trim a batch by price and gas: pkg/modules/gasprice/sort.go and
    filter.go, pkg/modules/batch/gaslimit.go. */
module GasPrices {
  import opened Text
  import opened AiOp
  import opened BatchContext

  type Price = AiOperation -> nat

  // ---------------------------------------------------------------- stable sorting

  ghost predicate Descending(xs: seq<AiOperation>, price: Price) {
    forall i, j | 0 <= i < j < |xs| :: price(xs[i]) >= price(xs[j])
  }

  /** The operations with a given price, in order. */
  function WithPrice(xs: seq<AiOperation>, price: Price, v: nat): seq<AiOperation> {
    if xs == [] then []
    else (if price(xs[0]) == v then [xs[0]] else []) + WithPrice(xs[1..], price, v)
  }

  /** `ys` is `xs` sorted by falling price, operations of equal price in their old order. */
  ghost predicate StablySorted(xs: seq<AiOperation>, ys: seq<AiOperation>, price: Price) {
    && Descending(ys, price)
    && multiset(ys) == multiset(xs)
    && forall v: nat :: WithPrice(ys, price, v) == WithPrice(xs, price, v)
  }

  function InsertByPrice(x: AiOperation, ys: seq<AiOperation>, price: Price): seq<AiOperation> {
    if ys == [] || price(x) >= price(ys[0]) then [x] + ys
    else [ys[0]] + InsertByPrice(x, ys[1..], price)
  }

  function SortByPrice(xs: seq<AiOperation>, price: Price): seq<AiOperation> {
    if xs == [] then [] else InsertByPrice(xs[0], SortByPrice(xs[1..], price), price)
  }

  lemma {:induction false} InsertKeepsMultiset(x: AiOperation, ys: seq<AiOperation>, price: Price)
    ensures multiset(InsertByPrice(x, ys, price)) == multiset([x] + ys)
    decreases |ys|
  {
    if ys != [] && price(x) < price(ys[0]) {
      InsertKeepsMultiset(x, ys[1..], price);
      assert ys == [ys[0]] + ys[1..];
    }
  }

  lemma {:induction false} InsertKeepsDescending(x: AiOperation, ys: seq<AiOperation>, price: Price)
    requires Descending(ys, price)
    ensures Descending(InsertByPrice(x, ys, price), price)
    decreases |ys|
  {
    if ys != [] && price(x) < price(ys[0]) {
      var rest := InsertByPrice(x, ys[1..], price);
      InsertKeepsDescending(x, ys[1..], price);
      InsertKeepsMultiset(x, ys[1..], price);
      forall j | 0 <= j < |rest| ensures price(ys[0]) >= price(rest[j]) {
        assert rest[j] in multiset([x] + ys[1..]);
        assert rest[j] in [x] + ys[1..];
      }
    }
  }

  lemma WithPriceCons(x: AiOperation, ys: seq<AiOperation>, price: Price, v: nat)
    ensures WithPrice([x] + ys, price, v)
            == (if price(x) == v then [x] else []) + WithPrice(ys, price, v)
  {
    assert ([x] + ys)[1..] == ys;
  }

  lemma {:induction false} InsertKeepsTies(x: AiOperation, ys: seq<AiOperation>, price: Price, v: nat)
    ensures WithPrice(InsertByPrice(x, ys, price), price, v) == WithPrice([x] + ys, price, v)
    decreases |ys|
  {
    hide WithPrice;
    if ys != [] && price(x) < price(ys[0]) {
      InsertKeepsTies(x, ys[1..], price, v);
      WithPriceCons(ys[0], InsertByPrice(x, ys[1..], price), price, v);
      WithPriceCons(x, ys[1..], price, v);
      WithPriceCons(x, ys, price, v);
      WithPriceCons(ys[0], ys[1..], price, v);
      assert ys == [ys[0]] + ys[1..];
    }
  }

  lemma {:induction false} SortByPriceIsStable(xs: seq<AiOperation>, price: Price)
    ensures StablySorted(xs, SortByPrice(xs, price), price)
    decreases |xs|
  {
    if xs != [] {
      var rest := SortByPrice(xs[1..], price);
      SortByPriceIsStable(xs[1..], price);
      InsertKeepsMultiset(xs[0], rest, price);
      InsertKeepsDescending(xs[0], rest, price);
      assert xs == [xs[0]] + xs[1..];
      forall v: nat ensures WithPrice(InsertByPrice(xs[0], rest, price), price, v) == WithPrice(xs, price, v) {
        InsertKeepsTies(xs[0], rest, price, v);
        WithPriceCons(xs[0], rest, price, v);
        assert WithPrice(rest, price, v) == WithPrice(xs[1..], price, v);
      }
    }
  }

  lemma WithPriceTail(xs: seq<AiOperation>, price: Price, v: nat)
    requires xs != []
    ensures var all := WithPrice(xs, price, v);
            if price(xs[0]) == v then all != [] && all[0] == xs[0] && WithPrice(xs[1..], price, v) == all[1..]
            else WithPrice(xs[1..], price, v) == all
  {
  }

  /** There is only one stable sort. */
  lemma {:induction false} StableSortIsUnique(xs: seq<AiOperation>, ys: seq<AiOperation>, zs: seq<AiOperation>,
                                              price: Price)
    requires Descending(ys, price) && Descending(zs, price)
    requires forall v: nat :: WithPrice(ys, price, v) == WithPrice(xs, price, v)
    requires forall v: nat :: WithPrice(zs, price, v) == WithPrice(xs, price, v)
    ensures ys == zs
    decreases |ys|
  {
    if ys == [] {
      if zs != [] {
        WithPriceTail(zs, price, price(zs[0]));
      }
    } else {
      var v := price(ys[0]);
      assert WithPrice(zs, price, v) == WithPrice(ys, price, v);
      hide WithPrice;
      SameHighest(ys, zs, price);
      WithPriceTail(ys, price, v);
      WithPriceTail(zs, price, v);
      forall w: nat ensures WithPrice(zs[1..], price, w) == WithPrice(ys[1..], price, w) {
        assert WithPrice(zs, price, w) == WithPrice(ys, price, w);
        WithPriceTail(ys, price, w);
        WithPriceTail(zs, price, w);
      }
      StableSortIsUnique(ys[1..], ys[1..], zs[1..], price);
      assert ys == [ys[0]] + ys[1..] && zs == [zs[0]] + zs[1..];
    }
  }

  lemma SameHighest(ys: seq<AiOperation>, zs: seq<AiOperation>, price: Price)
    requires ys != [] && Descending(ys, price) && Descending(zs, price)
    requires forall v: nat :: WithPrice(ys, price, v) == WithPrice(zs, price, v)
    ensures zs != [] && price(zs[0]) == price(ys[0])
  {
    var v := price(ys[0]);
    assert WithPrice(ys, price, v) == WithPrice(zs, price, v);
    HasPrice(zs, price, v);
    var w := price(zs[0]);
    assert WithPrice(ys, price, w) == WithPrice(zs, price, w);
    HasPrice(ys, price, w);
  }

  lemma {:induction false} HasPrice(xs: seq<AiOperation>, price: Price, v: nat)
    requires WithPrice(xs, price, v) != []
    ensures exists i :: 0 <= i < |xs| && price(xs[i]) == v
    decreases |xs|
  {
    if price(xs[0]) != v {
      HasPrice(xs[1..], price, v);
      var i :| 0 <= i < |xs[1..]| && price(xs[1..][i]) == v;
      assert price(xs[i + 1]) == v;
    }
  }

  // ---------------------------------------------------------------- the modules

  /** The price a batch is sorted by: the dynamic price when there is a base fee (also a base fee of
      0), the fee cap when there is only a gas price. */
  function SortPrice(baseFee: Option<nat>): Price {
    if baseFee.Some? then (op: AiOperation) => GetDynamicGasPrice(op, baseFee.value)
    else (op: AiOperation) => op.maxFeePerGas
  }

  predicate IsDynamic(baseFee: Option<nat>, tip: Option<nat>) {
    baseFee.Some? && baseFee.value != 0 && tip.Some?
  }

  /** Whether an operation survives the filter; without any price nothing does. */
  predicate Affordable(op: AiOperation, baseFee: Option<nat>, tip: Option<nat>, gasPrice: Option<nat>) {
    if IsDynamic(baseFee, tip) then
      GetDynamicGasPrice(op, baseFee.value) >= baseFee.value + tip.value
    else gasPrice.Some? && op.maxFeePerGas >= gasPrice.value
  }

  function Affordables(xs: seq<AiOperation>, baseFee: Option<nat>, tip: Option<nat>,
                       gasPrice: Option<nat>): seq<AiOperation> {
    if xs == [] then []
    else (if Affordable(xs[0], baseFee, tip, gasPrice) then [xs[0]] else [])
         + Affordables(xs[1..], baseFee, tip, gasPrice)
  }

  /** Sorted by dynamic price under a base fee, by fee cap under a gas price only, and else as it was. */
  ghost predicate PriceSorted(xs: seq<AiOperation>, ys: seq<AiOperation>, baseFee: Option<nat>, gasPrice: Option<nat>) {
    if baseFee.Some? || gasPrice.Some? then StablySorted(xs, ys, SortPrice(baseFee)) else ys == xs
  }

  method SortByGasPrice(ctx: BatchHandlerCtx)
    modifies ctx
    ensures ctx.pendingRemoval == old(ctx.pendingRemoval)
    ensures PriceSorted(old(ctx.batch), ctx.batch, ctx.baseFee, ctx.gasPrice)
    ensures multiset(ctx.batch) == multiset(old(ctx.batch))
  {
    hide SortByPrice, WithPrice, Descending;
    var price := SortPrice(ctx.baseFee);
    SortByPriceIsStable(ctx.batch, price);
    if ctx.baseFee.Some? {
      ctx.batch := SortByPrice(ctx.batch, price);
    } else if ctx.gasPrice.Some? {
      ctx.batch := SortByPrice(ctx.batch, price);
    }
  }

  /** What the filter keeps: under a base fee the operations that can pay it together with the tip, and
      offer that tip; otherwise those that pay the gas price. */
  lemma AffordableIff(op: AiOperation, baseFee: Option<nat>, tip: Option<nat>, gasPrice: Option<nat>)
    ensures Affordable(op, baseFee, tip, gasPrice)
            <==> if baseFee.Some? && baseFee.value > 0 && tip.Some?
                 then op.maxFeePerGas >= baseFee.value + tip.value && op.maxPriorityFeePerGas >= tip.value
                 else gasPrice.Some? && op.maxFeePerGas >= gasPrice.value
  {
  }

  lemma AffordablesFrom(xs: seq<AiOperation>, i: nat, bf: Option<nat>, tip: Option<nat>, gp: Option<nat>)
    requires i < |xs|
    ensures Affordables(xs[i..], bf, tip, gp)
            == (if Affordable(xs[i], bf, tip, gp) then [xs[i]] else []) + Affordables(xs[i + 1..], bf, tip, gp)
  {
    hide Affordable;
    assert xs[i..][1..] == xs[i + 1..];
  }

  method FilterUnderpriced(ctx: BatchHandlerCtx)
    modifies ctx
    ensures ctx.pendingRemoval == old(ctx.pendingRemoval)
    ensures ctx.batch == Affordables(old(ctx.batch), ctx.baseFee, ctx.tip, ctx.gasPrice)
  {
    var b: seq<AiOperation> := [];
    var i := 0;
    assert ctx.batch[0..] == ctx.batch;
    assert Affordables([], ctx.baseFee, ctx.tip, ctx.gasPrice) == [];
    hide GetDynamicGasPrice, Affordables;
    while i < |ctx.batch|
      invariant 0 <= i <= |ctx.batch| && ctx.batch == old(ctx.batch)
      invariant ctx.pendingRemoval == old(ctx.pendingRemoval)
      invariant b + Affordables(ctx.batch[i..], ctx.baseFee, ctx.tip, ctx.gasPrice)
                == Affordables(ctx.batch, ctx.baseFee, ctx.tip, ctx.gasPrice)
    {
      var op := ctx.batch[i];
      ghost var before, rest := b, Affordables(ctx.batch[i + 1..], ctx.baseFee, ctx.tip, ctx.gasPrice);
      AffordablesFrom(ctx.batch, i, ctx.baseFee, ctx.tip, ctx.gasPrice);
      if IsDynamic(ctx.baseFee, ctx.tip) {
        var gp := ctx.baseFee.value + ctx.tip.value;
        if GetDynamicGasPrice(op, ctx.baseFee.value) >= gp {
          b := b + [op];
        }
      } else if ctx.gasPrice.Some? {
        if op.maxFeePerGas >= ctx.gasPrice.value {
          b := b + [op];
        }
      }
      ghost var kept := if Affordable(op, ctx.baseFee, ctx.tip, ctx.gasPrice) then [op] else [];
      assert b == before + kept;
      assert before + kept + rest == before + (kept + rest);
      i := i + 1;
    }
    ctx.batch := b;
  }

  lemma ConsSubset<T>(x: T, a: seq<T>, b: seq<T>)
    requires multiset(a) <= multiset(b)
    ensures multiset([x] + a) <= multiset([x] + b) && multiset(a) <= multiset([x] + b)
  {
  }

  lemma {:induction false} AffordablesConserve(xs: seq<AiOperation>, bf: Option<nat>, tip: Option<nat>, gp: Option<nat>)
    ensures multiset(Affordables(xs, bf, tip, gp)) <= multiset(xs)
    decreases |xs|
  {
    hide Affordable;
    if xs != [] {
      AffordablesConserve(xs[1..], bf, tip, gp);
      ConsSubset(xs[0], Affordables(xs[1..], bf, tip, gp), xs[1..]);
      assert xs == [xs[0]] + xs[1..];
      if !Affordable(xs[0], bf, tip, gp) {
        assert Affordables(xs, bf, tip, gp) == Affordables(xs[1..], bf, tip, gp);
      }
    }
  }

  /** The survivors of the filter are the operations that meet the price floor. */
  lemma {:induction false} SurvivorsMeetFloor(xs: seq<AiOperation>, op: AiOperation, bf: Option<nat>,
                                              tip: Option<nat>, gp: Option<nat>)
    ensures op in Affordables(xs, bf, tip, gp) <==> op in xs && Affordable(op, bf, tip, gp)
    decreases |xs|
  {
    hide Affordable;
    if xs != [] {
      SurvivorsMeetFloor(xs[1..], op, bf, tip, gp);
      assert xs == [xs[0]] + xs[1..];
    }
  }

  // ---------------------------------------------------------------- sorting, then filtering

  /** Wherever the sorted batch crosses the price floor, it does so once. */
  ghost predicate CutsOnce(xs: seq<AiOperation>, bf: Option<nat>, tip: Option<nat>, gp: Option<nat>) {
    forall i, j | 0 <= i < j < |xs| && Affordable(xs[j], bf, tip, gp) :: Affordable(xs[i], bf, tip, gp)
  }

  lemma {:induction false} NoneAffordable(xs: seq<AiOperation>, bf: Option<nat>, tip: Option<nat>, gp: Option<nat>)
    requires forall i | 0 <= i < |xs| :: !Affordable(xs[i], bf, tip, gp)
    ensures Affordables(xs, bf, tip, gp) == []
    decreases |xs|
  {
    hide Affordable;
    if xs != [] {
      NoneAffordable(xs[1..], bf, tip, gp);
    }
  }

  lemma {:induction false} CutsOnceKeepsPrefix(xs: seq<AiOperation>, bf: Option<nat>, tip: Option<nat>, gp: Option<nat>)
    requires CutsOnce(xs, bf, tip, gp)
    ensures Affordables(xs, bf, tip, gp) <= xs
    decreases |xs|
  {
    hide Affordable;
    if xs != [] {
      if Affordable(xs[0], bf, tip, gp) {
        CutsOnceKeepsPrefix(xs[1..], bf, tip, gp);
        assert xs == [xs[0]] + xs[1..];
      } else {
        NoneAffordable(xs, bf, tip, gp);
      }
    }
  }

  /** Sorting and filtering go by the same price, or by prices that cannot disagree at the floor: it
      is not the case that the batch is sorted by dynamic price but filtered by a gas price above the
      base fee. */
  predicate PricesAgree(bf: Option<nat>, tip: Option<nat>, gp: Option<nat>) {
    !(bf.Some? && !IsDynamic(bf, tip) && gp.Some? && gp.value > bf.value)
  }

  /** The batch as SortByGasPrice leaves it. */
  function SortedBatch(xs: seq<AiOperation>, bf: Option<nat>, gp: Option<nat>): seq<AiOperation> {
    if bf.Some? || gp.Some? then SortByPrice(xs, SortPrice(bf)) else xs
  }

  lemma AgreeingPricesKeepPrefix(xs: seq<AiOperation>, bf: Option<nat>, tip: Option<nat>, gp: Option<nat>)
    requires PricesAgree(bf, tip, gp)
    ensures Affordables(SortedBatch(xs, bf, gp), bf, tip, gp) <= SortedBatch(xs, bf, gp)
  {
    SortByPriceIsStable(xs, SortPrice(bf));
    hide SortByPrice, WithPrice, Affordables;
    CutsOnceKeepsPrefix(SortedBatch(xs, bf, gp), bf, tip, gp);
  }

  /** An operation with nothing but fees. */
  function Bidding(op: AiOperation, fee: nat, tip: nat): AiOperation {
    op.(maxFeePerGas := fee, maxPriorityFeePerGas := tip)
  }

  /** The check of fees that submitted operations pass. */
  predicate ValidFees(op: AiOperation, bf: Option<nat>) {
    match bf
    case None => op.maxPriorityFeePerGas == op.maxFeePerGas
    case Some(baseFee) => op.maxPriorityFeePerGas <= op.maxFeePerGas && op.maxFeePerGas >= baseFee
  }

  /** A bid just under the gas price ties with one at the gas price that came later: without a tip, both
      are worth the base fee. */
  lemma DisagreeingPricesLosePrefix(op: AiOperation, bf: Option<nat>, tip: Option<nat>, gp: Option<nat>)
    requires !PricesAgree(bf, tip, gp)
    ensures var low := Bidding(op, gp.value - 1, 0); var high := Bidding(op, gp.value, 0);
            && SortedBatch([low, high], bf, gp) == [low, high]
            && Affordables([low, high], bf, tip, gp) == [high]
            && !([high] <= [low, high])
            && ValidFees(low, bf) && ValidFees(high, bf)
  {
    var low, high := Bidding(op, gp.value - 1, 0), Bidding(op, gp.value, 0);
    var price := SortPrice(bf);
    var xs := [low, high];
    assert xs[1..] == [high] && [high][1..] == [];
    assert SortByPrice([high], price) == InsertByPrice(high, [], price) == [high] + [];
    assert price(low) >= price(high);
    assert !Affordable(low, bf, tip, gp) && Affordable(high, bf, tip, gp);
    assert Affordables([high], bf, tip, gp) == [high] + Affordables([], bf, tip, gp);
    assert xs[0] == low;
  }

  /** Price sort, then filter, leaves a prefix of the sorted batch for every batch of operations with
      valid fees, if and only if the two prices agree. With a base fee of 0 they need not. */
  lemma PrefixForEveryBatchIffPricesAgree(op: AiOperation, bf: Option<nat>, tip: Option<nat>, gp: Option<nat>)
    ensures (forall xs: seq<AiOperation> | (forall x | x in xs :: ValidFees(x, bf)) ::
               Affordables(SortedBatch(xs, bf, gp), bf, tip, gp) <= SortedBatch(xs, bf, gp))
            <==> PricesAgree(bf, tip, gp)
  {
    hide SortedBatch, Affordables, ValidFees;
    if PricesAgree(bf, tip, gp) {
      forall xs ensures Affordables(SortedBatch(xs, bf, gp), bf, tip, gp) <= SortedBatch(xs, bf, gp) {
        AgreeingPricesKeepPrefix(xs, bf, tip, gp);
      }
    } else {
      DisagreeingPricesLosePrefix(op, bf, tip, gp);
      var xs := [Bidding(op, gp.value - 1, 0), Bidding(op, gp.value, 0)];
      assert !(Affordables(SortedBatch(xs, bf, gp), bf, tip, gp) <= SortedBatch(xs, bf, gp));
    }
  }

  // ---------------------------------------------------------------- the batch gas limit

  /** The static gas of an operation's calldata and overhead; None when it cannot be computed. */
  type StaticGas = AiOperation -> Option<nat>

  /** The most an operation can use, with static instead of declared pre-verification gas. */
  function ExecutionGas(op: AiOperation, staticGas: nat): nat {
    GetMaxGasAvailable(op) - op.preVerificationGas + staticGas
  }

  /** The gas of a batch; None when that of an operation cannot be computed. */
  function TotalGas(xs: seq<AiOperation>, staticGas: StaticGas): Option<nat> {
    if xs == [] then Some(0)
    else
      var rest, last := TotalGas(xs[..|xs| - 1], staticGas), staticGas(xs[|xs| - 1]);
      if rest.None? || last.None? then None
      else Some(rest.value + ExecutionGas(xs[|xs| - 1], last.value))
  }

  predicate Below(gas: Option<nat>, limit: int) {
    gas.Some? && gas.value < limit
  }

  /** The first `n` operations are the longest prefix strictly below the limit (or nothing). */
  ghost predicate LongestBelow(xs: seq<AiOperation>, n: nat, staticGas: StaticGas, limit: int) {
    && n <= |xs|
    && (forall j | 0 < j <= n :: Below(TotalGas(xs[..j], staticGas), limit))
    && (n < |xs| ==> TotalGas(xs[..n + 1], staticGas).Some? && TotalGas(xs[..n + 1], staticGas).value >= limit)
  }

  /** The first `i` operations use `sum`, and every prefix of them is below the limit. */
  ghost predicate Fits(xs: seq<AiOperation>, i: nat, sum: nat, staticGas: StaticGas, limit: int) {
    && i <= |xs| && TotalGas(xs[..i], staticGas) == Some(sum)
    && forall j | 0 < j <= i :: Below(TotalGas(xs[..j], staticGas), limit)
  }

  lemma FitsStep(xs: seq<AiOperation>, i: nat, sum: nat, staticGas: StaticGas, limit: int)
    requires i < |xs| && Fits(xs, i, sum, staticGas, limit) && staticGas(xs[i]).Some?
    ensures var next := sum + ExecutionGas(xs[i], staticGas(xs[i]).value);
            if next >= limit then LongestBelow(xs, i, staticGas, limit)
            else Fits(xs, i + 1, next, staticGas, limit)
  {
    hide ExecutionGas;
    assert xs[..i + 1][..i] == xs[..i];
  }

  /** The operation that stops the module: one whose static gas cannot be computed, reached while
      everything before it fits. */
  ghost predicate Uncomputable(xs: seq<AiOperation>, staticGas: StaticGas, limit: int) {
    exists n, sum: nat :: 0 <= n < |xs| && Fits(xs, n, sum, staticGas, limit) && staticGas(xs[n]).None?
  }

  method MaintainGasLimit(ctx: BatchHandlerCtx, maxBatchGasLimit: int, staticGas: StaticGas) returns (ok: bool)
    modifies ctx
    ensures ctx.pendingRemoval == old(ctx.pendingRemoval)
    ensures ok ==> exists n: nat ::
                     LongestBelow(old(ctx.batch), n, staticGas, maxBatchGasLimit) && ctx.batch == old(ctx.batch)[..n]
    ensures ok && ctx.batch != [] ==>
              TotalGas(ctx.batch, staticGas).Some? && TotalGas(ctx.batch, staticGas).value < maxBatchGasLimit
    ensures !ok ==> ctx.batch == old(ctx.batch) && Uncomputable(ctx.batch, staticGas, maxBatchGasLimit)
  {
    assert Fits(ctx.batch, 0, 0, staticGas, maxBatchGasLimit);
    hide ExecutionGas, Fits, TotalGas;
    var bat: seq<AiOperation> := [];
    var sum: nat := 0;
    var i := 0;
    while i < |ctx.batch|
      invariant 0 <= i <= |ctx.batch| && ctx.batch == old(ctx.batch)
      invariant ctx.pendingRemoval == old(ctx.pendingRemoval)
      invariant bat == ctx.batch[..i] && Fits(ctx.batch, i, sum, staticGas, maxBatchGasLimit)
    {
      var op := ctx.batch[i];
      var g := staticGas(op);
      if g.None? {
        return false;
      }
      FitsStep(ctx.batch, i, sum, staticGas, maxBatchGasLimit);
      sum := sum + ExecutionGas(op, g.value);
      if sum >= maxBatchGasLimit {
        ctx.batch := bat;
        return true;
      }
      bat := bat + [op];
      i := i + 1;
    }
    FitsAll(ctx.batch, sum, staticGas, maxBatchGasLimit);
    ctx.batch := bat;
    return true;
  }

  lemma FitsAll(xs: seq<AiOperation>, sum: nat, staticGas: StaticGas, limit: int)
    requires Fits(xs, |xs|, sum, staticGas, limit)
    ensures LongestBelow(xs, |xs|, staticGas, limit)
  {
    hide TotalGas;
  }

  /** Gas only adds up, so no longer prefix is below the limit. */
  lemma {:induction false} NoLongerPrefixBelow(xs: seq<AiOperation>, n: nat, m: nat, staticGas: StaticGas, limit: int)
    requires LongestBelow(xs, n, staticGas, limit) && n < m <= |xs|
    ensures !Below(TotalGas(xs[..m], staticGas), limit)
    decreases m
  {
    hide GetMaxGasAvailable;
    if m > n + 1 {
      NoLongerPrefixBelow(xs, n, m - 1, staticGas, limit);
      assert xs[..m][..m - 1] == xs[..m - 1];
    }
  }

  /** A batch is counted as if each operation declared its static gas for pre-verification. */
  lemma StaticGasIsCounted(op: AiOperation, declared: nat, staticGas: nat)
    ensures ExecutionGas(op, staticGas) == GetMaxGasAvailable(op.(preVerificationGas := staticGas))
    ensures ExecutionGas(op.(preVerificationGas := declared), staticGas) == ExecutionGas(op, staticGas)
  {
  }
}
