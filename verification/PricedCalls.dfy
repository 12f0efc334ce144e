/** For which call trees the limit of the execution tracer is enough whatever the calls without code
    (precompiles) cost: exactly those in which each such call is made directly by a call at depth 2. */
module PricedCalls {
  import opened Text
  import opened Arithmetic
  import opened ExecutionTracer
  import opened GasForwarding

  // ---------------------------------------------------------------- the same tree at other prices

  /** `g` is `f` but for what calls without code cost; those that are free stay free. */
  predicate SameTree(f: Frame, g: Frame) {
    && f.reverted == g.reverted && f.output == g.output
    && if f.body.Done? then g.body.Done? && (f.used == 0 ==> g.used == 0) else SameBody(f.body, g.body)
  }

  predicate SameBody(b: Body, c: Body) {
    match b
    case Done => c.Done?
    case Op(opcode, gas, cost, own, rest) =>
      c.Op? && c.opcode == opcode && c.gas == gas && c.cost == cost && c.own == own && SameBody(rest, c.rest)
    case Call(f, rest) => c.Call? && SameTree(f, c.callee) && SameBody(rest, c.rest)
  }

  lemma {:induction false} SameResumes(b: Body, c: Body)
    requires SameBody(b, c) && Resumes(b)
    ensures Resumes(c)
    decreases b
  {
    match b
    case Done =>
    case Op(_, _, _, _, rest) => SameResumes(rest, c.rest);
    case Call(f, rest) =>
      SameEvmFrame(f, c.callee);
      SameResumes(rest, c.rest);
  }

  lemma {:induction false} SameEvmFrame(f: Frame, g: Frame)
    requires SameTree(f, g) && EvmFrame(f)
    ensures EvmFrame(g)
    decreases f
  {
    if !f.body.Done? {
      SameResumes(f.body, g.body);
    }
  }

  lemma {:induction false} SameTame(b: Body, c: Body, direct: bool)
    requires SameBody(b, c) && Tame(b, direct)
    ensures Tame(c, direct)
    decreases b
  {
    match b
    case Done =>
    case Op(_, _, _, _, rest) => SameTame(rest, c.rest, direct);
    case Call(f, rest) =>
      if Free(f) { SameFree(f, c.callee); }
      SameTame(rest, c.rest, direct);
  }

  lemma {:induction false} SameFree(f: Frame, g: Frame)
    requires SameTree(f, g) && Free(f)
    ensures Free(g)
    decreases f
  {
    if !f.body.Done? {
      BodyStays(f.body, g.body);
      SameTame(f.body, g.body, false);
    }
  }

  lemma BodyStays(b: Body, c: Body)
    requires SameBody(b, c)
    ensures b.Done? == c.Done? && b.Op? == c.Op?
  {
  }

  lemma SameFits(f: Frame, g: Frame)
    requires SameTree(f, g) && Fits(f)
    ensures Fits(g)
  {
    if !f.body.Done? {
      BodyStays(f.body, g.body);
      SameTame(f.body, g.body, true);
    }
  }

  // ---------------------------------------------------------------- price zero, and one price

  function Paying(body: Body, f: Frame): Frame {
    Frame(body, OwnGas(body) + CalleesUsed(body), f.reverted, f.output)
  }

  /** The tree with all calls without code free. */
  function Zero(f: Frame): Frame {
    if f.body.Done? then f.(used := 0) else Paying(ZeroBody(f.body), f)
  }

  function ZeroBody(b: Body): Body {
    match b
    case Done => Done
    case Op(opcode, gas, cost, own, rest) => Op(opcode, gas, cost, own, ZeroBody(rest))
    case Call(f, rest) => Call(Zero(f), ZeroBody(rest))
  }

  predicate Skips(f: Frame, direct: bool) {
    Free(f) || (direct && f.body.Done?)
  }

  /** The tree with the first priced call at price `p`, and all others free; under `direct`, calls
      without code made by the body itself do not count. */
  function Put(f: Frame, p: nat): Frame
    requires !Free(f)
  {
    if f.body.Done? then f.(used := p) else Paying(PutBody(f.body, false, p), f)
  }

  function PutBody(b: Body, direct: bool, p: nat): Body
    requires !Tame(b, direct)
  {
    if b.Op? then Op(b.opcode, b.gas, b.cost, b.own, PutBody(b.rest, direct, p))
    else if Skips(b.callee, direct) then Call(Zero(b.callee), PutBody(b.rest, direct, p))
    else Call(Put(b.callee, p), ZeroBody(b.rest))
  }

  /** How many times gas is passed on before it reaches that call. */
  function Level(f: Frame): nat
    requires !Free(f)
  {
    if f.body.Done? then 0 else 1 + LevelBody(f.body, false)
  }

  function LevelBody(b: Body, direct: bool): nat
    requires !Tame(b, direct)
  {
    if b.Op? || Skips(b.callee, direct) then LevelBody(b.rest, direct) else Level(b.callee)
  }

  lemma {:induction false} ZeroIsSame(f: Frame)
    ensures SameTree(f, Zero(f)) && Recorded(Zero(f))
    decreases f
  {
    if !f.body.Done? {
      ZeroBodyIsSame(f.body);
    }
  }

  lemma {:induction false} ZeroBodyIsSame(b: Body)
    ensures SameBody(b, ZeroBody(b)) && RecordedBody(ZeroBody(b))
    decreases b
  {
    match b
    case Done =>
    case Op(_, _, _, _, rest) => ZeroBodyIsSame(rest);
    case Call(f, rest) =>
      ZeroIsSame(f);
      ZeroBodyIsSame(rest);
  }

  lemma {:induction false} ZeroBodyIsTame(b: Body)
    ensures Tame(ZeroBody(b), false) && Tame(ZeroBody(b), true)
    decreases b
  {
    match b
    case Done =>
    case Op(_, _, _, _, rest) => ZeroBodyIsTame(rest);
    case Call(f, rest) =>
      ZeroIsFree(f);
      ZeroBodyIsTame(rest);
  }

  lemma {:induction false} ZeroIsFree(f: Frame)
    ensures Free(Zero(f))
    decreases f
  {
    if !f.body.Done? {
      ZeroBodyIsTame(f.body);
    }
  }

  lemma {:induction false} PutIsSame(f: Frame, p: nat)
    requires !Free(f)
    ensures SameTree(f, Put(f, p)) && Recorded(Put(f, p))
    decreases f
  {
    if !f.body.Done? {
      PutBodyIsSame(f.body, false, p);
    }
  }

  lemma {:induction false} PutBodyIsSame(b: Body, direct: bool, p: nat)
    requires !Tame(b, direct)
    ensures SameBody(b, PutBody(b, direct, p)) && RecordedBody(PutBody(b, direct, p))
    decreases b
  {
    match b
    case Op(_, _, _, _, rest) => PutBodyIsSame(rest, direct, p);
    case Call(f, rest) =>
      if Skips(f, direct) {
        ZeroIsSame(f);
        PutBodyIsSame(rest, direct, p);
      } else {
        PutIsSame(f, p);
        ZeroBodyIsSame(rest);
      }
  }

  // ---------------------------------------------------------------- what the call needs

  /** Passing gas on loses a 64th, but for rounding. */
  lemma PassingOn(gas: nat)
    ensures 64 * (gas - gas / 64 - 63) <= 63 * (gas - 63)
  {
  }

  lemma {:induction false} ExecuteSpends(f: Frame, gas: nat)
    requires Execute(f, gas).Some?
    ensures Execute(f, gas).value <= gas
    decreases f
  {
    if !f.body.Done? {
      ExecuteBodySpends(f.body, gas);
    }
  }

  lemma {:induction false} ExecuteBodySpends(b: Body, gas: nat)
    requires ExecuteBody(b, gas).Some?
    ensures ExecuteBody(b, gas).value <= gas
    decreases b
  {
    match b
    case Done =>
    case Op(_, _, _, own, rest) => ExecuteBodySpends(rest, gas - own);
    case Call(f, rest) =>
      var given := gas - gas / 64;
      ExecuteSpends(f, given);
      ExecuteBodySpends(rest, gas - given + Execute(f, given).value);
  }

  /** Gas that `n` passes turn into at least `p`, but for rounding. */
  predicate Reaches(gas: int, n: nat, p: nat) {
    Pow(63, n) * (gas - 63) >= Pow(64, n) * (p - 63)
  }

  lemma ReachesFrom(gas: nat, n: nat, p: nat)
    requires Reaches(gas - gas / 64, n, p)
    ensures Reaches(gas, n + 1, p)
  {
    PassingOn(gas);
    PowStep(63, n + 1);
    PowStep(64, n + 1);
    var given := gas - gas / 64;
    hide Pow;
    ScaleUpBoth(Pow(63, n), Pow(64, n), given - 63, gas - 63, p - 63);
  }

  lemma ScaleUpBoth(a: nat, b: nat, x: int, y: int, q: int)
    requires a * x >= b * q && 64 * x <= 63 * y
    ensures (63 * a) * y >= (64 * b) * q
  {
    ScaleUp(a, 64 * x, 63 * y);
    assert a * (63 * y) == (63 * a) * y;
    assert a * (64 * x) == 64 * (a * x);
    assert 64 * (b * q) == (64 * b) * q;
  }

  lemma ReachesMore(gas: int, more: int, n: nat, p: nat)
    requires Reaches(gas, n, p) && gas <= more
    ensures Reaches(more, n, p)
  {
    hide Pow;
    ScaleUp(Pow(63, n), gas - 63, more - 63);
  }

  /** A run that gets through the priced call started with gas that reaches it. */
  lemma {:induction false} NeedsReach(f: Frame, p: nat, gas: nat)
    requires !Free(f) && Execute(Put(f, p), gas).Some?
    ensures Reaches(gas, Level(f), p)
    decreases f
  {
    if f.body.Done? {
      assert Pow(63, 0) == 1 && Pow(64, 0) == 1;
    } else {
      PutBodyIsSame(f.body, false, p);
      BodyStays(f.body, PutBody(f.body, false, p));
      BodyNeedsReach(f.body, false, p, gas);
    }
  }

  lemma {:induction false} BodyNeedsReach(b: Body, direct: bool, p: nat, gas: nat)
    requires !Tame(b, direct) && ExecuteBody(PutBody(b, direct, p), gas).Some?
    ensures Reaches(gas, LevelBody(b, direct) + 1, p)
    decreases b
  {
    hide Reaches;
    match b
    case Op(_, _, _, own, rest) =>
      BodyNeedsReach(rest, direct, p, gas - own);
      ReachesMore(gas - own, gas, LevelBody(rest, direct) + 1, p);
    case Call(f, rest) =>
      var given := gas - gas / 64;
      if Skips(f, direct) {
        ExecuteSpends(Zero(f), given);
        var left := gas - given + Execute(Zero(f), given).value;
        BodyNeedsReach(rest, direct, p, left);
        ReachesMore(left, gas, LevelBody(rest, direct) + 1, p);
      } else {
        NeedsReach(f, p, given);
        ReachesFrom(gas, Level(f), p);
      }
  }

  // ---------------------------------------------------------------- what the tracer reports

  /** What the price adds to the item of a frame `n` levels above the call: at its caller it is
      counted twice; one frame further out the gas recorded is taken off twice. */
  function Extra(n: nat, p: nat): GasItem {
    if n == 0 then GasItem(p, p)
    else if n == 1 then GasItem(2 * p, 2 * p)
    else Settle(p, Extra(n - 1, p))
  }

  /** Two tallies of one body, the second with the priced call `n` levels down: what it adds is still
      with the callees, or has been settled. */
  ghost predicate Ahead(t: Tally, u: Tally, n: nat, p: nat) {
    || (n > 0 && u.own == t.own
        && u.nested.used == t.nested.used + Extra(n, p).used
        && u.nested.required <= t.nested.required + Extra(n, p).required)
    || (u.nested == t.nested
        && u.own.used == t.own.used + (if n == 0 then p else 0)
        && u.own.required <= t.own.required + Gain(n, p))
  }

  /** What settling makes of what the price adds one level down. */
  function Gain(n: nat, p: nat): int {
    if n == 0 then p else WithReserve(Extra(n, p).required) - Extra(n, p).used
  }

  lemma AheadSettles(t: Tally, u: Tally, n: nat, p: nat, used: nat, used': nat)
    requires Ahead(t, u, n, p) && used' >= used
    ensures var v, w := Plus(t.own, Settle(used, t.nested)), Plus(u.own, Settle(used', u.nested));
            && w.used == v.used + (used' - used) + (if n == 0 then p else 0)
            && w.required <= v.required + (used' - used) + Gain(n, p)
  {
    hide WithReserve, Extra;
    if u.nested.required <= t.nested.required + Extra(n, p).required {
      ReserveSubadditive(t.nested.required, Extra(n, p).required);
      ReserveUp(u.nested.required, t.nested.required + Extra(n, p).required);
    }
  }

  lemma {:induction false} StaysAhead(b: Body, t: Tally, u: Tally, n: nat, p: nat)
    requires Ahead(t, u, n, p)
    ensures Ahead(TallyBody(b, t), TallyBody(b, u), n, p)
    decreases b
  {
    hide WithReserve, FrameGas, Extra, Gain;
    match b
    case Done =>
    case Op(_, _, _, _, rest) => StaysAhead(rest, t, u, n, p);
    case Call(f, rest) =>
      if f.body.Done? {
        AheadSettles(t, u, n, p, f.used, f.used);
      }
      StaysAhead(rest, AfterCall(t, f), AfterCall(u, f), n, p);
  }

  lemma {:induction false} PutTally(b: Body, direct: bool, p: nat, t: Tally)
    requires !Tame(b, direct)
    ensures Ahead(TallyBody(ZeroBody(b), t), TallyBody(PutBody(b, direct, p), t), LevelBody(b, direct), p)
    decreases b
  {
    hide WithReserve, FrameGas, Extra, Ahead;
    match b
    case Op(_, _, _, _, rest) => PutTally(rest, direct, p, t);
    case Call(f, rest) =>
      var u := AfterCall(t, Zero(f));
      if Skips(f, direct) {
        PutTally(rest, direct, p, u);
      } else {
        PutCall(f, p, t);
        StaysAhead(ZeroBody(rest), u, AfterCall(t, Put(f, p)), Level(f), p);
      }
  }

  lemma {:induction false} PutCall(f: Frame, p: nat, t: Tally)
    requires !Free(f)
    ensures Ahead(AfterCall(t, Zero(f)), AfterCall(t, Put(f, p)), Level(f), p)
    decreases f
  {
    hide WithReserve, FrameGas, Extra;
    if !f.body.Done? {
      PutGas(f, false, p);
      ZeroBodyIsSame(f.body);
      BodyStays(f.body, ZeroBody(f.body));
      PutBodyIsSame(f.body, false, p);
      BodyStays(f.body, PutBody(f.body, false, p));
    }
  }

  lemma {:induction false} PutUsed(b: Body, direct: bool, p: nat)
    requires !Tame(b, direct)
    ensures OwnGas(PutBody(b, direct, p)) == OwnGas(ZeroBody(b))
    ensures CalleesUsed(PutBody(b, direct, p)) == CalleesUsed(ZeroBody(b)) + p
    decreases b
  {
    match b
    case Op(_, _, _, _, rest) => PutUsed(rest, direct, p);
    case Call(f, rest) =>
      if Skips(f, direct) {
        PutUsed(rest, direct, p);
      } else if !f.body.Done? {
        PutUsed(f.body, false, p);
      }
  }

  /** The item of a frame with the priced call somewhere in it, against the item at price zero. */
  lemma {:induction false} PutGas(f: Frame, direct: bool, p: nat)
    requires !f.body.Done? && !Tame(f.body, direct)
    ensures var zero, put := FrameGas(Paying(ZeroBody(f.body), f)), FrameGas(Paying(PutBody(f.body, direct, p), f));
            var n := LevelBody(f.body, direct) + 1;
            put.used == zero.used + Extra(n, p).used && put.required <= zero.required + Extra(n, p).required
    decreases f, 0
  {
    hide WithReserve, TallyBody;
    var none := Tally(NoGas(), NoGas());
    var z, b := ZeroBody(f.body), PutBody(f.body, direct, p);
    PutTally(f.body, direct, p, none);
    PutUsed(f.body, direct, p);
    AheadSettles(TallyBody(z, none), TallyBody(b, none), LevelBody(f.body, direct), p,
                 OwnGas(z) + CalleesUsed(z), OwnGas(b) + CalleesUsed(b));
  }

  // ---------------------------------------------------------------- the two against each other

  /** What the price adds grows by 64/63 a frame, but starts from 65/63 of the price only. */
  lemma {:induction false} ExtraBound(n: nat, p: nat)
    requires n >= 2
    ensures Extra(n, p).used == p
    ensures Pow(63, n - 1) * (Extra(n, p).required + 62) <= Pow(64, n - 2) * (65 * p + 3968)
    decreases n
  {
    hide Extra, WithReserve, Pow, Settle;
    if n == 2 {
      FirstExtra(p);
      PowFirst();
    } else {
      ExtraBound(n - 1, p);
      NextExtra(n - 1, p);
      PowStep(63, n - 1);
      PowStep(64, n - 2);
      ScaleBoth(Pow(63, n - 2), Pow(64, n - 3), Extra(n - 1, p).required + 62, Extra(n, p).required + 62,
                65 * p + 3968);
    }
  }

  lemma PowFirst()
    ensures Pow(63, 1) == 63 && Pow(64, 0) == 1
  {
    assert Pow(63, 0) == 1;
  }

  lemma FirstExtra(p: nat)
    ensures Extra(2, p).used == p && 63 * (Extra(2, p).required + 62) <= 65 * p + 3968
  {
    assert Extra(1, p) == GasItem(2 * p, 2 * p);
    assert Extra(2, p) == Settle(p, Extra(1, p));
  }

  lemma NextExtra(n: nat, p: nat)
    requires n >= 1 && Extra(n, p).used == p
    ensures Extra(n + 1, p).used == p
    ensures 63 * (Extra(n + 1, p).required + 62) <= 64 * (Extra(n, p).required + 62)
  {
    assert Extra(n + 1, p) == Settle(p, Extra(n, p));
  }

  lemma ScaleBoth(a: nat, b: nat, x: int, y: int, c: nat)
    requires a * x <= b * c && 63 * y <= 64 * x
    ensures (63 * a) * y <= (64 * b) * c
  {
    ScaleUp(a, 63 * y, 64 * x);
    assert a * (63 * y) == (63 * a) * y;
    assert a * (64 * x) == 64 * (a * x);
    assert 64 * (b * c) == (64 * b) * c;
  }

  /** From this price on, a limit that is `c` at price zero falls short. */
  function ShortFrom(c: nat): nat {
    508033 + 4096 * c
  }

  /** The amount the tracer reports, with the priced call two or more frames down, does not reach it. */
  lemma FallsShort(n: nat, p: nat, c: nat, limit: int)
    requires n >= 2 && p >= ShortFrom(c)
    requires limit <= c + Extra(n, p).required
    ensures !Reaches(limit, n, p)
  {
    ExtraBound(n, p);
    hide Extra;
    var a, b, e := Pow(63, n - 1), Pow(64, n - 2), Extra(n, p).required;
    PowPositive(64, n - 2);
    PowBelow(n - 1);
    hide Pow;
    PowStep(63, n);
    PowStep(64, n - 1);
    PowStep(64, n);
    Short(a, b, e, p, c, limit);
  }

  lemma {:induction false} PowBelow(n: nat)
    ensures Pow(63, n) <= Pow(64, n)
    decreases n
  {
    if n > 0 {
      PowBelow(n - 1);
    }
  }

  lemma Short(a: nat, b: nat, e: int, p: nat, c: nat, limit: int)
    requires b > 0 && a <= 64 * b && a * (e + 62) <= b * (65 * p + 3968)
    requires p >= ShortFrom(c) && limit <= c + e
    ensures (63 * a) * (limit - 63) < (4096 * b) * (p - 63)
  {
    ScaleUp(a, limit - 63, (e + 62) + c);
    assert a * ((e + 62) + c) == a * (e + 62) + a * c;
    assert a * c <= (64 * b) * c by { ScaleUp(c, a, 64 * b); }
    assert a * (limit - 63) <= b * (65 * p + 3968 + 64 * c);
    assert (63 * a) * (limit - 63) == 63 * (a * (limit - 63));
    assert 63 * (b * (65 * p + 3968 + 64 * c)) == b * (63 * (65 * p + 3968 + 64 * c));
    assert 63 * (65 * p + 3968 + 64 * c) < 4096 * (p - 63);
    StrictUp(b, 63 * (65 * p + 3968 + 64 * c), 4096 * (p - 63));
    assert b * (4096 * (p - 63)) == (4096 * b) * (p - 63);
  }

  lemma StrictUp(k: nat, x: int, y: int)
    requires k > 0 && x < y
    ensures k * x < k * y
  {
  }

  // ---------------------------------------------------------------- transactions

  /** The reported limit runs every call of the execution phase to the end at its recorded cost. */
  ghost predicate Enough(tx: Body) {
    var r := Run(INITIAL, BodyEvents(tx, 1));
    && r.Some?
    && forall f | f in ExecutionFrames(tx, 0) ::
         && r.value.executionGasLimit >= f.used
         && Execute(f, r.value.executionGasLimit) == Some(r.value.executionGasLimit - f.used)
  }

  ghost predicate AllRecorded(tx: Body) {
    forall f | f in ExecutionFrames(tx, 0) :: Recorded(f)
  }

  /** Every priced call without code of the execution phase is made directly by a call at depth 2. */
  predicate AllFit(tx: Body, marker: nat) {
    match tx
    case Done => true
    case Op(opcode, _, _, _, rest) => AllFit(rest, MarkerAfter(opcode, marker))
    case Call(f, rest) => (marker == EXECUTION_MARKER ==> Fits(f)) && AllFit(rest, marker)
  }

  lemma {:induction false} AllFitFrames(tx: Body, marker: nat)
    ensures AllFit(tx, marker) <==> forall f | f in ExecutionFrames(tx, marker) :: Fits(f)
    decreases tx
  {
    hide Fits;
    match tx
    case Done =>
    case Op(opcode, _, _, _, rest) => AllFitFrames(rest, MarkerAfter(opcode, marker));
    case Call(f, rest) =>
      AllFitFrames(rest, marker);
      if marker == EXECUTION_MARKER {
        assert ExecutionFrames(tx, marker) == [f] + ExecutionFrames(rest, marker);
      }
  }

  lemma {:induction false} SameAllFit(tx: Body, tx': Body, marker: nat)
    requires SameBody(tx, tx') && AllFit(tx, marker)
    ensures AllFit(tx', marker)
    decreases tx
  {
    hide SameTree, Fits;
    match tx
    case Done =>
    case Op(opcode, _, _, _, rest) => SameAllFit(rest, tx'.rest, MarkerAfter(opcode, marker));
    case Call(f, rest) =>
      if marker == EXECUTION_MARKER { SameFits(f, tx'.callee); }
      SameAllFit(rest, tx'.rest, marker);
  }

  /** The first call of the execution phase that does not fit, the transaction with its first offending
      call at price `p`, and how often gas is passed on before it gets there. */
  function Misfit(tx: Body, marker: nat): (f: Frame)
    requires !AllFit(tx, marker)
    ensures !Fits(f)
  {
    if tx.Op? then Misfit(tx.rest, MarkerAfter(tx.opcode, marker))
    else if marker == EXECUTION_MARKER && !Fits(tx.callee) then tx.callee
    else Misfit(tx.rest, marker)
  }

  function PutTop(f: Frame, p: nat): Frame
    requires !Fits(f)
  {
    if f.body.Done? then f.(used := p) else Paying(PutBody(f.body, true, p), f)
  }

  function PutTx(tx: Body, marker: nat, p: nat): Body
    requires !AllFit(tx, marker)
  {
    if tx.Op? then Op(tx.opcode, tx.gas, tx.cost, tx.own, PutTx(tx.rest, MarkerAfter(tx.opcode, marker), p))
    else if marker == EXECUTION_MARKER && !Fits(tx.callee) then Call(PutTop(tx.callee, p), ZeroBody(tx.rest))
    else Call(Zero(tx.callee), PutTx(tx.rest, marker, p))
  }

  /** What the price adds to the item of a misfit; a call without code at depth 2 is not counted. */
  function TopExtra(f: Frame, p: nat): int
    requires !Fits(f)
  {
    if f.body.Done? then 0 else Extra(LevelBody(f.body, true) + 1, p).required
  }

  lemma PutTopIsSame(f: Frame, p: nat)
    requires !Fits(f)
    ensures SameTree(f, PutTop(f, p)) && Recorded(PutTop(f, p))
  {
    if !f.body.Done? {
      PutBodyIsSame(f.body, true, p);
      BodyStays(f.body, PutBody(f.body, true, p));
    }
  }

  lemma {:induction false} PutTxIsSame(tx: Body, marker: nat, p: nat)
    requires !AllFit(tx, marker)
    ensures SameBody(tx, PutTx(tx, marker, p)) && RecordedBody(PutTx(tx, marker, p))
    ensures PutTop(Misfit(tx, marker), p) in ExecutionFrames(PutTx(tx, marker, p), marker)
    decreases tx
  {
    hide SameTree, Fits, Recorded, PutTop, Zero;
    if tx.Op? {
      PutTxIsSame(tx.rest, MarkerAfter(tx.opcode, marker), p);
    } else if marker == EXECUTION_MARKER && !Fits(tx.callee) {
      PutTopIsSame(tx.callee, p);
      ZeroBodyIsSame(tx.rest);
    } else {
      ZeroIsSame(tx.callee);
      PutTxIsSame(tx.rest, marker, p);
    }
  }

  lemma {:induction false} RecordedFrames(tx: Body, marker: nat)
    requires RecordedBody(tx)
    ensures forall f | f in ExecutionFrames(tx, marker) :: Recorded(f)
    decreases tx
  {
    hide Recorded;
    match tx
    case Done =>
    case Op(opcode, _, _, _, rest) => RecordedFrames(rest, MarkerAfter(opcode, marker));
    case Call(f, rest) => RecordedFrames(rest, marker);
  }

  lemma PutTopGas(f: Frame, marker: nat, p: nat)
    requires !Fits(f) && marker == EXECUTION_MARKER && EvmFrame(f)
    ensures CallGas(PutTop(f, p), marker).required <= CallGas(Zero(f), marker).required + TopExtra(f, p)
  {
    hide FrameGas, Extra, WithReserve;
    if !f.body.Done? {
      PutGas(f, true, p);
      PutBodyIsSame(f.body, true, p);
      BodyStays(f.body, PutBody(f.body, true, p));
      ZeroBodyIsSame(f.body);
      BodyStays(f.body, ZeroBody(f.body));
    }
  }

  lemma {:induction false} PutTxGas(tx: Body, marker: nat, p: nat)
    requires !AllFit(tx, marker) && Resumes(tx)
    ensures ExecutionGas(PutTx(tx, marker, p), marker).required
            <= ExecutionGas(ZeroBody(tx), marker).required + TopExtra(Misfit(tx, marker), p)
    decreases tx
  {
    hide CallGas, Fits, PutTop, Zero, TopExtra, EvmFrame;
    if tx.Op? {
      PutTxGas(tx.rest, MarkerAfter(tx.opcode, marker), p);
    } else if marker == EXECUTION_MARKER && !Fits(tx.callee) {
      PutTopGas(tx.callee, marker, p);
    } else {
      PutTxGas(tx.rest, marker, p);
    }
  }

  lemma {:induction false} OffenderHasCode(b: Body)
    requires !Tame(b, true)
    ensures LevelBody(b, true) >= 1
    decreases b
  {
    if b.Op? || Skips(b.callee, true) {
      OffenderHasCode(b.rest);
    }
  }

  /** A misfit at a price from ShortFrom(c) up runs out of a limit that is `c` and the price's extra. */
  lemma MisfitRunsOut(f: Frame, p: nat, c: nat, limit: nat)
    requires !Fits(f) && p >= ShortFrom(c) && limit <= c + TopExtra(f, p)
    ensures Execute(PutTop(f, p), limit) == None
  {
    hide Extra, Reaches;
    if !f.body.Done? {
      var n := LevelBody(f.body, true) + 1;
      OffenderHasCode(f.body);
      FallsShort(n, p, c, limit);
      PutBodyIsSame(f.body, true, p);
      BodyStays(f.body, PutBody(f.body, true, p));
      hide TopExtra;
      if Execute(PutTop(f, p), limit).Some? {
        BodyNeedsReach(f.body, true, p, limit);
      }
    }
  }

  /** The limit at price zero. */
  function FreeLimit(tx: Body): int {
    ExecutionGas(ZeroBody(tx), 0).required
  }

  lemma FreeLimitIsNat(tx: Body)
    requires Resumes(tx)
    ensures FreeLimit(tx) >= 0
  {
    hide ExecutionGas, Required, Fits, Recorded;
    var zero := ZeroBody(tx);
    ZeroBodyIsSame(tx);
    SameResumes(tx, zero);
    ZeroFits(tx, 0);
    AllFitFrames(zero, 0);
    RecordedFrames(zero, 0);
    TotalCovers(zero, 0);
    NonNegativeTotal(ExecutionFrames(zero, 0));
  }

  lemma {:induction false} ZeroFits(tx: Body, marker: nat)
    ensures AllFit(ZeroBody(tx), marker)
    decreases tx
  {
    match tx
    case Done =>
    case Op(opcode, _, _, _, rest) => ZeroFits(rest, MarkerAfter(opcode, marker));
    case Call(f, rest) =>
      ZeroFits(rest, marker);
      if !f.body.Done? {
        ZeroBodyIsTame(f.body);
        ZeroBodyIsSame(f.body);
        BodyStays(f.body, ZeroBody(f.body));
      }
  }

  /** With one priced call anywhere else, a transaction fails at some price. */
  lemma SomePriceFails(tx: Body)
    requires tx.Op? && Resumes(tx) && !AllFit(tx, 0)
    ensures FreeLimit(tx) >= 0
    ensures var tx' := PutTx(tx, 0, ShortFrom(FreeLimit(tx)));
            SameBody(tx, tx') && AllRecorded(tx') && !Enough(tx')
  {
    hide ExecutionGas, Misfit, PutTop, TopExtra, Execute, Run, BodyEvents, Fits, ShortFrom, SameTree, RecordedBody;
    FreeLimitIsNat(tx);
    var c := FreeLimit(tx);
    var p := ShortFrom(c);
    var tx', f := PutTx(tx, 0, p), Misfit(tx, 0);
    PutTxIsSame(tx, 0, p);
    RecordedFrames(tx', 0);
    SameResumes(tx, tx');
    LimitIsTotalGas(tx');
    PutTxGas(tx, 0, p);
    var limit := Run(INITIAL, BodyEvents(tx', 1)).value.executionGasLimit;
    if limit >= 0 {
      MisfitRunsOut(f, p, c, limit);
    }
    assert PutTop(f, p) in ExecutionFrames(tx', 0);
  }

  /** The reported limit is enough at every price of the calls without code if and only if each of
      them that is priced is made directly by a call at depth 2. */
  lemma EnoughAtEveryPriceIff(tx: Body)
    requires tx.Op? && Resumes(tx)
    ensures (forall tx' | SameBody(tx, tx') && AllRecorded(tx') :: Enough(tx')) <==> AllFit(tx, 0)
  {
    hide SameBody, AllRecorded, Enough, AllFit, FreeLimit, ShortFrom, Resumes;
    if AllFit(tx, 0) {
      forall tx' | SameBody(tx, tx') && AllRecorded(tx') ensures Enough(tx') {
        FitsIsEnough(tx, tx');
      }
    } else {
      SomePriceFails(tx);
    }
  }

  lemma FitsIsEnough(tx: Body, tx': Body)
    requires tx.Op? && Resumes(tx) && AllFit(tx, 0) && SameBody(tx, tx') && AllRecorded(tx')
    ensures Enough(tx')
  {
    SameResumes(tx, tx');
    SameAllFit(tx, tx', 0);
    AllFitFrames(tx', 0);
    BodyStays(tx, tx');
    hide Run, BodyEvents, Execute, Fits, Recorded, SameBody, AllFit, ExecutionGas, ExecutionFrames;
    LimitIsTotalGas(tx');
    forall f | f in ExecutionFrames(tx', 0)
      ensures var r := Run(INITIAL, BodyEvents(tx', 1)).value;
              r.executionGasLimit >= f.used
              && Execute(f, r.executionGasLimit) == Some(r.executionGasLimit - f.used)
    {
      LimitIsEnough(tx', f);
    }
  }
}
