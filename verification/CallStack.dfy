/** Pairing the calls of a trace with their results: pkg/aimiddleware/simulation/callstack.go and the
    stack of internal/utils/stack.go. */
module CallStack {
  import opened Text

  class Stack<T> {
    var keys: seq<T>
    const zero: T

    /** `zero` is the zero value of the element type. */
    constructor (zero: T)
      ensures keys == [] && this.zero == zero
    {
      this.zero := zero;
      keys := [];
    }

    method Push(key: T)
      modifies this
      ensures keys == old(keys) + [key]
    {
      keys := keys + [key];
    }

    method Top() returns (x: T, ok: bool)
      ensures ok <==> keys != []
      ensures x == if ok then keys[|keys| - 1] else zero
    {
      x := zero;
      if |keys| > 0 {
        return keys[|keys| - 1], true;
      }
      return x, false;
    }

    method Pop() returns (x: T, ok: bool)
      modifies this
      ensures ok <==> old(keys) != []
      ensures if ok then old(keys) == keys + [x] else keys == [] && x == zero
    {
      x := zero;
      if |keys| > 0 {
        x, keys := keys[|keys| - 1], keys[..|keys| - 1];
        return x, true;
      }
      return x, false;
    }
  }

  /** A record of the tracer: a call that was entered, or the result of one (RETURN or REVERT). */
  datatype CallInfo = CallInfo(
    kind: string, from: Address, to: Address, methodSig: string, value: string, gas: nat, gasUsed: nat, data: string)

  datatype CallEntry = CallEntry(
    from: Address, to: Address, value: int, kind: string, methodSig: string, returned: string)

  const RETURN_OPCODE := "RETURN"
  const REVERT_OPCODE := "REVERT"

  predicate IsResult(call: CallInfo) {
    call.kind == REVERT_OPCODE || call.kind == RETURN_OPCODE
  }

  predicate IsCreate(call: CallInfo) {
    Contains(call.kind, "CREATE")
  }

  function ZeroCall(): CallInfo {
    CallInfo("", ZeroAddress(), ZeroAddress(), "", "", 0, 0, "")
  }

  /** A value that is not an integer counts as 0. */
  function ValueOf(call: CallInfo): int {
    var v := ParseInteger(call.value);
    if v.Some? then v.value else 0
  }

  function EntryOf(enter: CallInfo, result: CallInfo): CallEntry {
    CallEntry(enter.from, enter.to, ValueOf(enter), enter.kind, enter.methodSig, result.data)
  }

  /** What a call and its result add to the output. */
  function Entries(enter: CallInfo, result: CallInfo): seq<CallEntry> {
    if IsCreate(enter) || result.kind == REVERT_OPCODE then [] else [EntryOf(enter, result)]
  }

  // ---------------------------------------------------------------- one record after the other

  datatype Scan = Scan(stack: seq<CallInfo>, out: seq<CallEntry>)

  function Next(s: Scan, call: CallInfo): Scan {
    if !IsResult(call) then Scan(s.stack + [call], s.out)
    else if s.stack == [] then Scan([], s.out + Entries(ZeroCall(), call))
    else Scan(s.stack[..|s.stack| - 1], s.out + Entries(s.stack[|s.stack| - 1], call))
  }

  function After(s: Scan, calls: seq<CallInfo>): Scan
    decreases |calls|
  {
    if calls == [] then s else After(Next(s, calls[0]), calls[1..])
  }

  lemma {:induction false} AfterConcat(s: Scan, a: seq<CallInfo>, b: seq<CallInfo>)
    ensures After(s, a + b) == After(After(s, a), b)
    decreases |a|
  {
    hide Next;
    if a == [] {
      assert a + b == b;
    } else {
      assert (a + b)[1..] == a[1..] + b;
      AfterConcat(Next(s, a[0]), a[1..], b);
    }
  }

  lemma AfterOne(s: Scan, call: CallInfo)
    ensures After(s, [call]) == Next(s, call)
  {
    hide Next;
    assert [call][1..] == [];
  }

  lemma AfterNone(s: Scan, calls: seq<CallInfo>)
    ensures After(s, calls[..0]) == s
  {
  }

  lemma AfterSnoc(s: Scan, calls: seq<CallInfo>, i: nat)
    requires i < |calls|
    ensures After(s, calls[..i + 1]) == Next(After(s, calls[..i]), calls[i])
  {
    hide Next, After;
    assert calls[..i + 1] == calls[..i] + [calls[i]];
    AfterConcat(s, calls[..i], [calls[i]]);
    AfterOne(After(s, calls[..i]), calls[i]);
  }

  function Nothing(): Scan {
    Scan([], [])
  }

  method NewCallStack(calls: seq<CallInfo>) returns (out: seq<CallEntry>, ghost left: seq<CallInfo>)
    ensures Scan(left, out) == After(Nothing(), calls)
    ensures forall t | Bracketed(t) && calls == Trace(t) :: out == Returned(t) && left == []
  {
    hide After, IsCreate, ValueOf, ZeroAddress, Trace, Returned, Bracketed;
    var stack := new Stack<CallInfo>(ZeroCall());
    out := [];
    AfterNone(Nothing(), calls);
    var i := 0;
    while i < |calls|
      invariant 0 <= i <= |calls| && fresh(stack)
      invariant Scan(stack.keys, out) == After(Nothing(), calls[..i])
    {
      var call := calls[i];
      AfterSnoc(Nothing(), calls, i);
      if call.kind == REVERT_OPCODE || call.kind == RETURN_OPCODE {
        var top, _ := stack.Pop();
        if IsCreate(top) {
        } else if call.kind == REVERT_OPCODE {
        } else {
          out := out + [EntryOf(top, call)];
        }
      } else {
        stack.Push(call);
      }
      i := i + 1;
    }
    assert calls[..|calls|] == calls;
    left := stack.keys;
    forall t | Bracketed(t) && calls == Trace(t) ensures out == Returned(t) && left == [] {
      CallStackOfTrace(t);
    }
  }

  // ---------------------------------------------------------------- call trees

  /** Calls one after the other, each with the calls it makes inside. */
  datatype Calls = NoCalls | Call(enter: CallInfo, inner: Calls, result: CallInfo, rest: Calls)

  /** Enter records and results are where they should be. */
  predicate Bracketed(t: Calls) {
    match t
    case NoCalls => true
    case Call(enter, inner, result, rest) =>
      !IsResult(enter) && IsResult(result) && Bracketed(inner) && Bracketed(rest)
  }

  /** The records a tracer prints for the calls. */
  function Trace(t: Calls): seq<CallInfo> {
    match t
    case NoCalls => []
    case Call(enter, inner, result, rest) => [enter] + Trace(inner) + [result] + Trace(rest)
  }

  /** The calls that returned and create no contract, inner ones first. */
  function Returned(t: Calls): seq<CallEntry> {
    match t
    case NoCalls => []
    case Call(enter, inner, result, rest) =>
      Returned(inner) + OwnEntry(enter, result) + Returned(rest)
  }

  lemma ResultPops(stack: seq<CallInfo>, out: seq<CallEntry>, enter: CallInfo, result: CallInfo)
    requires IsResult(result)
    ensures Next(Scan(stack + [enter], out), result)
            == Scan(stack, out + OwnEntry(enter, result))
  {
    hide IsCreate, EntryOf;
    assert (stack + [enter])[..|stack|] == stack;
    assert RETURN_OPCODE != REVERT_OPCODE;
  }

  function OwnEntry(enter: CallInfo, result: CallInfo): seq<CallEntry> {
    if result.kind == RETURN_OPCODE && !IsCreate(enter) then [EntryOf(enter, result)] else []
  }

  /** A call, given what happens inside it. */
  lemma ScanOfCall(stack: seq<CallInfo>, out: seq<CallEntry>, enter: CallInfo, inside: seq<CallInfo>,
                   returned: seq<CallEntry>, result: CallInfo)
    requires !IsResult(enter) && IsResult(result)
    requires After(Scan(stack + [enter], out), inside) == Scan(stack + [enter], out + returned)
    ensures After(Scan(stack, out), [enter] + inside + [result])
            == Scan(stack, out + returned + OwnEntry(enter, result))
  {
    assert Next(Scan(stack, out), enter) == Scan(stack + [enter], out);
    ResultPops(stack, out + returned, enter, result);
    hide *;
    AfterOne(Scan(stack, out), enter);
    AfterConcat(Scan(stack, out), [enter], inside);
    AfterConcat(Scan(stack, out), [enter] + inside, [result]);
    AfterOne(Scan(stack + [enter], out + returned), result);
  }

  /** Scanning the trace of bracketed calls leaves the stack as it was and adds their entries. */
  lemma {:induction false} ScanOfTrace(t: Calls, stack: seq<CallInfo>, out: seq<CallEntry>)
    requires Bracketed(t)
    ensures After(Scan(stack, out), Trace(t)) == Scan(stack, out + Returned(t))
    decreases t
  {
    hide Next, IsCreate, IsResult, OwnEntry;
    match t
    case NoCalls =>
    case Call(enter, inner, result, rest) =>
      ScanOfTrace(inner, stack + [enter], out);
      ScanOfCall(stack, out, enter, Trace(inner), Returned(inner), result);
      var out' := out + Returned(inner) + OwnEntry(enter, result);
      ScanOfTrace(rest, stack, out');
      hide After;
      AfterConcat(Scan(stack, out), [enter] + Trace(inner) + [result], Trace(rest));
      assert out' + Returned(rest) == out + Returned(t);
  }

  /** For any sequence of call trees the output is exactly the calls that returned and create nothing,
      in post-order, each with its own record and its own return data; nothing is left on the stack. */
  lemma CallStackOfTrace(t: Calls)
    requires Bracketed(t)
    ensures After(Nothing(), Trace(t)) == Scan([], Returned(t))
  {
    ScanOfTrace(t, [], []);
    assert [] + Returned(t) == Returned(t);
  }

  /** The tracer prints no enter record for the top level but does print its result: a RETURN there is
      taken for the result of a call without sender, target or value. */
  lemma CallStackOfTopLevelResult(t: Calls, result: CallInfo)
    requires Bracketed(t) && IsResult(result)
    ensures After(Nothing(), Trace(t) + [result])
            == Scan([], Returned(t) + if result.kind == RETURN_OPCODE then [EntryOf(ZeroCall(), result)] else [])
  {
    CallStackOfTrace(t);
    ZeroCallCreatesNothing();
    hide After, Trace, Returned, IsCreate, ZeroCall, EntryOf;
    AfterConcat(Nothing(), Trace(t), [result]);
    AfterOne(Scan([], Returned(t)), result);
    assert RETURN_OPCODE != REVERT_OPCODE;
  }

  lemma ZeroCallCreatesNothing()
    ensures !IsCreate(ZeroCall())
  {
  }

  /** A trace that stops inside some calls: what came before each of them, and its enter record. */
  datatype Open = Open(before: Calls, enter: CallInfo)

  predicate AllOpen(open: seq<Open>) {
    forall o | o in open :: Bracketed(o.before) && !IsResult(o.enter)
  }

  function OpenTrace(open: seq<Open>): seq<CallInfo> {
    if open == [] then [] else Trace(open[0].before) + [open[0].enter] + OpenTrace(open[1..])
  }

  function OpenReturned(open: seq<Open>): seq<CallEntry> {
    if open == [] then [] else Returned(open[0].before) + OpenReturned(open[1..])
  }

  function OpenEnters(open: seq<Open>): seq<CallInfo> {
    if open == [] then [] else [open[0].enter] + OpenEnters(open[1..])
  }

  lemma ScanOfOpen(o: Open, stack: seq<CallInfo>, out: seq<CallEntry>)
    requires Bracketed(o.before) && !IsResult(o.enter)
    ensures After(Scan(stack, out), Trace(o.before) + [o.enter])
            == Scan(stack + [o.enter], out + Returned(o.before))
  {
    hide After, Trace, Returned, Bracketed, IsResult;
    ScanOfTrace(o.before, stack, out);
    AfterOne(Scan(stack, out + Returned(o.before)), o.enter);
    AfterConcat(Scan(stack, out), Trace(o.before), [o.enter]);
  }

  lemma ScansInSequence(s: Scan, head: seq<CallInfo>, enter: CallInfo, returned: seq<CallEntry>,
                        tail: seq<CallInfo>, enters: seq<CallInfo>, more: seq<CallEntry>)
    requires After(s, head) == Scan(s.stack + [enter], s.out + returned)
    requires After(Scan(s.stack + [enter], s.out + returned), tail)
             == Scan(s.stack + [enter] + enters, s.out + returned + more)
    ensures After(s, head + tail) == Scan(s.stack + ([enter] + enters), s.out + (returned + more))
  {
    hide *;
    AfterConcat(s, head, tail);
    assert s.stack + [enter] + enters == s.stack + ([enter] + enters);
    assert s.out + returned + more == s.out + (returned + more);
  }

  /** A trace cut short still yields every call that returned before the cut; what had not is left on
      the stack. */
  lemma {:induction false} CallStackOfCutTrace(open: seq<Open>, s: Scan)
    requires AllOpen(open)
    ensures After(s, OpenTrace(open)) == Scan(s.stack + OpenEnters(open), s.out + OpenReturned(open))
    decreases |open|
  {
    hide After, Next, Trace, Returned, Bracketed, IsResult;
    if open == [] {
      AfterNone(s, []);
    } else {
      var o, rest := open[0], open[1..];
      assert o in open;
      ScanOfOpen(o, s.stack, s.out);
      CallStackOfCutTrace(rest, Scan(s.stack + [o.enter], s.out + Returned(o.before)));
      ScansInSequence(s, Trace(o.before) + [o.enter], o.enter, Returned(o.before),
                      OpenTrace(rest), OpenEnters(rest), OpenReturned(rest));
    }
  }

  // ---------------------------------------------------------------- what an entry holds

  /** A call with its result. */
  datatype Matched = Matched(enter: CallInfo, result: CallInfo)

  /** The calls that return and do not create a contract, inner ones first. */
  function MatchedCalls(t: Calls): seq<Matched> {
    match t
    case NoCalls => []
    case Call(enter, inner, result, rest) =>
      MatchedCalls(inner)
      + (if result.kind == "RETURN" && !Contains(enter.kind, "CREATE") then [Matched(enter, result)] else [])
      + MatchedCalls(rest)
  }

  /** An entry has who was called by whom and how from the call, and the data from its result. */
  ghost predicate Describes(e: CallEntry, m: Matched) {
    && e.from == m.enter.from && e.to == m.enter.to
    && e.kind == m.enter.kind && e.methodSig == m.enter.methodSig
    && e.returned == m.result.data
    && (ParseInteger(m.enter.value) == None ==> e.value == 0)
    && forall n: nat :: m.enter.value == HexInteger(n) ==> e.value == n
  }

  lemma EntryDescribes(enter: CallInfo, result: CallInfo)
    ensures Describes(EntryOf(enter, result), Matched(enter, result))
  {
    hide ParseInteger, HexInteger;
    forall n: nat | enter.value == HexInteger(n) ensures ValueOf(enter) == n { ParseHexInteger(n); }
  }

  /** For every sequence of call trees there is one entry for each such call, in that order, and it describes
      that call and its own result. */
  lemma {:induction false} EntriesDescribeCalls(t: Calls)
    requires Bracketed(t)
    ensures var out := After(Nothing(), Trace(t)).out;
            |out| == |MatchedCalls(t)| && forall i | 0 <= i < |out| :: Describes(out[i], MatchedCalls(t)[i])
  {
    CallStackOfTrace(t);
    ReturnedDescribes(t);
  }

  lemma {:induction false} ReturnedDescribes(t: Calls)
    ensures |Returned(t)| == |MatchedCalls(t)|
    ensures forall i | 0 <= i < |Returned(t)| :: Describes(Returned(t)[i], MatchedCalls(t)[i])
    decreases t
  {
    hide Describes, EntryOf, Contains;
    match t
    case NoCalls =>
    case Call(enter, inner, result, rest) =>
      ReturnedDescribes(inner);
      ReturnedDescribes(rest);
      EntryDescribes(enter, result);
  }
}
