/** Which messages of the node send the estimator's searches up and down. */
module EstimatorMessages {
  import opened Text
  import opened GasEstimate

  lemma {:induction false} ContainsInside(pre: string, part: string, post: string)
    ensures Contains(pre + part + post, part)
    decreases |pre|
  {
    var s := pre + part + post;
    if pre == [] {
      assert s[..|part|] == part;
    } else {
      assert s[1..] == pre[1..] + part + post;
      ContainsInside(pre[1..], part, post);
    }
  }

  lemma {:induction false} ContainsItsLetters(s: string, part: string, c: char)
    requires Contains(s, part) && c in part
    ensures c in s
    decreases |s|
  {
    if part <= s {
      assert part == s[..|part|];
    } else {
      ContainsItsLetters(s[1..], part, c);
    }
  }

  /** The entry point's codes for a missing prefund. */
  predicate NamesPrefund(text: string) {
    text == "AA21 didn't pay prefund" || text == "AA31 paymaster deposit too low"
  }

  /** What the entry point, the node and the tracer say when validation runs out of gas. */
  predicate NamesValidation(text: string) {
    NamesLimit(text) || NamesRevert(text) || NamesOther(text)
  }

  predicate NamesLimit(text: string) {
    text == "AA40 over verificationGasLimit" || text == "AA41 too little verificationGas"
  }

  predicate NamesRevert(text: string) {
    || text == "AA51 prefund below actualGasCost" || text == "AA13 initCode failed or OOG"
    || text == "AA23 reverted" || text == "AA33 reverted"
  }

  predicate NamesOther(text: string) {
    text == "return data out of bounds" || text == "validation OOG"
  }

  predicate NamesExecution(text: string) {
    text == "execution OOG" || text == "execution reverted"
  }

  /** Wherever it stands in a message, a missing prefund sends either search down. */
  lemma PrefundSendsDown(target: Target, pre: string, text: string, post: string)
    requires NamesPrefund(text)
    ensures LacksPrefund(Failed(pre + text + post))
    ensures Judge(target, Failed(pre + text + post)) == TooHigh
  {
    ContainsInside(pre, text, post);
  }

  lemma NoPrefundWithoutY(s: string)
    requires 'y' !in s
    ensures !IsPrefundNotPaid(s)
  {
    var first, second := "AA21 didn't pay prefund", "AA31 paymaster deposit too low";
    assert first[14] == 'y' && second[7] == 'y';
    hide Contains;
    if Contains(s, first) { ContainsItsLetters(s, first, 'y'); }
    if Contains(s, second) { ContainsItsLetters(s, second, 'y'); }
  }

  /** Lack of gas in validation sends the first search up and starts another attempt, unless the message
      could also be one of a missing prefund: those all have a letter y. */
  lemma ValidationSendsUp(pre: string, text: string, post: string)
    requires NamesValidation(text) && 'y' !in pre + post
    ensures IsValidationOOG(pre + text + post)
    ensures LacksGas(Verification, Failed(pre + text + post))
    ensures Judge(Verification, Failed(pre + text + post)) == TooLow
  {
    hide Contains, IsPrefundNotPaid;
    ContainsInside(pre, text, post);
    assert IsValidationOOG(pre + text + post);
    hide IsValidationOOG;
    NoLetterY(text);
    hide NamesValidation;
    NoPrefundWithoutY(pre + text + post);
  }

  lemma NoLetterY(text: string)
    requires NamesValidation(text)
    ensures 'y' !in text
  {
    hide NamesLimit, NamesRevert, NamesOther;
    if NamesLimit(text) {
      NoLetterYInLimits(text);
    } else if NamesRevert(text) {
      NoLetterYInReverts(text);
    } else {
      NoLetterYElsewhere(text);
    }
  }

  lemma NoLetterYInLimits(text: string)
    requires NamesLimit(text)
    ensures 'y' !in text
  {
  }

  lemma NoLetterYInReverts(text: string)
    requires NamesRevert(text)
    ensures 'y' !in text
  {
  }

  lemma NoLetterYElsewhere(text: string)
    requires NamesOther(text)
    ensures 'y' !in text
  {
  }

  /** Lack of gas in execution, or a revert, sends the second search up. */
  lemma ExecutionSendsUp(vgl: int, pre: string, text: string, post: string)
    requires NamesExecution(text) && 'y' !in pre + post
    ensures IsExecutionOOG(pre + text + post) || IsExecutionReverted(pre + text + post)
    ensures LacksGas(CallGas(vgl), Failed(pre + text + post))
    ensures Judge(CallGas(vgl), Failed(pre + text + post)) == TooLow
  {
    assert 'y' !in text;
    ContainsInside(pre, text, post);
    NoPrefundWithoutY(pre + text + post);
    hide Contains;
  }
}
