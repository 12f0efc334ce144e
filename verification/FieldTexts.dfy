/** What an operation's fields may be written as (pkg/aiop/parse.go): integers in any of the bases the decoder
    knows, after an optional sign, or as JSON numbers; bytes in hexadecimal. */
module FieldTexts {
  import opened Text
  import opened AiOp

  datatype Base = Binary | Octal | Decimal | Hexadecimal

  function Radix(b: Base): (radix: nat)
    ensures 2 <= radix <= 16
  {
    match b
    case Binary => 2
    case Octal => 8
    case Decimal => 10
    case Hexadecimal => 16
  }

  /** The prefixes that choose a base; octal has one of a single 0 too. */
  predicate Prefixes(prefix: string, b: Base) {
    match b
    case Binary => prefix == "0b" || prefix == "0B"
    case Octal => prefix == "0o" || prefix == "0O" || prefix == "0"
    case Decimal => prefix == ""
    case Hexadecimal => prefix == "0x" || prefix == "0X"
  }

  /** The first digit, which is 0 for 0 only. */
  lemma {:induction false} FirstDigit(n: nat, base: nat) returns (d: nat)
    requires 2 <= base <= 16
    ensures d < base && Digits(n, base)[0] == Digit(d, false) && (n > 0 ==> d > 0)
    decreases n
  {
    hide Digit;
    if n >= base {
      d := FirstDigit(n / base, base);
    } else {
      d := n;
    }
  }

  lemma DigitIsNoSign(d: nat)
    requires d < 16
    ensures Digit(d, false) != '-' && Digit(d, false) != '+' && (d > 0 ==> Digit(d, false) != '0')
    ensures d < 10 ==> '0' <= Digit(d, false) <= '9'
  {
  }

  lemma ZeroIsOneDigit()
    ensures |Digits(0, 10)| == 1
  {
  }

  lemma DecimalIsRead(n: nat)
    ensures ParseUnsigned(Digits(n, 10)) == Some(n) && Digits(n, 10)[0] != '-' && Digits(n, 10)[0] != '+'
  {
    var d := FirstDigit(n, 10);
    DigitIsNoSign(d);
    ParseDigitsOfDigits(n, 10);
    ZeroIsOneDigit();
    hide Digits, ParseDigits, Digit;
  }

  lemma PrefixedIsRead(n: nat, b: Base, prefix: string)
    requires Prefixes(prefix, b) && !b.Decimal? && |prefix| == 2
    ensures ParseUnsigned(prefix + Digits(n, Radix(b))) == Some(n)
  {
    ParseDigitsOfDigits(n, Radix(b));
    assert (prefix + Digits(n, Radix(b)))[2..] == Digits(n, Radix(b));
    hide Digits, ParseDigits;
  }

  lemma OldOctalIsRead(n: nat)
    ensures ParseUnsigned("0" + Digits(n, 8)) == Some(n)
  {
    var d := FirstDigit(n, 8);
    DigitIsNoSign(d);
    ParseDigitsOfDigits(n, 8);
    var text := "0" + Digits(n, 8);
    assert text[1..] == Digits(n, 8) && text[1] == Digits(n, 8)[0];
    hide Digits, ParseDigits, Digit;
  }

  lemma IsReadUnsigned(n: nat, b: Base, prefix: string)
    requires Prefixes(prefix, b)
    ensures var text := prefix + Digits(n, Radix(b));
            ParseUnsigned(text) == Some(n) && text[0] != '-' && text[0] != '+'
  {
    hide Digits, ParseUnsigned;
    if b.Decimal? {
      DecimalIsRead(n);
      assert prefix + Digits(n, 10) == Digits(n, 10);
    } else if |prefix| == 2 {
      PrefixedIsRead(n, b, prefix);
    } else {
      OldOctalIsRead(n);
    }
  }

  /** However an integer is written, it is read as the number it stands for. */
  lemma IntegerIsRead(n: nat, b: Base, prefix: string)
    requires Prefixes(prefix, b)
    ensures var text := prefix + Digits(n, Radix(b));
            && ParseInteger(text) == Some(n) && ParseInteger("+" + text) == Some(n)
            && ParseInteger("-" + text) == Some(0 - n)
  {
    var text := prefix + Digits(n, Radix(b));
    IsReadUnsigned(n, b, prefix);
    hide Digits, ParseUnsigned;
    assert ("+" + text)[1..] == text && ("-" + text)[1..] == text;
  }

  /** A field holds the integer it is written as, in any base or as a number; negative ones and missing
      fields are refused. */
  lemma FieldIsRead(n: nat, b: Base, prefix: string)
    requires Prefixes(prefix, b)
    ensures var text := prefix + Digits(n, Radix(b));
            && DecodeInteger(Value.Text(text)) == Some(n) && DecodeInteger(Number(n)) == Some(n)
            && (n > 0 ==> DecodeInteger(Value.Text("-" + text)) == None && DecodeInteger(Number(0 - n)) == None)
            && DecodeInteger(Missing) == None
  {
    hide ParseInteger, Digits;
    IntegerIsRead(n, b, prefix);
  }

  // ---------------------------------------------------------------- bytes

  predicate AllHex(s: string) {
    forall c | c in s :: DigitValue(c).Some?
  }

  lemma {:induction false} UnHexIff(s: string)
    ensures UnHex(s).Some? <==> |s| % 2 == 0 && AllHex(s)
    decreases |s|
  {
    hide DigitValue;
    if |s| >= 2 {
      UnHexIff(s[2..]);
      assert s == [s[0], s[1]] + s[2..];
    }
  }

  /** A field of bytes has to be text: "0x" and an even number of hexadecimal digits. */
  lemma BytesAreReadIff(v: Value)
    ensures DecodeBytes(v).Some?
            <==> v.Text? && |v.text| >= 2 && v.text[0] == '0' && v.text[1] == 'x'
                 && |v.text| % 2 == 0 && AllHex(v.text[2..])
  {
    hide UnHex, AllHex;
    if v.Text? && |v.text| >= 2 {
      UnHexIff(v.text[2..]);
      assert v.text[..2] == [v.text[0], v.text[1]];
    }
  }
}
