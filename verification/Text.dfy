/** Textual encodings: hexadecimal bytes, addresses, integers, and values joined by ':' as in
    internal/dbutils/utils.go. */
module Text {

  datatype Option<+T> = None | Some(value: T)

  type byte = b: int | 0 <= b < 256

  // ---------------------------------------------------------------- digits

  /** The digit for `d` in any base up to 16, in either case. */
  function Digit(d: nat, upper: bool): (c: char)
    requires d < 16
    ensures DigitValue(c) == Some(d) && c != ':' && c != '-' && c != '+' && c != 'x' && c != 'X'
  {
    if d < 10 then ('0' as int + d) as char
    else ((if upper then 'A' as int else 'a' as int) + d - 10) as char
  }

  function DigitValue(c: char): Option<nat> {
    if '0' <= c <= '9' then Some(c as int - '0' as int)
    else if 'a' <= c <= 'f' then Some(c as int - 'a' as int + 10)
    else if 'A' <= c <= 'F' then Some(c as int - 'A' as int + 10)
    else None
  }

  // ---------------------------------------------------------------- bytes

  /** Whether the nibble at a position is printed in upper case. */
  type Casing = nat -> bool

  /** The hexadecimal text of `bytes`; `at` is the position of its first nibble. */
  function Hex(bytes: seq<byte>, casing: Casing, at: nat): (s: string)
    ensures |s| == 2 * |bytes|
  {
    if bytes == [] then []
    else
      [Digit(bytes[0] / 16, casing(at)), Digit(bytes[0] % 16, casing(at + 1))]
      + Hex(bytes[1..], casing, at + 2)
  }

  function Lower(): Casing {
    _ => false
  }

  function UnHexPair(high: char, low: char): Option<byte> {
    var h, l := DigitValue(high), DigitValue(low);
    if h.None? || l.None? then None else Some(16 * h.value + l.value)
  }

  lemma UnHexPairOfByte(b: byte, upper: bool, upper': bool)
    ensures UnHexPair(Digit(b / 16, upper), Digit(b % 16, upper')) == Some(b)
  {
    hide Digit, DigitValue;
  }

  /** Strict decoding: an odd length or a character that is no digit is an error. */
  function UnHex(s: string): Option<seq<byte>> {
    if s == [] then Some([])
    else if |s| == 1 then None
    else
      var pair, rest := UnHexPair(s[0], s[1]), UnHex(s[2..]);
      if pair.None? || rest.None? then None else Some([pair.value] + rest.value)
  }

  /** Lenient decoding: the bytes before the first pair that does not decode. */
  function UnHexPrefix(s: string): seq<byte> {
    if |s| < 2 then []
    else
      var pair := UnHexPair(s[0], s[1]);
      if pair.None? then [] else [pair.value] + UnHexPrefix(s[2..])
  }

  lemma UnHexStep(s: string, b: byte, rest: seq<byte>)
    requires |s| >= 2 && UnHexPair(s[0], s[1]) == Some(b) && UnHex(s[2..]) == Some(rest)
    ensures UnHex(s) == Some([b] + rest)
  {
    hide UnHexPair;
  }

  /** Whatever the case of its letters, hexadecimal text decodes to the bytes it was made from,
      also in front of other text that decodes. */
  lemma {:induction false} UnHexOfHex(bytes: seq<byte>, casing: Casing, at: nat, tail: string)
    requires UnHex(tail).Some?
    ensures UnHex(Hex(bytes, casing, at) + tail) == Some(bytes + UnHex(tail).value)
    decreases |bytes|
  {
    hide Digit, UnHexPair, UnHex;
    var s, rest := Hex(bytes, casing, at) + tail, UnHex(tail).value;
    if bytes == [] {
      assert s == tail && bytes + rest == rest;
    } else {
      UnHexPairOfByte(bytes[0], casing(at), casing(at + 1));
      assert s[2..] == Hex(bytes[1..], casing, at + 2) + tail;
      UnHexOfHex(bytes[1..], casing, at + 2, tail);
      UnHexStep(s, bytes[0], bytes[1..] + rest);
      assert [bytes[0]] + (bytes[1..] + rest) == bytes + rest;
    }
  }

  lemma {:induction false} UnHexPrefixAgrees(s: string)
    requires UnHex(s).Some?
    ensures UnHexPrefix(s) == UnHex(s).value
    decreases |s|
  {
    if |s| >= 2 {
      UnHexPrefixAgrees(s[2..]);
    }
  }

  lemma {:induction false} HexHasNo(bytes: seq<byte>, casing: Casing, at: nat, c: char)
    requires c == ':' || c == 'x' || c == 'X'
    ensures c !in Hex(bytes, casing, at)
    decreases |bytes|
  {
    if bytes != [] {
      HexHasNo(bytes[1..], casing, at + 2, c);
    }
  }

  // ---------------------------------------------------------------- addresses

  function Zeros(n: nat): (bytes: seq<byte>)
    ensures |bytes| == n
  {
    if n == 0 then [] else Zeros(n - 1) + [0]
  }

  type Address = a: seq<byte> | |a| == 20 witness Zeros(20)

  function ZeroAddress(): Address {
    Zeros(20)
  }

  /** Which letters of an address the checksum of EIP-55 capitalises. */
  type Checksum = Address -> Casing

  function AddressText(a: Address, checksum: Checksum): string {
    "0x" + Hex(a, checksum(a), 0)
  }

  predicate HasHexPrefix(s: string) {
    |s| >= 2 && s[0] == '0' && (s[1] == 'x' || s[1] == 'X')
  }

  /** The last 20 bytes, padded with zeros on the left. */
  function LastTwenty(bytes: seq<byte>): Address {
    if |bytes| > 20 then bytes[|bytes| - 20..] else Zeros(20 - |bytes|) + bytes
  }

  /** HexToAddress: never fails, ignores what does not decode, and any checksum. */
  function ParseAddress(text: string): Address {
    var s := if HasHexPrefix(text) then text[2..] else text;
    LastTwenty(UnHexPrefix(if |s| % 2 == 1 then "0" + s else s))
  }

  lemma ParseAddressText(a: Address, checksum: Checksum)
    ensures ParseAddress(AddressText(a, checksum)) == a
  {
    var s := Hex(a, checksum(a), 0);
    UnHexOfHex(a, checksum(a), 0, []);
    assert s + [] == s && a + [] == a;
    UnHexPrefixAgrees(s);
    assert AddressText(a, checksum)[2..] == s;
  }

  lemma AddressTextHasNoColon(a: Address, checksum: Checksum)
    ensures ':' !in AddressText(a, checksum)
  {
    HexHasNo(a, checksum(a), 0, ':');
  }

  // ---------------------------------------------------------------- integers

  function Digits(n: nat, base: nat): (s: string)
    requires 2 <= base <= 16
    ensures s != []
    decreases n
  {
    if n < base then [Digit(n, false)] else Digits(n / base, base) + [Digit(n % base, false)]
  }

  function ParseDigits(s: string, base: nat): Option<nat> {
    if s == [] then None
    else
      var last := DigitValue(s[|s| - 1]);
      if last.None? || last.value >= base then None
      else if |s| == 1 then last
      else
        match ParseDigits(s[..|s| - 1], base)
        case None => None
        case Some(n) => Some(n * base + last.value)
  }

  lemma ParseDigit(d: nat, base: nat)
    requires 2 <= base <= 16 && d < base
    ensures ParseDigits([Digit(d, false)], base) == Some(d)
  {
    hide Digit, DigitValue;
  }

  lemma ParseDigitsAppend(s: string, d: nat, base: nat)
    requires 2 <= base <= 16 && d < base && s != [] && ParseDigits(s, base).Some?
    ensures ParseDigits(s + [Digit(d, false)], base)
            == Some(ParseDigits(s, base).value * base + d)
  {
    hide Digit, DigitValue;
    var t := s + [Digit(d, false)];
    assert t[..|t| - 1] == s;
  }

  lemma {:induction false} ParseDigitsOfDigits(n: nat, base: nat)
    requires 2 <= base <= 16
    ensures ParseDigits(Digits(n, base), base) == Some(n)
    decreases n
  {
    hide Digit, DigitValue, ParseDigits;
    if n >= base {
      ParseDigitsOfDigits(n / base, base);
      ParseDigitsAppend(Digits(n / base, base), n % base, base);
    } else {
      ParseDigit(n, base);
    }
  }

  lemma {:induction false} DigitsHasNo(n: nat, base: nat, c: char)
    requires 2 <= base <= 16 && (c == ':' || c == 'x' || c == 'X')
    ensures c !in Digits(n, base)
    decreases n
  {
    if n >= base {
      DigitsHasNo(n / base, base, c);
    }
  }

  predicate Contains(s: string, part: string) {
    part <= s || (s != [] && Contains(s[1..], part))
  }

  /** The integer a text denotes when its prefix chooses the base: "0x", "0b", "0o", or a leading
      0 for octal, each after an optional sign. */
  function ParseInteger(text: string): Option<int> {
    if text == [] then None
    else if text[0] == '-' then
      var n := ParseUnsigned(text[1..]);
      if n.None? then None else Some(0 - n.value)
    else if text[0] == '+' then ParseUnsigned(text[1..])
    else ParseUnsigned(text)
  }

  function ParseUnsigned(s: string): Option<nat> {
    if |s| < 2 || s[0] != '0' then ParseDigits(s, 10)
    else if s[1] == 'x' || s[1] == 'X' then ParseDigits(s[2..], 16)
    else if s[1] == 'b' || s[1] == 'B' then ParseDigits(s[2..], 2)
    else if s[1] == 'o' || s[1] == 'O' then ParseDigits(s[2..], 8)
    else ParseDigits(s[1..], 8)
  }

  function HexInteger(n: nat): string {
    "0x" + Digits(n, 16)
  }

  lemma ParseHexInteger(n: nat)
    ensures ParseInteger(HexInteger(n)) == Some(n)
  {
    ParseDigitsOfDigits(n, 16);
    assert HexInteger(n)[2..] == Digits(n, 16);
  }

  // ---------------------------------------------------------------- joined values

  function Join(values: seq<string>): string {
    if values == [] then []
    else if |values| == 1 then values[0]
    else values[0] + [':'] + Join(values[1..])
  }

  function Split(s: string): (values: seq<string>)
    ensures values != []
  {
    if s == [] then [[]]
    else
      var rest := Split(s[1..]);
      if s[0] == ':' then [[]] + rest else [[s[0]] + rest[0]] + rest[1..]
  }

  lemma {:induction false} SplitFirst(v: string, s: string)
    requires ':' !in v
    ensures Split(v + [':'] + s) == [v] + Split(s)
    decreases |v|
  {
    var t := v + [':'] + s;
    if v == [] {
      assert t == [':'] + s;
      assert t[1..] == s;
    } else {
      assert t[1..] == v[1..] + [':'] + s;
      SplitFirst(v[1..], s);
      var rest := Split(t[1..]);
      assert rest[0] == v[1..] && rest[1..] == Split(s);
      assert [v[0]] + v[1..] == v;
    }
  }

  lemma {:induction false} SplitSingle(v: string)
    requires ':' !in v
    ensures Split(v) == [v]
    decreases |v|
  {
    if v != [] {
      SplitSingle(v[1..]);
      assert [v[0]] + v[1..] == v;
    }
  }

  /** Values without a separator are recovered from their joined text. */
  lemma {:induction false} SplitOfJoin(values: seq<string>)
    requires values != [] && forall v | v in values :: ':' !in v
    ensures Split(Join(values)) == values
    decreases |values|
  {
    if |values| == 1 {
      SplitSingle(values[0]);
    } else {
      SplitFirst(values[0], Join(values[1..]));
      SplitOfJoin(values[1..]);
    }
  }
}
