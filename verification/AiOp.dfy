/** The operation object of pkg/aiop: its derived fields, its JSON form, and the decoder that
    accepts it back. */
module AiOp {
  import opened Text

  /** The integers are the non-negative ones that the decoder lets through. */
  datatype AiOperation = AiOperation(
    sender: Address,
    nonce: nat,
    initCode: seq<byte>,
    callData: seq<byte>,
    callGasLimit: nat,
    verificationGasLimit: nat,
    preVerificationGas: nat,
    maxFeePerGas: nat,
    maxPriorityFeePerGas: nat,
    paymasterAndData: seq<byte>,
    signature: seq<byte>)

  /** The first 20 bytes, or the zero address when there are fewer. */
  function LeadingAddress(bytes: seq<byte>): Address {
    if |bytes| < 20 then ZeroAddress() else bytes[..20]
  }

  function GetPaymaster(op: AiOperation): Address {
    LeadingAddress(op.paymasterAndData)
  }

  function GetFactory(op: AiOperation): Address {
    LeadingAddress(op.initCode)
  }

  function GetFactoryData(op: AiOperation): seq<byte> {
    if |op.initCode| < 20 then [] else op.initCode[20..]
  }

  function GetMaxGasAvailable(op: AiOperation): nat {
    var mul := if GetPaymaster(op) != ZeroAddress() then 3 else 1;
    op.verificationGasLimit * mul + (op.preVerificationGas + op.callGasLimit)
  }

  function GetMaxPrefund(op: AiOperation): nat {
    GetMaxGasAvailable(op) * op.maxFeePerGas
  }

  /** The effective price at a base fee: what remains for the tip is capped by the fee cap. */
  function GetDynamicGasPrice(op: AiOperation, baseFee: nat): nat {
    var price := baseFee + op.maxPriorityFeePerGas;
    if price > op.maxFeePerGas then op.maxFeePerGas else price
  }

  // ---------------------------------------------------------------- JSON

  /** A decoded JSON value of a field: text, a number, or nothing when the field is missing. */
  datatype Value = Text(text: string) | Number(number: int) | Missing

  datatype Json = Json(
    sender: Value,
    nonce: Value,
    initCode: Value,
    callData: Value,
    callGasLimit: Value,
    verificationGasLimit: Value,
    preVerificationGas: Value,
    maxFeePerGas: Value,
    maxPriorityFeePerGas: Value,
    paymasterAndData: Value,
    signature: Value)

  function BytesText(bytes: seq<byte>): string {
    "0x" + Hex(bytes, Lower(), 0)
  }

  /** The factory part of initCode is printed with its checksum. */
  function InitCodeText(op: AiOperation, checksum: Checksum): string {
    if GetFactory(op) == ZeroAddress() then "0x"
    else AddressText(GetFactory(op), checksum) + Hex(GetFactoryData(op), Lower(), 0)
  }

  function ToJson(op: AiOperation, checksum: Checksum): Json {
    Json(
      Text(AddressText(op.sender, checksum)),
      Text(HexInteger(op.nonce)),
      Text(InitCodeText(op, checksum)),
      Text(BytesText(op.callData)),
      Text(HexInteger(op.callGasLimit)),
      Text(HexInteger(op.verificationGasLimit)),
      Text(HexInteger(op.preVerificationGas)),
      Text(HexInteger(op.maxFeePerGas)),
      Text(HexInteger(op.maxPriorityFeePerGas)),
      Text(BytesText(op.paymasterAndData)),
      Text(BytesText(op.signature)))
  }

  function DecodeAddress(v: Value): Option<Address> {
    if v.Text? then Some(ParseAddress(v.text)) else None
  }

  /** Text in any base, or a number; negative values do not pass validation. */
  function DecodeInteger(v: Value): Option<nat> {
    match v
    case Text(text) => NonNegative(ParseInteger(text))
    case Number(n) => NonNegative(Some(n))
    case Missing => None
  }

  function NonNegative(n: Option<int>): Option<nat> {
    if n.Some? && n.value >= 0 then Some(n.value) else None
  }

  function DecodeBytes(v: Value): Option<seq<byte>> {
    if v.Text? && |v.text| >= 2 && v.text[..2] == "0x" then UnHex(v.text[2..]) else None
  }

  predicate Decodes(data: Json) {
    && DecodeAddress(data.sender).Some? && DecodeInteger(data.nonce).Some?
    && DecodeBytes(data.initCode).Some? && DecodeBytes(data.callData).Some?
    && DecodeInteger(data.callGasLimit).Some? && DecodeInteger(data.verificationGasLimit).Some?
    && DecodeInteger(data.preVerificationGas).Some? && DecodeInteger(data.maxFeePerGas).Some?
    && DecodeInteger(data.maxPriorityFeePerGas).Some? && DecodeBytes(data.paymasterAndData).Some?
    && DecodeBytes(data.signature).Some?
  }

  /** The decoder: every field must be there and decode, and the sender must not be zero. */
  function New(data: Json): Option<AiOperation> {
    if !Decodes(data) || DecodeAddress(data.sender).value == ZeroAddress() then None
    else
      Some(AiOperation(
        DecodeAddress(data.sender).value,
        DecodeInteger(data.nonce).value,
        DecodeBytes(data.initCode).value,
        DecodeBytes(data.callData).value,
        DecodeInteger(data.callGasLimit).value,
        DecodeInteger(data.verificationGasLimit).value,
        DecodeInteger(data.preVerificationGas).value,
        DecodeInteger(data.maxFeePerGas).value,
        DecodeInteger(data.maxPriorityFeePerGas).value,
        DecodeBytes(data.paymasterAndData).value,
        DecodeBytes(data.signature).value))
  }

  /** What is left of an operation once it is printed: an initCode without a factory is dropped. */
  function Printed(op: AiOperation): AiOperation {
    if GetFactory(op) == ZeroAddress() then op.(initCode := []) else op
  }

  /** Exactly when printing loses nothing. */
  predicate PrintsWhole(op: AiOperation) {
    op.initCode == [] || GetFactory(op) != ZeroAddress()
  }

  /** With a paymaster the gas of verification counts three times: for the account, the paymaster and what
      the paymaster does afterwards. */
  lemma PaymasterTriples(op: AiOperation)
    ensures var alone := op.(paymasterAndData := []);
            && GetMaxGasAvailable(alone) == op.callGasLimit + op.verificationGasLimit + op.preVerificationGas
            && GetMaxGasAvailable(op) == GetMaxGasAvailable(alone)
                                         + if GetPaymaster(op) == ZeroAddress() then 0 else 2 * op.verificationGasLimit
  {
  }

  lemma ProductAtMost(a: nat, b: nat, x: nat, y: nat)
    requires a <= x && b <= y
    ensures a * b <= x * y
  {
    assert a * b <= a * y;
    assert a * y <= x * y;
  }

  /** The prefund covers all the gas an operation may use at the price it pays under any base fee, and no
      less would do: at a base fee of its whole fee cap it pays the cap. */
  lemma PrefundIsEnough(op: AiOperation, gas: nat, baseFee: nat)
    requires gas <= GetMaxGasAvailable(op)
    ensures gas * GetDynamicGasPrice(op, baseFee) <= GetMaxPrefund(op)
    ensures GetMaxGasAvailable(op) * GetDynamicGasPrice(op, op.maxFeePerGas) == GetMaxPrefund(op)
  {
    hide GetMaxGasAvailable;
    ProductAtMost(gas, GetDynamicGasPrice(op, baseFee), GetMaxGasAvailable(op), op.maxFeePerGas);
  }

  lemma DecodeIntegerText(n: nat)
    ensures DecodeInteger(Text(HexInteger(n))) == Some(n)
  {
    hide HexInteger, ParseInteger;
    ParseHexInteger(n);
  }

  lemma DecodeBytesText(bytes: seq<byte>)
    ensures DecodeBytes(Text(BytesText(bytes))) == Some(bytes)
  {
    hide UnHex, Hex;
    var s := Hex(bytes, Lower(), 0);
    UnHexNothing();
    UnHexOfHex(bytes, Lower(), 0, []);
    assert s + [] == s && bytes + [] == bytes;
    assert BytesText(bytes)[2..] == s;
  }

  lemma UnHexNothing()
    ensures UnHex([]) == Some([])
  {
  }

  lemma DecodeInitCodeText(op: AiOperation, checksum: Checksum)
    ensures DecodeBytes(Text(InitCodeText(op, checksum))) == Some(Printed(op).initCode)
  {
    UnHexNothing();
    hide UnHex, Hex;
    var fa, data := GetFactory(op), GetFactoryData(op);
    if fa == ZeroAddress() {
      assert InitCodeText(op, checksum)[2..] == [];
    } else {
      UnHexOfHex(data, Lower(), 0, []);
      assert Hex(data, Lower(), 0) + [] == Hex(data, Lower(), 0) && data + [] == data;
      UnHexOfHex(fa, checksum(fa), 0, Hex(data, Lower(), 0));
      assert InitCodeText(op, checksum)[2..] == Hex(fa, checksum(fa), 0) + Hex(data, Lower(), 0);
      assert fa + data == op.initCode;
    }
  }

  /** Decoding a printed operation succeeds unless its sender is zero, and gives back what printing
      left of it. */
  lemma NewOfToJson(op: AiOperation, checksum: Checksum)
    ensures New(ToJson(op, checksum))
            == if op.sender == ZeroAddress() then None else Some(Printed(op))
  {
    hide DecodeAddress, DecodeInteger, DecodeBytes, AddressText, HexInteger, BytesText, InitCodeText;
    DecodeSenderText(op, checksum);
    DecodeInitCodeText(op, checksum);
    DecodeIntegerText(op.nonce);
    DecodeIntegerText(op.callGasLimit);
    DecodeIntegerText(op.verificationGasLimit);
    DecodeIntegerText(op.preVerificationGas);
    DecodeIntegerText(op.maxFeePerGas);
    DecodeIntegerText(op.maxPriorityFeePerGas);
    DecodeBytesText(op.callData);
    DecodeBytesText(op.paymasterAndData);
    DecodeBytesText(op.signature);
  }

  lemma DecodeSenderText(op: AiOperation, checksum: Checksum)
    ensures DecodeAddress(Text(AddressText(op.sender, checksum))) == Some(op.sender)
  {
    hide AddressText, ParseAddress;
    ParseAddressText(op.sender, checksum);
  }

  /** The round trip is the identity exactly for a sender that is not zero and an initCode that is
      empty or starts with a factory that is not zero. */
  lemma RoundTripIffPrintsWhole(op: AiOperation, checksum: Checksum)
    ensures New(ToJson(op, checksum)) == Some(op) <==> op.sender != ZeroAddress() && PrintsWhole(op)
  {
    hide New, ToJson;
    NewOfToJson(op, checksum);
  }

  /** Printing keeps every field the mempool indexes by, and printing twice loses no more. */
  lemma PrintedKeepsEntities(op: AiOperation)
    ensures var p := Printed(op);
            && p.sender == op.sender && p.nonce == op.nonce
            && GetFactory(p) == GetFactory(op) && GetPaymaster(p) == GetPaymaster(op)
            && p.maxFeePerGas == op.maxFeePerGas && p.maxPriorityFeePerGas == op.maxPriorityFeePerGas
            && Printed(p) == p && PrintsWhole(p)
  {
  }

  /** Every field of the printed operation holds the field of its name. */
  lemma PrintedFields(op: AiOperation, checksum: Checksum)
    ensures var data := ToJson(op, checksum);
            && DecodeAddress(data.sender) == Some(op.sender) && DecodeInteger(data.nonce) == Some(op.nonce)
            && DecodeBytes(data.initCode) == Some(Printed(op).initCode)
            && DecodeBytes(data.callData) == Some(op.callData)
            && DecodeInteger(data.callGasLimit) == Some(op.callGasLimit)
            && DecodeInteger(data.verificationGasLimit) == Some(op.verificationGasLimit)
            && DecodeInteger(data.preVerificationGas) == Some(op.preVerificationGas)
            && DecodeInteger(data.maxFeePerGas) == Some(op.maxFeePerGas)
            && DecodeInteger(data.maxPriorityFeePerGas) == Some(op.maxPriorityFeePerGas)
            && DecodeBytes(data.paymasterAndData) == Some(op.paymasterAndData)
            && DecodeBytes(data.signature) == Some(op.signature)
  {
    hide DecodeInteger, DecodeBytes, HexInteger, BytesText, AddressText, ParseAddress, InitCodeText, GetFactory;
    ParseAddressText(op.sender, checksum);
    DecodeInitCodeText(op, checksum);
    DecodeIntegerText(op.nonce);
    DecodeIntegerText(op.callGasLimit);
    DecodeIntegerText(op.verificationGasLimit);
    DecodeIntegerText(op.preVerificationGas);
    DecodeIntegerText(op.maxFeePerGas);
    DecodeIntegerText(op.maxPriorityFeePerGas);
    DecodeBytesText(op.callData);
    DecodeBytesText(op.paymasterAndData);
    DecodeBytesText(op.signature);
  }
}
