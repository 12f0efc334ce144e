/** The database keys of pkg/mempool/db.go. */
module DbKeys {
  import opened Text

  datatype Key = Key(aiMiddleware: Address, sender: Address, nonce: nat)

  const KEY_PREFIX := "mempool"

  function KeyParts(k: Key, checksum: Checksum): seq<string> {
    [KEY_PREFIX, AddressText(k.aiMiddleware, checksum), AddressText(k.sender, checksum), Digits(k.nonce, 10)]
  }

  function UniqueKey(k: Key, checksum: Checksum): string {
    Join(KeyParts(k, checksum))
  }

  /** The middleware of a key; None is the panic on a key with one part only. */
  function AiMiddlewareFromDBKey(key: string): Option<Address> {
    var parts := Split(key);
    if |parts| < 2 then None else Some(ParseAddress(parts[1]))
  }

  lemma SplitUniqueKey(k: Key, checksum: Checksum)
    ensures Split(UniqueKey(k, checksum)) == KeyParts(k, checksum)
  {
    hide AddressText, Digits, Split, Join;
    AddressTextHasNoColon(k.aiMiddleware, checksum);
    AddressTextHasNoColon(k.sender, checksum);
    DigitsHasNo(k.nonce, 10, ':');
    SplitOfJoin(KeyParts(k, checksum));
  }

  /** The middleware parsed from a key is the one it was built from. */
  lemma AiMiddlewareOfUniqueKey(k: Key, checksum: Checksum)
    ensures AiMiddlewareFromDBKey(UniqueKey(k, checksum)) == Some(k.aiMiddleware)
  {
    hide AddressText, Digits, Split, UniqueKey, ParseAddress;
    SplitUniqueKey(k, checksum);
    ParseAddressText(k.aiMiddleware, checksum);
  }

  /** Two operations share a database key only if middleware, sender and nonce are all equal. */
  lemma UniqueKeyInjective(k: Key, k': Key, checksum: Checksum)
    requires UniqueKey(k, checksum) == UniqueKey(k', checksum)
    ensures k == k'
  {
    hide AddressText, Digits, Split, UniqueKey, ParseAddress, ParseDigits;
    SplitUniqueKey(k, checksum);
    SplitUniqueKey(k', checksum);
    var parts, parts' := KeyParts(k, checksum), KeyParts(k', checksum);
    assert parts[1] == parts'[1] && parts[2] == parts'[2] && parts[3] == parts'[3];
    ParseAddressText(k.aiMiddleware, checksum);
    ParseAddressText(k'.aiMiddleware, checksum);
    ParseAddressText(k.sender, checksum);
    ParseAddressText(k'.sender, checksum);
    ParseDigitsOfDigits(k.nonce, 10);
    ParseDigitsOfDigits(k'.nonce, 10);
  }
}
