/** Sealed fields: what a key opens, and how fields are sealed and revealed. */
module Sealing {
  import opened Seqs

  const LOCKED_PLACEHOLDER := "[locked]"

  /** A key pair is known by one number; only its secret half opens what its public half sealed. */
  type Key = nat

  datatype Blob = Sealed(owner: Key, text: string) | Corrupt

  datatype UserCrypto = Plaintext | Locked(publicKey: Key) | Unlocked(publicKey: Key, secret: Key)

  function Unseal(secret: Key, blob: Blob): Option<string> {
    if blob.Sealed? && blob.owner == secret then Some(blob.text) else None
  }

  function Open(crypto: UserCrypto, blob: Blob): string {
    match crypto
    case Unlocked(_, secret) => Unseal(secret, blob).GetOr(LOCKED_PLACEHOLDER)
    case _ => LOCKED_PLACEHOLDER
  }

  function PublicKey(crypto: UserCrypto): Option<Key> {
    if crypto.Plaintext? then None else Some(crypto.publicKey)
  }

  /** The field after opening its sealed column, if it has one. */
  function OpenInto(field: string, enc: Option<Blob>, crypto: UserCrypto): string {
    if enc.Some? then Open(crypto, enc.value) else field
  }

  function OpenIntoOpt(field: Option<string>, enc: Option<Blob>, crypto: UserCrypto): Option<string> {
    if enc.Some? then Some(Open(crypto, enc.value)) else field
  }

  // ---- Sealing a value on its way into the tables ----

  predicate IsSentinelSymbol(s: string) {
    s == "CASH" || s == "DEBT" || s == "N/A" || s == ""
  }

  function SealRequired(pk: Option<Key>, plain: string): (string, Option<Blob>) {
    if pk.Some? then ("", Some(Sealed(pk.value, plain))) else (plain, None)
  }

  function SealOptional(pk: Option<Key>, plain: Option<string>): (Option<string>, Option<Blob>) {
    if pk.Some? && plain.Some? then (None, Some(Sealed(pk.value, plain.value))) else (plain, None)
  }

  function SealSymbol(pk: Option<Key>, symbol: Option<string>): (Option<string>, Option<Blob>) {
    if symbol.Some? && !IsSentinelSymbol(symbol.value) then SealOptional(pk, symbol) else (symbol, None)
  }

  /** The crypto context of a request by the user of these keys, or of a user without keys. */
  ghost predicate IsOwner(crypto: UserCrypto) {
    crypto.Plaintext? || (crypto.Unlocked? && crypto.publicKey == crypto.secret)
  }

  /** What the owner stores is what the owner reads back. */
  lemma SealedFieldsReadBack(crypto: UserCrypto, required: string, optional: Option<string>)
    requires IsOwner(crypto)
    ensures var (plain, enc) := SealRequired(PublicKey(crypto), required);
            OpenInto(plain, enc, crypto) == required
    ensures var (plain, enc) := SealOptional(PublicKey(crypto), optional);
            OpenIntoOpt(plain, enc, crypto) == optional
    ensures var (plain, enc) := SealSymbol(PublicKey(crypto), optional);
            OpenIntoOpt(plain, enc, crypto) == optional
  {
  }

  /** For an encrypted user nothing but sentinels stays readable in the plaintext columns. */
  lemma SealedFieldsAreHidden(crypto: UserCrypto, required: string, optional: Option<string>)
    requires !crypto.Plaintext?
    ensures SealRequired(PublicKey(crypto), required).0 == ""
    ensures SealOptional(PublicKey(crypto), optional).0 == None
    ensures var plain := SealSymbol(PublicKey(crypto), optional).0;
            plain.Some? ==> plain.value in ["CASH", "DEBT", "N/A", ""]
    ensures optional.Some? && optional.value in ["CASH", "DEBT", "N/A", ""] ==>
              SealSymbol(PublicKey(crypto), optional) == (optional, None)
  {
  }
}
