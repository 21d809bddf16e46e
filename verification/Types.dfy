/** The values the services exchange (server/src/common/types.ts). Text is
    UTF-16; signatures are symbolic. */
module Types {
  import opened Canonical
  import Codec
  import Frost

  datatype Request = Request(requestId: Text, meterId: Text, amountKwh: Number, merchantId: Text, timestamp: Text)

  /** Exactly what the bank signs. */
  datatype DebitPayload = DebitPayload(
    debitRef: Text, requestId: Text, meterId: Text, amountKwh: Number,
    amount: Number, currency: Text, confirmedAt: Text)

  /** A signature string is either the signature a key gives on a payload or
      something that verifies for nothing. */
  datatype BankSignature = SignedBy(key: Text, payload: DebitPayload) | Forged

  datatype Debit = Debit(payload: DebitPayload, bankSignature: BankSignature)

  datatype DebitRequest = DebitRequest(
    requestId: Text, merchantId: Text, meterId: Text, amountKwh: Number, amount: Number, currency: Text)

  datatype TokenPayload = TokenPayload(meterId: Text, amountKwh: Number, debitRef: Text, nonce: Text)

  /** The group key's signature on a message, or something that verifies for nothing. */
  datatype GroupSignature = GroupSigned(message: Text) | NotAGroupSignature

  datatype Token = Token(payload: TokenPayload, signature: GroupSignature)

  datatype SignerId = Utility | CityA | CityB

  const ALL_SIGNERS: set<SignerId> := {Utility, CityA, CityB}

  /** What the services share and this model leaves open: how numbers print and
      text is encoded, SHA-256 as hex, the price function, the pinned bank key,
      the members' ledger accounts, and the FROST suite with the published group. */
  datatype Env = Env(
    number: Number -> Text, utf8: Text -> Codec.Bytes, sha256Hex: Text -> Text, price: Number -> Number,
    currency: Text, bankKey: Text, members: map<Text, SignerId>, quorum: nat, threshold: nat,
    suite: Frost.GroupSuite, group: Frost.Group)

  function Ascii(s: string): Text {
    seq(|s|, i requires 0 <= i < |s| => s[i] as int % 0x10000)
  }
}
