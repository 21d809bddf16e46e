/** The binding of a token to its debit and the signer's independent checks
    (server/src/common/token.ts, server/src/signer/verify.ts). */
module Verify {
  import opened Canonical
  import opened Printer
  import opened Types
  import opened Wrappers

  // ---- the one token a debit authorises -------------------------------------

  const NONCE_PREFIX := "twowalls/token-nonce/v1/"

  function DeriveTokenNonce(env: Env, debitRef: Text): Text {
    var digest := env.sha256Hex(Ascii(NONCE_PREFIX) + debitRef);
    if |digest| <= 32 then digest else digest[..32]
  }

  /** Two references get different nonces: the digests of the prefix with each
      differ within their first 32 units. */
  predicate NoncesApart(env: Env, a: Text, b: Text) {
    var x := env.sha256Hex(Ascii("twowalls/token-nonce/v1/") + a);
    var y := env.sha256Hex(Ascii("twowalls/token-nonce/v1/") + b);
    (if |x| > 32 then x[..32] else x) != if |y| > 32 then y[..32] else y
  }

  /** The nonce of a token depends on its debit's reference and on nothing else. */
  lemma NoncesApartIff(env: Env, a: DebitPayload, b: DebitPayload)
    ensures NoncesApart(env, a.debitRef, b.debitRef) <==>
            BuildTokenPayload(env, a).nonce != BuildTokenPayload(env, b).nonce
  {
  }

  function BuildTokenPayload(env: Env, debit: DebitPayload): TokenPayload {
    TokenPayload(debit.meterId, debit.amountKwh, debit.debitRef, DeriveTokenNonce(env, debit.debitRef))
  }

  // ---- what is hashed and signed --------------------------------------------

  const AMOUNT_KWH: Text := Ascii("amountKwh")
  const DEBIT_REF: Text := Ascii("debitRef")
  const MERCHANT_ID: Text := Ascii("merchantId")
  const METER_ID: Text := Ascii("meterId")
  const NONCE: Text := Ascii("nonce")
  const REQUEST_ID: Text := Ascii("requestId")
  const TIMESTAMP: Text := Ascii("timestamp")

  function TokenJson(p: TokenPayload): Json {
    Obj([Member(METER_ID, Str(p.meterId)), Member(AMOUNT_KWH, Num(p.amountKwh)),
         Member(DEBIT_REF, Str(p.debitRef)), Member(NONCE, Str(p.nonce))])
  }

  function RequestJson(r: Request): Json {
    Obj([Member(REQUEST_ID, Str(r.requestId)), Member(METER_ID, Str(r.meterId)), Member(AMOUNT_KWH, Num(r.amountKwh)),
         Member(MERCHANT_ID, Str(r.merchantId)), Member(TIMESTAMP, Str(r.timestamp))])
  }

  function Message(env: Env, p: TokenPayload): Text {
    CanonicalJson(env.number, TokenJson(p))
  }

  function HashRequest(env: Env, r: Request): Text {
    env.sha256Hex(CanonicalJson(env.number, RequestJson(r)))
  }

  /** The field names are told apart by their first unit or their length. */
  lemma FieldNames()
    ensures |AMOUNT_KWH| == 9 && |DEBIT_REF| == 8 && |MERCHANT_ID| == 10 && |METER_ID| == 7 && |NONCE| == 5
    ensures |REQUEST_ID| == 9 && |TIMESTAMP| == 9
    ensures AMOUNT_KWH[0] == 97 && REQUEST_ID[0] == 114 && TIMESTAMP[0] == 116
  {
  }

  lemma TokenJsonWellFormed(p: TokenPayload)
    ensures WellFormed(TokenJson(p))
  {
    FieldNames();
  }

  lemma RequestJsonWellFormed(r: Request)
    ensures WellFormed(RequestJson(r))
  {
    FieldNames();
  }

  /** Flat objects listing the same keys in the same order are equal when equivalent. */
  lemma FlatEquivalentEqual(ms: seq<Member>, ns: seq<Member>, i: nat)
    requires Equivalent(Obj(ms), Obj(ns)) && i < |ms| == |ns| && ms[i].key == ns[i].key
    requires ms[i].value.Str? || ms[i].value.Num?
    ensures ms[i] == ns[i]
  {
    assert Equivalent(ms[i].value, ns[i].value);
  }

  lemma TokenOfJson(p: TokenPayload, q: TokenPayload)
    requires Equivalent(TokenJson(p), TokenJson(q))
    ensures p == q
  {
    hide Equivalent;
    var ms, ns := TokenJson(p).members, TokenJson(q).members;
    FlatEquivalentEqual(ms, ns, 0);
    FlatEquivalentEqual(ms, ns, 1);
    FlatEquivalentEqual(ms, ns, 2);
    FlatEquivalentEqual(ms, ns, 3);
  }

  lemma RequestOfJson(r: Request, q: Request)
    requires Equivalent(RequestJson(r), RequestJson(q))
    ensures r == q
  {
    hide Equivalent;
    var ms, ns := RequestJson(r).members, RequestJson(q).members;
    FlatEquivalentEqual(ms, ns, 0);
    FlatEquivalentEqual(ms, ns, 1);
    FlatEquivalentEqual(ms, ns, 2);
    FlatEquivalentEqual(ms, ns, 3);
    FlatEquivalentEqual(ms, ns, 4);
  }

  /** Distinct token payloads are distinct messages. */
  lemma MessageInjective(env: Env, p: TokenPayload, q: TokenPayload)
    requires NumberPrinter(env.number) && Message(env, p) == Message(env, q)
    ensures p == q
  {
    hide Equivalent, CanonicalJson, WellFormed, TokenJson, NumberPrinter;
    TokenJsonWellFormed(p);
    TokenJsonWellFormed(q);
    CanonicalJsonIdentifies(env.number, TokenJson(p), TokenJson(q));
    TokenOfJson(p, q);
  }

  ghost predicate CollisionFree(hash: Text -> Text) {
    forall a, b :: hash(a) == hash(b) ==> a == b
  }

  /** Distinct requests have distinct hashes. */
  lemma HashRequestInjective(env: Env, r: Request, q: Request)
    requires NumberPrinter(env.number) && CollisionFree(env.sha256Hex) && HashRequest(env, r) == HashRequest(env, q)
    ensures r == q
  {
    hide Equivalent, CanonicalJson, WellFormed, RequestJson, NumberPrinter;
    RequestJsonWellFormed(r);
    RequestJsonWellFormed(q);
    CanonicalJsonIdentifies(env.number, RequestJson(r), RequestJson(q));
    RequestOfJson(r, q);
  }

  // ---- the signer's checks ---------------------------------------------------

  datatype CheckError = Wall1Unverified | Wall1Mismatch | TokenNotDebitBound | MessageMismatch

  datatype CheckFailure = CheckFailure(status: int, error: CheckError)

  predicate VerifyBankSignature(debit: Debit, bankKey: Text) {
    debit.bankSignature == SignedBy(bankKey, debit.payload)
  }

  function ValidateDebitForRequest(env: Env, request: Request, debit: Debit): Option<CheckFailure> {
    var d := debit.payload;
    if !VerifyBankSignature(debit, env.bankKey) then Some(CheckFailure(401, Wall1Unverified))
    else if d.requestId != request.requestId || d.meterId != request.meterId || d.amountKwh != request.amountKwh
            || d.amount != env.price(request.amountKwh) || d.currency != env.currency
    then Some(CheckFailure(401, Wall1Mismatch))
    else None
  }

  datatype Round2Body = Round2Body(message: Text, tokenPayload: TokenPayload, request: Request, debit: Debit)

  function RunWall1TokenChecks(env: Env, body: Round2Body): Option<CheckFailure> {
    match ValidateDebitForRequest(env, body.request, body.debit)
    case Some(failure) => Some(failure)
    case None =>
      var expected := BuildTokenPayload(env, body.debit.payload);
      if body.tokenPayload.meterId != expected.meterId || body.tokenPayload.amountKwh != expected.amountKwh
         || body.tokenPayload.debitRef != expected.debitRef || body.tokenPayload.nonce != expected.nonce
      then Some(CheckFailure(400, TokenNotDebitBound))
      else if body.message != Message(env, body.tokenPayload) then Some(CheckFailure(400, MessageMismatch))
      else None
  }

  /** A member passes a debit for a request if and only if the bank signed it for
      this request, this meter and these units, at the member's own price in the
      one currency. */
  lemma DebitPassesIff(env: Env, request: Request, debit: Debit)
    ensures ValidateDebitForRequest(env, request, debit) == None <==>
            && debit.bankSignature == SignedBy(env.bankKey, debit.payload)
            && debit.payload.requestId == request.requestId && debit.payload.meterId == request.meterId
            && debit.payload.amountKwh == request.amountKwh
            && debit.payload.amount == env.price(request.amountKwh) && debit.payload.currency == env.currency
  {
  }

  /** A round-2 body passes if and only if its debit does, its token is that debit's
      meter, units, reference and the first 32 units of the digest of the prefix and
      the reference, and its message is the canonical JSON of that token. */
  lemma BodyPassesIff(env: Env, body: Round2Body)
    ensures var debit, token := body.debit.payload, body.tokenPayload;
            var digest := env.sha256Hex(Ascii("twowalls/token-nonce/v1/") + debit.debitRef);
            RunWall1TokenChecks(env, body) == None <==>
            && body.debit.bankSignature == SignedBy(env.bankKey, debit)
            && debit.requestId == body.request.requestId && debit.meterId == body.request.meterId
            && debit.amountKwh == body.request.amountKwh
            && debit.amount == env.price(body.request.amountKwh) && debit.currency == env.currency
            && token.meterId == debit.meterId && token.amountKwh == debit.amountKwh && token.debitRef == debit.debitRef
            && token.nonce == (if |digest| > 32 then digest[..32] else digest)
            && body.message == Message(env, token)
  {
    hide Message;
  }

  /** Which check fails first, with its status: the signature and the debit's fields
      with 401, the token and the message with 400. */
  lemma FirstFailure(env: Env, body: Round2Body)
    ensures var d, token := body.debit.payload, body.tokenPayload;
            var signed := body.debit.bankSignature == SignedBy(env.bankKey, d);
            var failure := RunWall1TokenChecks(env, body);
            && (failure == Some(CheckFailure(401, Wall1Unverified)) <==> !signed)
            && (failure == Some(CheckFailure(401, Wall1Mismatch)) <==>
                signed && ValidateDebitForRequest(env, body.request, body.debit).Some?)
            && (failure == Some(CheckFailure(400, TokenNotDebitBound)) <==>
                ValidateDebitForRequest(env, body.request, body.debit) == None && token != BuildTokenPayload(env, d))
            && (failure == Some(CheckFailure(400, MessageMismatch)) <==>
                && ValidateDebitForRequest(env, body.request, body.debit) == None
                && token == BuildTokenPayload(env, d) && body.message != Message(env, token))
  {
    hide Message, DeriveTokenNonce;
  }

  /** Two bodies that pass for debits with the same reference, meter and units
      carry the same message, and the message gives the token back: one debit
      authorises exactly one message. */
  lemma OneMessagePerDebit(env: Env, a: Round2Body, b: Round2Body)
    requires NumberPrinter(env.number)
    requires RunWall1TokenChecks(env, a) == None && RunWall1TokenChecks(env, b) == None
    ensures a.message == b.message <==>
              && a.debit.payload.debitRef == b.debit.payload.debitRef
              && a.debit.payload.meterId == b.debit.payload.meterId
              && a.debit.payload.amountKwh == b.debit.payload.amountKwh
  {
    if a.message == b.message {
      MessageInjective(env, a.tokenPayload, b.tokenPayload);
    }
  }
}
