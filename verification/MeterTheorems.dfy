/** What a meter that starts empty accepts, over everything ever presented to it
    (server/src/coordinator/meter.ts:22-47). */
module MeterTheorems {
  import opened Canonical
  import opened Meter
  import opened Types
  import opened Verify

  function After(env: Env, tokens: seq<Token>): MeterState {
    if tokens == [] then EMPTY_METER
    else DeliverToken(env, After(env, tokens[..|tokens| - 1]), tokens[|tokens| - 1]).0
  }

  /** The tokens that were accepted when they were presented, in order. */
  function TakenTokens(env: Env, tokens: seq<Token>): seq<Token> {
    if tokens == [] then []
    else
      var before, last := tokens[..|tokens| - 1], tokens[|tokens| - 1];
      TakenTokens(env, before) + if VerifyTokenForMeter(env, After(env, before), last) == Accepted then [last] else []
  }

  predicate SharesNonceOrRef(t: TokenPayload, u: TokenPayload) {
    t.nonce == u.nonce || t.debitRef == u.debitRef
  }

  /** The replay sets hold the nonces and the references of the accepted tokens. */
  lemma {:induction false} SpentAreTaken(env: Env, tokens: seq<Token>)
    ensures After(env, tokens).usedNonces == set t | t in TakenTokens(env, tokens) :: t.payload.nonce
    ensures After(env, tokens).usedDebitRefs == set t | t in TakenTokens(env, tokens) :: t.payload.debitRef
  {
    hide VerifyTokenForMeter;
    if tokens != [] {
      SpentAreTaken(env, tokens[..|tokens| - 1]);
    }
  }

  /** A token is accepted if and only if the group signed exactly its payload and no
      token accepted before shares its nonce or its reference; a shared one is a
      replay, whatever its signature. */
  lemma {:induction false} AcceptedIffFirst(env: Env, tokens: seq<Token>, t: Token)
    ensures var result := VerifyTokenForMeter(env, After(env, tokens), t);
            var replayed := exists u :: u in TakenTokens(env, tokens) && SharesNonceOrRef(u.payload, t.payload);
            && (result == Accepted <==> !replayed && t.signature == GroupSigned(Message(env, t.payload)))
            && (result == Replay <==> replayed)
  {
    hide After, TakenTokens, Message;
    SpentAreTaken(env, tokens);
  }

  /** What was dispensed is the accepted tokens' units, to their meters, in order. */
  lemma {:induction false} DispensedAreTaken(env: Env, tokens: seq<Token>)
    ensures |After(env, tokens).dispensed| == |TakenTokens(env, tokens)|
    ensures forall k :: 0 <= k < |TakenTokens(env, tokens)| ==>
              var p := TakenTokens(env, tokens)[k].payload;
              After(env, tokens).dispensed[k] == Dispense(p.meterId, p.amountKwh, p.debitRef)
  {
    hide VerifyTokenForMeter;
    if tokens != [] {
      DispensedAreTaken(env, tokens[..|tokens| - 1]);
    }
  }

  lemma {:induction false} TakenWerePresented(env: Env, tokens: seq<Token>)
    ensures forall t :: t in TakenTokens(env, tokens) ==> t in tokens
  {
    hide VerifyTokenForMeter, After;
    if tokens != [] {
      TakenWerePresented(env, tokens[..|tokens| - 1]);
    }
  }

  function SignedToken(env: Env, debit: DebitPayload): Token {
    Token(BuildTokenPayload(env, debit), GroupSigned(Message(env, BuildTokenPayload(env, debit))))
  }

  function TokensOf(env: Env, debits: seq<DebitPayload>): (tokens: seq<Token>)
    ensures |tokens| == |debits| && forall i :: 0 <= i < |tokens| ==> tokens[i] == SignedToken(env, debits[i])
  {
    seq(|debits|, i requires 0 <= i < |debits| => SignedToken(env, debits[i]))
  }

  /** However many tokens of other debits a meter took, it still accepts the token of
      one whose reference and whose reference's digest differ from theirs. */
  lemma OtherDebitAccepted(env: Env, debits: seq<DebitPayload>, debit: DebitPayload)
    requires forall i :: 0 <= i < |debits| ==>
               debits[i].debitRef != debit.debitRef && NoncesApart(env, debits[i].debitRef, debit.debitRef)
    ensures VerifyTokenForMeter(env, After(env, TokensOf(env, debits)), SignedToken(env, debit)) == Accepted
    ensures var st := DeliverToken(env, After(env, TokensOf(env, debits)), SignedToken(env, debit)).0;
            st.dispensed == After(env, TokensOf(env, debits)).dispensed
                            + [Dispense(debit.meterId, debit.amountKwh, debit.debitRef)]
  {
    hide VerifyTokenForMeter, After, TakenTokens, NoncesApart, DeriveTokenNonce, Message;
    var tokens, t := TokensOf(env, debits), SignedToken(env, debit);
    TakenWerePresented(env, tokens);
    forall u | u in TakenTokens(env, tokens)
      ensures !SharesNonceOrRef(u.payload, t.payload)
    {
      var i :| 0 <= i < |tokens| && tokens[i] == u;
      NoncesApartIff(env, debits[i], debit);
    }
    AcceptedIffFirst(env, tokens, t);
  }

  /** Once a token of a debit was taken, no token of that debit is taken again. */
  lemma {:induction false} SameDebitRefused(env: Env, tokens: seq<Token>, u: Token, t: Token)
    requires u in TakenTokens(env, tokens) && t.payload.debitRef == u.payload.debitRef
    ensures VerifyTokenForMeter(env, After(env, tokens), t) == Replay
  {
    hide VerifyTokenForMeter, After, TakenTokens, Message;
    AcceptedIffFirst(env, tokens, t);
    assert SharesNonceOrRef(u.payload, t.payload);
  }
}
