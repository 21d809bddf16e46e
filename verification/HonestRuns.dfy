/** Honest members suffice: from every reachable world, however it came about, a
    confirmed debit can be attested, signed and dispensed
    (server/src/signer/index.ts:143-357, server/src/coordinator/meter.ts:40-47). */
module HonestRuns {
  import opened Approvals
  import opened Attestation
  import opened Bank
  import opened BankTheorems
  import opened Canonical
  import opened Meter
  import opened OpenWorld
  import opened OpenWorldTheorems
  import opened Printer
  import opened Signer
  import opened SignerTheorems
  import opened Types
  import opened Verify
  import opened Wrappers

  lemma ReachableNext(env: Env, c: Consortium, evs: seq<WorldEvent>, w: World, ev: WorldEvent)
    requires Reachable(env, c, evs, w) && Allowed(env, c, w, ev)
    ensures Reachable(env, c, evs + [ev], OpenWorld.Step(env, c, w, ev))
  {
    hide Allowed, OpenWorld.Step, Play, AllAllowed;
    PlayAppend(env, c, START, evs, [ev]);
    PlayOne(env, c, w, ev);
  }

  // ---- every member is there, with its keys -----------------------------------------------

  predicate Standing(w: World) {
    w.signers.Keys == ALL_SIGNERS && forall s :: s in w.signers ==> w.signers[s].keysPresent
  }

  lemma KeysStay(env: Env, st: SignerState, ev: SignerEvent)
    ensures Signer.Apply(env, st, ev).keysPresent == st.keysPresent
  {
    hide RunWall1TokenChecks;
  }

  lemma StandingStep(env: Env, c: Consortium, w: World, ev: WorldEvent)
    requires Standing(w)
    ensures Standing(OpenWorld.Step(env, c, w, ev))
  {
    hide Signer.Apply, Bank.Apply, DeliverToken, ReadCount, Attest;
    match ev
    case AtSigner(s, e) =>
      if s in w.signers {
        KeysStay(env, w.signers[s], e);
      }
    case LedgerRead(s, call, asOf, throws) =>
      if s in w.signers {
        KeysStay(env, w.signers[s], LedgerAnswered(call, ReadCount(env, c, w, s, call, asOf), throws));
      }
    case _ =>
  }

  lemma {:induction false} StandingAlways(env: Env, c: Consortium, w: World, evs: seq<WorldEvent>)
    requires Standing(w)
    ensures Standing(Play(env, c, w, evs))
    decreases |evs|
  {
    hide Standing, OpenWorld.Step;
    if evs != [] {
      StandingStep(env, c, w, evs[0]);
      StandingAlways(env, c, OpenWorld.Step(env, c, w, evs[0]), evs[1..]);
    }
  }

  // ---- the attestations ---------------------------------------------------------------------

  /** Members that are not corrupt, by their accounts. */
  predicate HonestAccounts(env: Env, c: Consortium, accounts: seq<Text>) {
    Accounts(accounts, env.members) && forall i :: 0 <= i < |accounts| ==> env.members[accounts[i]] !in c.corrupt
  }

  /** One after the other attests, and the ledger shows their approvals. */
  lemma {:induction false} AllAttest(env: Env, c: Consortium, evs: seq<WorldEvent>, w: World, accounts: seq<Text>,
                                     request: Request, debit: Debit) returns (evs': seq<WorldEvent>, w': World)
    requires Reachable(env, c, evs, w) && HonestAccounts(env, c, accounts)
    requires BankConfirmed(w.bank.log, debit.payload)
    requires Attest(env, false, HashRequest(env, request), request, debit) == Approve
    ensures Reachable(env, c, evs', w')
    ensures w' == w.(ledger := w.ledger + ApprovalTxs(accounts, HashRequest(env, request)))
    decreases |accounts|
  {
    hide Reachable, Attest, HashRequest, BankConfirmed;
    var h := HashRequest(env, request);
    if accounts == [] {
      evs', w' := evs, w;
      assert w.ledger + ApprovalTxs(accounts, h) == w.ledger;
    } else {
      var front, last := accounts[..|accounts| - 1], accounts[|accounts| - 1];
      var evs1, w1 := AllAttest(env, c, evs, w, front, request, debit);
      var ev := Attested(last, [], false, h, request, debit);
      AttestAllowed(env, c, w1, ev);
      ReachableNext(env, c, evs1, w1, ev);
      evs', w' := evs1 + [ev], OpenWorld.Step(env, c, w1, ev);
      assert ApprovalTxs(accounts, h) == ApprovalTxs(front, h) + [Tx(last, [ApprovalMemo(h, Approve)], [])];
    }
  }

  lemma AttestAllowed(env: Env, c: Consortium, w: World, ev: WorldEvent)
    requires ev.Attested? && ev.account in env.members && env.members[ev.account] !in c.corrupt
    requires BankConfirmed(w.bank.log, ev.debit.payload)
    ensures Allowed(env, c, w, ev)
  {
    hide BankConfirmed;
  }

  // ---- one member signs ---------------------------------------------------------------------

  /** Committing, presenting the body and hearing of a quorum, in this order. */
  lemma MemberSigns(env: Env, st: SignerState, sid: Text, body: Round2Body, now: int, n: nat)
    requires st.keysPresent && sid != [] && RunWall1TokenChecks(env, body) == None && n >= env.quorum
    ensures var st1 := Signer.Apply(env, Signer.Apply(env, st, SetOnline(true)), SetRefuse(false));
            var st2 := Signer.Apply(env, st1, Round1Called(sid, now));
            var st3 := Signer.Apply(env, st2, Round2Called(Some(sid), Some(body), now));
            var st4 := Signer.Apply(env, st3, LedgerAnswered(st.nextCall, Some(n), false));
            && st.nextCall in st3.pending && st3.pending[st.nextCall].body == body
            && st4.signings == st.signings + [Signing(st.nextNonce, body, true)]
  {
    hide RunWall1TokenChecks;
    var st1 := Signer.Apply(env, Signer.Apply(env, st, SetOnline(true)), SetRefuse(false));
    var st2 := Signer.Apply(env, st1, Round1Called(sid, now));
    AdmittedIff(env, st2, Some(sid), Some(body), now);
    var st3 := Signer.Apply(env, st2, Round2Called(Some(sid), Some(body), now));
    SignsIffQuorum(env, st3, st.nextCall, Some(n), false);
  }

  lemma Replacing(w: World, s: SignerId, a: SignerState, b: SignerState)
    requires s in w.signers
    ensures w.(signers := w.signers[s := a]).(signers := w.signers[s := a][s := b]) == w.(signers := w.signers[s := b])
  {
    assert w.signers[s := a][s := b] == w.signers[s := b];
  }

  /** A step at one member. */
  lemma AtMember(env: Env, c: Consortium, evs: seq<WorldEvent>, w: World, s: SignerId, e: SignerEvent)
    returns (evs': seq<WorldEvent>, w': World)
    requires Reachable(env, c, evs, w) && s in w.signers && Allowed(env, c, w, AtSigner(s, e))
    ensures Reachable(env, c, evs', w') && w' == w.(signers := w.signers[s := Signer.Apply(env, w.signers[s], e)])
  {
    hide Reachable, Allowed, Signer.Apply;
    ReachableNext(env, c, evs, w, AtSigner(s, e));
    evs', w' := evs + [AtSigner(s, e)], OpenWorld.Step(env, c, w, AtSigner(s, e));
  }

  /** Any member can be brought to release its share of a body that passes, once a
      quorum approves its request on the ledger. */
  lemma MemberReleases(env: Env, c: Consortium, evs: seq<WorldEvent>, w: World, s: SignerId, sid: Text,
                       body: Round2Body, now: int) returns (evs': seq<WorldEvent>, w': World)
    requires Reachable(env, c, evs, w) && s in w.signers && w.signers[s].keysPresent && sid != []
    requires RunWall1TokenChecks(env, body) == None && BankConfirmed(w.bank.log, body.debit.payload)
    requires !ReadThrows(Window(w.ledger, |w.ledger|), env.members)
    requires CountedAt(w.ledger, |w.ledger|, env.members, HashRequest(env, body.request)) >= env.quorum
    ensures Reachable(env, c, evs', w') && s in w'.signers && w' == w.(signers := w.signers[s := w'.signers[s]])
    ensures Released(w'.signers[s], body.message)
  {
    hide Reachable, RunWall1TokenChecks, BankConfirmed, ReadThrows, Window, CountedAt, HashRequest, Signer.Apply;
    var st, n := w.signers[s], CountedAt(w.ledger, |w.ledger|, env.members, HashRequest(env, body.request));
    MemberSigns(env, st, sid, body, now, n);
    var evs1, w1 := AtMember(env, c, evs, w, s, SetOnline(true));
    var evs2, w2 := AtMember(env, c, evs1, w1, s, SetRefuse(false));
    var evs3, w3 := AtMember(env, c, evs2, w2, s, Round1Called(sid, now));
    var evs4, w4 := AtMember(env, c, evs3, w3, s, Round2Called(Some(sid), Some(body), now));
    var ev := LedgerRead(s, st.nextCall, Some(|w.ledger|), false);
    ReachableNext(env, c, evs4, w4, ev);
    evs', w' := evs4 + [ev], OpenWorld.Step(env, c, w4, ev);
    assert w4.ledger == w.ledger && ReadCount(env, c, w4, s, st.nextCall, Some(|w.ledger|)) == Some(n);
    assert w'.signers[s].signings[|st.signings|] == Signing(st.nextNonce, body, true);
    assert w' == w.(signers := w.signers[s := w'.signers[s]]);
  }

  lemma ReleasedStays(w: World, w': World, s: SignerId, other: SignerId, message: Text)
    requires s in w.signers && s in w'.signers && w' == w.(signers := w.signers[s := w'.signers[s]]) && other != s
    requires other in w.signers && Released(w.signers[other], message)
    ensures other in w'.signers && Released(w'.signers[other], message)
  {
  }

  /** All three members release their shares. */
  lemma AllRelease(env: Env, c: Consortium, evs: seq<WorldEvent>, w: World, sid: Text, body: Round2Body, now: int)
    returns (evs': seq<WorldEvent>, w': World)
    requires Reachable(env, c, evs, w) && Standing(w) && sid != []
    requires RunWall1TokenChecks(env, body) == None && BankConfirmed(w.bank.log, body.debit.payload)
    requires !ReadThrows(Window(w.ledger, |w.ledger|), env.members)
    requires CountedAt(w.ledger, |w.ledger|, env.members, HashRequest(env, body.request)) >= env.quorum
    ensures Reachable(env, c, evs', w') && w' == w.(signers := w'.signers)
    ensures forall s :: s in ALL_SIGNERS ==> s in w'.signers && Released(w'.signers[s], body.message)
  {
    hide Reachable, RunWall1TokenChecks, BankConfirmed, ReadThrows, Window, CountedAt, HashRequest, Released;
    var evs1, w1 := MemberReleases(env, c, evs, w, Utility, sid, body, now);
    var evs2, w2 := MemberReleases(env, c, evs1, w1, CityA, sid, body, now);
    var evs3, w3 := MemberReleases(env, c, evs2, w2, CityB, sid, body, now);
    ReleasedStays(w1, w2, CityA, Utility, body.message);
    ReleasedStays(w2, w3, CityB, Utility, body.message);
    ReleasedStays(w2, w3, CityB, CityA, body.message);
    evs', w' := evs3, w3;
  }

  // ---- from a debit to a dispense ------------------------------------------------------------

  lemma PresentedIsDispensed(env: Env, c: Consortium, evs: seq<WorldEvent>, w: World, p: TokenPayload)
    returns (evs': seq<WorldEvent>, w': World)
    requires Reachable(env, c, evs, w) && env.threshold <= 3
    requires forall s :: s in ALL_SIGNERS ==> s in w.signers && Released(w.signers[s], Message(env, p))
    requires p.nonce !in w.meter.usedNonces && p.debitRef !in w.meter.usedDebitRefs
    ensures Reachable(env, c, evs', w') && w'.bank == w.bank
    ensures w'.meter.dispensed == w.meter.dispensed + [Dispense(p.meterId, p.amountKwh, p.debitRef)]
  {
    hide Reachable, Released, Message;
    var token := Token(p, GroupSigned(Message(env, p)));
    assert Contributors(c, w, Message(env, p)) == ALL_SIGNERS;
    assert |ALL_SIGNERS| == 3;
    ReachableNext(env, c, evs, w, Presented(token));
    evs', w' := evs + [Presented(token)], OpenWorld.Step(env, c, w, Presented(token));
  }

  /** The body of the one token of a debit passes a member's checks. */
  lemma BodyPasses(env: Env, request: Request, debit: Debit) returns (body: Round2Body)
    requires debit.bankSignature == SignedBy(env.bankKey, debit.payload)
    requires debit.payload.requestId == request.requestId && debit.payload.meterId == request.meterId
    requires debit.payload.amountKwh == request.amountKwh
    requires debit.payload.amount == env.price(request.amountKwh) && debit.payload.currency == env.currency
    ensures RunWall1TokenChecks(env, body) == None && body.request == request && body.debit == debit
    ensures body.message == Message(env, BuildTokenPayload(env, debit.payload))
  {
    hide Message, DeriveTokenNonce;
    var token := BuildTokenPayload(env, debit.payload);
    body := Round2Body(Message(env, token), token, request, debit);
  }

  /** Whatever happened before, the bank, enough honest members and the meter give any
      new request its units: when the bank confirms and the reference, its nonce and the
      read window are clean, honest approvals and the members' shares lead to exactly
      one more dispense, of the requested units to the requested meter. */
  lemma HonestMembersSuffice(env: Env, c: Consortium, evs: seq<WorldEvent>, w: World, request: Request,
                             debitRef: Text, at: Text, accounts: seq<Text>, sid: Text, now: int)
    returns (evs': seq<WorldEvent>, w': World, debit: Debit)
    requires Reachable(env, c, evs, w) && w.bank.mode == Confirm && FreshRef(w.bank, debitRef)
    requires request.requestId != [] && request.meterId != [] && !Knows(w.bank.log, request.requestId)
    requires HonestAccounts(env, c, accounts) && env.quorum <= |accounts| <= SCAN_LIMIT && env.threshold <= 3
    requires !ReadThrows(Recent(w.ledger, SCAN_LIMIT - |accounts|), env.members) && sid != []
    requires debitRef !in w.meter.usedDebitRefs
    requires forall p: DebitPayload :: p.debitRef == debitRef ==>
               BuildTokenPayload(env, p).nonce !in w.meter.usedNonces
    ensures Reachable(env, c, evs', w')
    ensures w'.meter.dispensed == w.meter.dispensed + [Dispense(request.meterId, request.amountKwh, debitRef)]
    ensures |w'.bank.log| == |w.bank.log| + 1 && w'.bank.log[|w.bank.log|].debit == debit
    ensures debit.payload.requestId == request.requestId && debit.payload.debitRef == debitRef
    ensures debit.payload.amount == env.price(request.amountKwh)
  {
    hide Reachable, FreshRef, Knows, ReadThrows, Recent, Window, HashRequest, CountedAt, Message, RunWall1TokenChecks,
      Attest, BuildTokenPayload, HandleDebit;
    var call := DebitRequest(request.requestId, request.merchantId, request.meterId, request.amountKwh,
                             env.price(request.amountKwh), env.currency);
    TakenAsAsked(env.bankKey, w.bank, call, debitRef, at);
    var debited := AtBank(Debited(call, debitRef, at));
    ReachableNext(env, c, evs, w, debited);
    var w1 := OpenWorld.Step(env, c, w, debited);
    debit := w1.bank.log[|w.bank.log|].debit;
    ApprovesIff(env, false, HashRequest(env, request), request, debit);
    var evs2, w2 := AllAttest(env, c, evs + [debited], w1, accounts, request, debit);
    PostedApprovalsCount(w.ledger, accounts, env.members, HashRequest(env, request));
    var body := BodyPasses(env, request, debit);
    assert Standing(w2) by {
      StandingAlways(env, c, START, evs2);
      PlayedIs(env, c, evs2, w2);
    }
    var evs3, w3 := AllRelease(env, c, evs2, w2, sid, body, now);
    var p := BuildTokenPayload(env, debit.payload);
    PayloadFields(env, debit.payload);
    evs', w' := PresentedIsDispensed(env, c, evs3, w3, p);
  }

  lemma PlayedIs(env: Env, c: Consortium, evs: seq<WorldEvent>, w: World)
    requires Reachable(env, c, evs, w)
    ensures Play(env, c, START, evs) == w
  {
  }

  lemma PayloadFields(env: Env, p: DebitPayload)
    ensures var token := BuildTokenPayload(env, p);
            token.meterId == p.meterId && token.amountKwh == p.amountKwh && token.debitRef == p.debitRef
  {
  }
}
