/** What holds after every run with an arbitrary sender: at most one dispense per
    debit and only as the bank attested it, conservation of units, and a quorum
    behind every partial signature. */
module OpenWorldTheorems {
  import opened Approvals
  import opened Attestation
  import opened Bank
  import opened Canonical
  import opened Meter
  import opened OpenWorld
  import opened Printer
  import opened Signer
  import opened Types
  import opened Verify
  import opened Wrappers

  ghost predicate Reachable(env: Env, c: Consortium, evs: seq<WorldEvent>, w: World) {
    AllAllowed(env, c, START, evs) && Play(env, c, START, evs) == w
  }

  lemma ReachableInvariant(env: Env, c: Consortium, evs: seq<WorldEvent>, w: World)
    requires Setting(env, c) && Reachable(env, c, evs, w)
    ensures Invariant(env, c, w)
  {
    hide Setting, Invariant, AllAllowed, Play;
    StartInvariant(env, c);
    RunKeeps(env, c, START, evs);
  }

  // ---- one debit, one dispense --------------------------------------------------------

  /** Each confirmed debit is dispensed at most once, and every dispense is the
      meter and the units the bank attested. */
  lemma OneDispensePerDebit(env: Env, c: Consortium, evs: seq<WorldEvent>, w: World)
    requires Setting(env, c) && Reachable(env, c, evs, w)
    ensures forall i, j :: 0 <= i < j < |w.meter.dispensed| ==>
            w.meter.dispensed[i].debitRef != w.meter.dispensed[j].debitRef
    ensures forall i :: 0 <= i < |w.meter.dispensed| ==> ConfirmedDispense(w.bank.log, w.meter.dispensed[i])
  {
    hide Setting, Reachable, SignersInvariant, LedgerInvariant, BankInvariant, ConfirmedDispense;
    ReachableInvariant(env, c, evs, w);
  }

  /** A forged token for a debit that never was. */
  function ForgedToken(env: Env): Token {
    var p := TokenPayload([1], 1, [1], [1]);
    Token(p, GroupSigned(Message(env, p)))
  }

  /** The bound on corrupt members is exact: dispenses without a confirmed debit
      are impossible if and only if fewer than `threshold` members are corrupt. */
  lemma ThresholdIsExact(env: Env, c: Consortium)
    requires NumberPrinter(env.number) && CollisionFree(env.sha256Hex) && c.corrupt <= ALL_SIGNERS
    ensures |c.corrupt| < env.threshold <==>
            forall evs, w :: Reachable(env, c, evs, w) ==>
              forall d :: d in w.meter.dispensed ==> ConfirmedDispense(w.bank.log, d)
  {
    hide NumberPrinter, CollisionFree, Reachable;
    if |c.corrupt| < env.threshold {
      forall evs, w | Reachable(env, c, evs, w)
        ensures forall d :: d in w.meter.dispensed ==> ConfirmedDispense(w.bank.log, d)
      {
        assert Setting(env, c);
        OneDispensePerDebit(env, c, evs, w);
      }
    } else {
      CorruptThresholdForges(env, c);
      var evs, w :| Reachable(env, c, evs, w) && w.bank.log == [] && w.meter.dispensed == [Dispense([1], 1, [1])];
      var d := w.meter.dispensed[0];
      assert d in w.meter.dispensed && !ConfirmedDispense(w.bank.log, d);
    }
  }

  lemma CorruptThresholdForges(env: Env, c: Consortium)
    requires c.corrupt <= ALL_SIGNERS && |c.corrupt| >= env.threshold
    ensures exists evs, w ::
              Reachable(env, c, evs, w) && w.bank.log == [] && w.meter.dispensed == [Dispense([1], 1, [1])]
  {
    hide Message, Released, Reachable;
    var token := ForgedToken(env);
    var ev := Presented(token);
    assert c.corrupt <= Contributors(c, START, token.signature.message);
    SubsetSize(c.corrupt, Contributors(c, START, token.signature.message));
    SingleStepReachable(env, c, ev);
    assert Step(env, c, START, ev).meter.dispensed == [Dispense([1], 1, [1])];
  }

  // ---- conservation -----------------------------------------------------------------------

  function DispensedKwh(ds: seq<Dispense>, meters: Text -> bool): Number {
    if ds == [] then 0
    else DispensedKwh(ds[..|ds| - 1], meters) + if meters(ds[|ds| - 1].meterId) then ds[|ds| - 1].amountKwh else 0
  }

  /** Units confirmed for the given meters, over the debits inside (or outside) a
      set of references, gross of reversals. */
  function ConfirmedKwh(log: seq<Entry>, meters: Text -> bool, refs: set<Text>, inside: bool): Number {
    if log == [] then 0
    else
      var e := log[|log| - 1];
      ConfirmedKwh(log[..|log| - 1], meters, refs, inside) +
      if e.outcome == Outcome.Confirmed && meters(e.debit.payload.meterId)
        && (e.debit.payload.debitRef in refs <==> inside)
      then e.debit.payload.amountKwh else 0
  }

  lemma {:induction false} KwhOfSameDebits(log: seq<Entry>, log': seq<Entry>, meters: Text -> bool, refs: set<Text>,
                                           inside: bool)
    requires |log| == |log'| && Extends(log, log')
    ensures ConfirmedKwh(log, meters, refs, inside) == ConfirmedKwh(log', meters, refs, inside)
  {
    if log != [] {
      KwhOfSameDebits(log[..|log| - 1], log'[..|log| - 1], meters, refs, inside);
    }
  }

  lemma {:induction false} KwhSplits(log: seq<Entry>, meters: Text -> bool, refs: set<Text>)
    ensures ConfirmedKwh(log, meters, {}, false) ==
            ConfirmedKwh(log, meters, refs, true) + ConfirmedKwh(log, meters, refs, false)
  {
    if log != [] {
      KwhSplits(log[..|log| - 1], meters, refs);
    }
  }

  ghost predicate RefsDistinct(log: seq<Entry>) {
    forall i, j :: 0 <= i < j < |log| ==> log[i].debit.payload.debitRef != log[j].debit.payload.debitRef
  }

  lemma {:induction false} KwhWithoutRef(log: seq<Entry>, meters: Text -> bool, refs: set<Text>, ref: Text)
    requires forall i :: 0 <= i < |log| ==> log[i].debit.payload.debitRef != ref
    ensures ConfirmedKwh(log, meters, refs + {ref}, true) == ConfirmedKwh(log, meters, refs, true)
  {
    if log != [] {
      KwhWithoutRef(log[..|log| - 1], meters, refs, ref);
    }
  }

  /** Spending one more reference adds exactly its entry. */
  lemma {:induction false} KwhWithRef(log: seq<Entry>, meters: Text -> bool, refs: set<Text>, i: nat)
    requires RefsDistinct(log) && i < |log| && log[i].outcome == Outcome.Confirmed
    requires log[i].debit.payload.debitRef !in refs
    ensures ConfirmedKwh(log, meters, refs + {log[i].debit.payload.debitRef}, true) ==
            ConfirmedKwh(log, meters, refs, true)
            + if meters(log[i].debit.payload.meterId) then log[i].debit.payload.amountKwh else 0
  {
    var rest := log[..|log| - 1];
    if i == |log| - 1 {
      KwhWithoutRef(rest, meters, refs, log[i].debit.payload.debitRef);
    } else {
      assert rest[i] == log[i];
      KwhWithRef(rest, meters, refs, i);
    }
  }

  ghost predicate Conserved(w: World, meters: Text -> bool) {
    DispensedKwh(w.meter.dispensed, meters) == ConfirmedKwh(w.bank.log, meters, w.meter.usedDebitRefs, true)
  }

  /** What was spent is in the log. */
  lemma SpentIsLogged(w: World, debitRef: Text)
    requires DispenseInvariant(w.bank.log, w.meter) && debitRef in w.meter.usedDebitRefs
    ensures exists i :: 0 <= i < |w.bank.log| && w.bank.log[i].debit.payload.debitRef == debitRef
  {
    var i :| 0 <= i < |w.meter.dispensed| && w.meter.dispensed[i].debitRef == debitRef;
    assert ConfirmedDispense(w.bank.log, w.meter.dispensed[i]);
  }

  lemma NewRefUnspent(w: World, debitRef: Text)
    requires DispenseInvariant(w.bank.log, w.meter) && FreshRef(w.bank, debitRef)
    ensures debitRef !in w.meter.usedDebitRefs
  {
    hide DispenseInvariant;
    if debitRef in w.meter.usedDebitRefs {
      SpentIsLogged(w, debitRef);
    }
  }

  lemma BankStepConserves(env: Env, w: World, ev: BankEvent, meters: Text -> bool)
    requires DispenseInvariant(w.bank.log, w.meter) && Conserved(w, meters)
    requires ev.Debited? ==> FreshRef(w.bank, ev.debitRef)
    ensures Conserved(w.(bank := Bank.Apply(env.bankKey, w.bank, ev)), meters)
  {
    hide DispenseInvariant, FreshRef;
    var log, log' := w.bank.log, Bank.Apply(env.bankKey, w.bank, ev).log;
    BankExtends(env.bankKey, w.bank, ev);
    if |log'| == |log| {
      KwhOfSameDebits(log, log', meters, w.meter.usedDebitRefs, true);
    } else {
      assert ev.Debited? && log'[..|log|] == log && log'[|log|].debit.payload.debitRef == ev.debitRef;
      NewRefUnspent(w, ev.debitRef);
    }
  }

  lemma LogRefsDistinct(bankKey: Text, st: BankState)
    requires BankInvariant(bankKey, st)
    ensures RefsDistinct(st.log)
  {
  }

  lemma DispenseAdds(ds: seq<Dispense>, d: Dispense, meters: Text -> bool)
    ensures DispensedKwh(ds + [d], meters) == DispensedKwh(ds, meters) + if meters(d.meterId) then d.amountKwh else 0
  {
    assert (ds + [d])[..|ds|] == ds;
  }

  lemma DeliveryConserves(env: Env, w: World, token: Token, meters: Text -> bool)
    requires BankInvariant(env.bankKey, w.bank) && Conserved(w, meters)
    requires VerifyTokenForMeter(env, w.meter, token) == Accepted
    requires var p := token.payload; ConfirmedDispense(w.bank.log, Dispense(p.meterId, p.amountKwh, p.debitRef))
    ensures Conserved(w.(meter := DeliverToken(env, w.meter, token).0), meters)
  {
    hide Message, BankInvariant, RefsDistinct, DispensedKwh, ConfirmedKwh;
    var p := token.payload;
    LogRefsDistinct(env.bankKey, w.bank);
    var i :| 0 <= i < |w.bank.log| && w.bank.log[i].outcome == Outcome.Confirmed
             && w.bank.log[i].debit.payload.debitRef == p.debitRef
             && w.bank.log[i].debit.payload.meterId == p.meterId
             && w.bank.log[i].debit.payload.amountKwh == p.amountKwh;
    KwhWithRef(w.bank.log, meters, w.meter.usedDebitRefs, i);
    DispenseAdds(w.meter.dispensed, Dispense(p.meterId, p.amountKwh, p.debitRef), meters);
  }

  lemma StepConserves(env: Env, c: Consortium, w: World, ev: WorldEvent, meters: Text -> bool)
    requires Setting(env, c) && Invariant(env, c, w) && Allowed(env, c, w, ev) && Conserved(w, meters)
    ensures Conserved(Step(env, c, w, ev), meters)
  {
    hide Setting, SignersInvariant, LedgerInvariant, BankInvariant, DispenseInvariant, ConfirmedDispense,
      GroupUnforged, BankUnforged, FreshRef, DispensedKwh, ConfirmedKwh, Message, Signer.Apply, Bank.Apply, Attest;
    match ev
    case AtBank(e) => BankStepConserves(env, w, e, meters);
    case Presented(token) =>
      if VerifyTokenForMeter(env, w.meter, token) == Accepted {
        AcceptedIsConfirmed(env, c, w, token);
        DeliveryConserves(env, w, token, meters);
      }
    case _ =>
  }

  lemma {:induction false} RunConserves(env: Env, c: Consortium, w: World, evs: seq<WorldEvent>, meters: Text -> bool)
    requires Setting(env, c) && Invariant(env, c, w) && AllAllowed(env, c, w, evs) && Conserved(w, meters)
    ensures Conserved(Play(env, c, w, evs), meters)
    decreases |evs|
  {
    hide Setting, Invariant, Allowed, Step, Conserved;
    if evs != [] {
      StepKeeps(env, c, w, evs[0]);
      StepConserves(env, c, w, evs[0], meters);
      RunConserves(env, c, Step(env, c, w, evs[0]), evs[1..], meters);
    }
  }

  /** For any choice of meters, the units confirmed are those dispensed plus those
      of debits not yet dispensed. */
  lemma UnitsConserved(env: Env, c: Consortium, evs: seq<WorldEvent>, w: World, meters: Text -> bool)
    requires Setting(env, c) && Reachable(env, c, evs, w)
    ensures ConfirmedKwh(w.bank.log, meters, {}, false) ==
            DispensedKwh(w.meter.dispensed, meters) + ConfirmedKwh(w.bank.log, meters, w.meter.usedDebitRefs, false)
  {
    hide Setting, Invariant, AllAllowed, Play;
    StartInvariant(env, c);
    assert Conserved(START, meters);
    RunConserves(env, c, START, evs, meters);
    KwhSplits(w.bank.log, meters, w.meter.usedDebitRefs);
  }

  // ---- dispensed units never exceed confirmed units -------------------------------------------

  /** Every debit the bank is asked for is admitted by the policy. */
  ghost predicate Admitted(evs: seq<WorldEvent>, admits: Number -> bool) {
    forall i :: 0 <= i < |evs| && evs[i].AtBank? && evs[i].bankEvent.Debited? ==> admits(evs[i].bankEvent.req.amountKwh)
  }

  ghost predicate LogAdmitted(log: seq<Entry>, admits: Number -> bool) {
    forall i :: 0 <= i < |log| ==> admits(log[i].debit.payload.amountKwh)
  }

  lemma {:induction false} RunAdmits(env: Env, c: Consortium, w: World, evs: seq<WorldEvent>, admits: Number -> bool)
    requires LogAdmitted(w.bank.log, admits) && Admitted(evs, admits)
    ensures LogAdmitted(Play(env, c, w, evs).bank.log, admits)
    decreases |evs|
  {
    hide Signer.Apply, DeliverToken, Attest, ReadCount;
    if evs != [] {
      assert Admitted(evs[1..], admits);
      RunAdmits(env, c, Step(env, c, w, evs[0]), evs[1..], admits);
    }
  }

  lemma {:induction false} NonNegativeKwh(log: seq<Entry>, meters: Text -> bool, refs: set<Text>, inside: bool)
    requires forall i :: 0 <= i < |log| ==> log[i].debit.payload.amountKwh >= 0
    ensures ConfirmedKwh(log, meters, refs, inside) >= 0
  {
    if log != [] {
      NonNegativeKwh(log[..|log| - 1], meters, refs, inside);
    }
  }

  ghost predicate WithinConfirmed(w: World, meters: Text -> bool) {
    DispensedKwh(w.meter.dispensed, meters) <= ConfirmedKwh(w.bank.log, meters, {}, false)
  }

  lemma AdmittedIsWithin(env: Env, c: Consortium, evs: seq<WorldEvent>, w: World, admits: Number -> bool,
                         meters: Text -> bool)
    requires Setting(env, c) && Reachable(env, c, evs, w) && Admitted(evs, admits)
    requires forall x :: admits(x) ==> x >= 0
    ensures WithinConfirmed(w, meters)
  {
    UnitsConserved(env, c, evs, w, meters);
    RunAdmits(env, c, START, evs, admits);
    NonNegativeKwh(w.bank.log, meters, w.meter.usedDebitRefs, false);
  }

  lemma SingleDebit(env: Env, c: Consortium, req: DebitRequest)
    requires req.requestId != [] && req.meterId != []
    ensures Allowed(env, c, START, AtBank(Debited(req, [1], [])))
    ensures var w := Step(env, c, START, AtBank(Debited(req, [1], [])));
            w.bank.log == [NewEntry(env.bankKey, Confirm, req, [1], [])] && w.meter == EMPTY_METER
  {
    assert FindRequest([], req.requestId) == None;
  }

  lemma SingleKwh(e: Entry, meters: Text -> bool)
    requires e.outcome == Outcome.Confirmed && meters(e.debit.payload.meterId)
    ensures ConfirmedKwh([e], meters, {}, false) == e.debit.payload.amountKwh
  {
    assert [e][..0] == [];
    assert ConfirmedKwh([], meters, {}, false) == 0;
  }

  lemma SingleStepReachable(env: Env, c: Consortium, ev: WorldEvent)
    requires Allowed(env, c, START, ev)
    ensures Reachable(env, c, [ev], Step(env, c, START, ev))
  {
    hide Allowed, Step;
    var w := Step(env, c, START, ev);
    assert [ev][1..] == [];
    assert Play(env, c, START, [ev]) == Play(env, c, w, []) == w;
    assert AllAllowed(env, c, w, []);
  }

  /** The bank confirms negative units: with nothing dispensed, the confirmed total is below zero. */
  lemma NegativeDebitExceeds(env: Env, c: Consortium, kwh: Number, meters: Text -> bool, meterId: Text)
    requires kwh < 0 && meters(meterId) && meterId != []
    ensures exists evs, w ::
              Reachable(env, c, evs, w)
              && evs == [AtBank(Debited(DebitRequest([1], [1], meterId, kwh, 0, env.currency), [1], []))]
                             && !WithinConfirmed(w, meters)
  {
    hide Allowed, Step, Reachable;
    var req := DebitRequest([1], [1], meterId, kwh, 0, env.currency);
    var ev := AtBank(Debited(req, [1], []));
    SingleDebit(env, c, req);
    SingleKwh(NewEntry(env.bankKey, Confirm, req, [1], []), meters);
    SingleStepReachable(env, c, ev);
    assert !WithinConfirmed(Step(env, c, START, ev), meters);
  }

  /** Dispensed units stay within confirmed units, in every run and for every
      choice of meters, if and only if the bank is only asked for non-negative units. */
  lemma WithinConfirmedIff(env: Env, c: Consortium, admits: Number -> bool, meters: Text -> bool, meterId: Text)
    requires Setting(env, c) && meters(meterId) && meterId != []
    ensures (forall x :: admits(x) ==> x >= 0) <==>
            (forall evs, w :: Reachable(env, c, evs, w) && Admitted(evs, admits) ==> WithinConfirmed(w, meters))
  {
    hide Setting, Reachable, WithinConfirmed;
    if forall x :: admits(x) ==> x >= 0 {
      forall evs, w | Reachable(env, c, evs, w) && Admitted(evs, admits)
        ensures WithinConfirmed(w, meters)
      {
        AdmittedIsWithin(env, c, evs, w, admits, meters);
      }
    } else {
      var x :| admits(x) && x < 0;
      NegativeDebitExceeds(env, c, x, meters, meterId);
    }
  }

  // ---- a quorum behind every partial ----------------------------------------------------------

  /** An honest member's approval of a request hash, by a member that validated a
      confirmed debit for the request with that hash. */
  lemma HonestApproverEndorsed(env: Env, c: Consortium, w: World, request: Request, s: SignerId)
    requires Setting(env, c) && LedgerInvariant(env, c, w.bank.log, w.ledger)
    requires s in Approving(env.members, w.ledger, HashRequest(env, request)) && s !in c.corrupt
    ensures Endorsed(env, w.bank.log, request)
  {
    hide NumberPrinter, CollisionFree, Endorsed, HashRequest, FirstVerdict;
    var h := HashRequest(env, request);
    var i :| 0 <= i < |w.ledger| && w.ledger[i].account in env.members && env.members[w.ledger[i].account] == s
             && FirstVerdict(w.ledger[i].memos, h) == Some(Approve);
    assert HonestApproval(env, w.bank.log, w.ledger[i]);
    var q :| HashRequest(env, q) == h && Endorsed(env, w.bank.log, q);
    HashRequestInjective(env, q, request);
  }

  /** The entry behind a debit that the bank confirmed for a request. */
  lemma ConfirmedEntry(env: Env, bank: BankState, request: Request, debit: Debit) returns (k: nat)
    requires EntriesOk(env.bankKey, bank) && BankConfirmed(bank.log, debit.payload)
    requires ValidateDebitForRequest(env, request, debit) == None
    ensures k < |bank.log| && bank.log[k].outcome == Outcome.Confirmed && bank.log[k].debit == debit
    ensures var p := debit.payload;
            && debit.bankSignature == SignedBy(env.bankKey, p) && p.requestId == request.requestId
            && p.meterId == request.meterId && p.amountKwh == request.amountKwh
            && p.amount == env.price(request.amountKwh) && p.currency == env.currency
  {
    DebitPassesIff(env, request, debit);
    k :| 0 <= k < |bank.log| && bank.log[k].debit.payload == debit.payload && bank.log[k].outcome == Outcome.Confirmed;
    assert EntryOk(env.bankKey, bank.reversals, bank.log[k]);
  }

  /** Whenever the ledger shows an honest member's approval of a hash, it is the
      hash of one request and of no other, and the bank signed and confirmed a debit
      for that request, its meter and its units at the consortium's own price. */
  lemma HonestApprovalIsValidated(env: Env, c: Consortium, evs: seq<WorldEvent>, w: World, i: nat, h: Text)
    returns (request: Request, k: nat)
    requires Setting(env, c) && Reachable(env, c, evs, w) && i < |w.ledger|
    requires w.ledger[i].account in env.members && env.members[w.ledger[i].account] !in c.corrupt
    requires FirstVerdict(w.ledger[i].memos, h) == Some(Approve)
    ensures HashRequest(env, request) == h && forall q :: HashRequest(env, q) == h ==> q == request
    ensures k < |w.bank.log| && w.bank.log[k].outcome == Outcome.Confirmed
    ensures var debit := w.bank.log[k].debit; var p := debit.payload;
            && debit.bankSignature == SignedBy(env.bankKey, p) && p.requestId == request.requestId
            && p.meterId == request.meterId && p.amountKwh == request.amountKwh
            && p.amount == env.price(request.amountKwh) && p.currency == env.currency
  {
    hide NumberPrinter, CollisionFree, Reachable, SignersInvariant, ReversalsOk, EntriesOk, OneEntryEach,
      DispenseInvariant, HashRequest, FirstVerdict, ValidateDebitForRequest, BankConfirmed;
    ReachableInvariant(env, c, evs, w);
    assert HonestApproval(env, w.bank.log, w.ledger[i]);
    request :| HashRequest(env, request) == h && Endorsed(env, w.bank.log, request);
    var debit :| ValidateDebitForRequest(env, request, debit) == None && BankConfirmed(w.bank.log, debit.payload);
    k := ConfirmedEntry(env, w.bank, request, debit);
    forall q | HashRequest(env, q) == h
      ensures q == request
    {
      HashRequestInjective(env, q, request);
    }
  }

  /** The bank signed and confirmed a debit for this request at the consortium's price. */
  ghost predicate PaidFor(env: Env, log: seq<Entry>, request: Request) {
    exists k :: 0 <= k < |log| && log[k].outcome == Outcome.Confirmed
                && log[k].debit.bankSignature == SignedBy(env.bankKey, log[k].debit.payload)
                && log[k].debit.payload.requestId == request.requestId
                && log[k].debit.payload.meterId == request.meterId
                && log[k].debit.payload.amountKwh == request.amountKwh
                && log[k].debit.payload.amount == env.price(request.amountKwh)
                && log[k].debit.payload.currency == env.currency
  }

  lemma EndorsedIsPaid(env: Env, bank: BankState, request: Request)
    requires EntriesOk(env.bankKey, bank) && Endorsed(env, bank.log, request)
    ensures PaidFor(env, bank.log, request)
  {
    hide ValidateDebitForRequest, BankConfirmed, EntriesOk;
    var debit :| ValidateDebitForRequest(env, request, debit) == None && BankConfirmed(bank.log, debit.payload);
    var k := ConfirmedEntry(env, bank, request, debit);
  }

  /** Behind every nonce pair a member signed with stand approvals on the ledger
      by at least `quorum` members for the hash of exactly the signed request; if any
      of them is honest, that request is paid for at the bank. The member that signed
      saw the bank's own signature on a confirmed debit for this request, its meter
      and its units at the consortium's price, and the message is the one token of
      that debit. */
  lemma PartialsHaveQuorum(env: Env, c: Consortium, evs: seq<WorldEvent>, w: World, s: SignerId, signing: Signing)
    requires Setting(env, c) && Reachable(env, c, evs, w) && s in w.signers && signing in w.signers[s].signings
    ensures |Approving(env.members, w.ledger, HashRequest(env, signing.body.request))| >= env.quorum
    ensures forall a ::
              a in Approving(env.members, w.ledger, HashRequest(env, signing.body.request)) && a !in c.corrupt ==>
                          PaidFor(env, w.bank.log, signing.body.request)
    ensures var request, p, token := signing.body.request, signing.body.debit.payload, signing.body.tokenPayload;
            && (exists k :: 0 <= k < |w.bank.log| && w.bank.log[k].outcome == Outcome.Confirmed
                            && w.bank.log[k].debit == signing.body.debit)
            && signing.body.debit.bankSignature == SignedBy(env.bankKey, p)
            && p.requestId == request.requestId && p.meterId == request.meterId && p.amountKwh == request.amountKwh
            && p.amount == env.price(request.amountKwh) && p.currency == env.currency
            && token.debitRef == p.debitRef && token.meterId == p.meterId && token.amountKwh == p.amountKwh
            && signing.body.message == Message(env, token)
  {
    hide Setting, Reachable, Endorsed, HashRequest, Approving, EntriesOk, OneEntryEach, ReversalsOk, LedgerInvariant,
      DispenseInvariant, RunWall1TokenChecks, ValidateDebitForRequest, BankConfirmed, Message, PaidFor;
    ReachableInvariant(env, c, evs, w);
    ChecksVerifyBank(env, signing.body);
    var k := ConfirmedEntry(env, w.bank, signing.body.request, signing.body.debit);
    BodyPassesIff(env, signing.body);
    forall a | a in Approving(env.members, w.ledger, HashRequest(env, signing.body.request)) && a !in c.corrupt
      ensures PaidFor(env, w.bank.log, signing.body.request)
    {
      HonestApproverEndorsed(env, c, w, signing.body.request, a);
      EndorsedIsPaid(env, w.bank, signing.body.request);
    }
  }
}
