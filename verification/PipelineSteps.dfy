/** Each kind of step of the pipeline machine keeps the invariant. */
module PipelineSteps {
  import opened Bank
  import opened Canonical
  import opened Ceremony
  import opened Lists
  import opened Meter
  import opened Pipeline
  import opened PipelineInvariant
  import opened Types
  import opened Verify
  import opened Wrappers

  // ---- facts about the bank's log ---------------------------------------------------

  lemma SameRefSamePayload(bankKey: Text, bank: BankState, p: DebitPayload, q: DebitPayload)
    requires BankInvariant(bankKey, bank) && BankConfirmed(bank.log, p) && BankConfirmed(bank.log, q)
    requires p.debitRef == q.debitRef
    ensures p == q
  {
  }

  lemma ConfirmedRef(bankKey: Text, bank: BankState, p: DebitPayload)
    requires BankInvariant(bankKey, bank) && BankConfirmed(bank.log, p)
    ensures p.debitRef != []
  {
  }

  lemma SameNonceSameRef(env: Env, log: seq<Entry>, p: DebitPayload, q: DebitPayload)
    requires NoncesDistinct(env, log) && BankConfirmed(log, p) && BankConfirmed(log, q)
    requires DeriveTokenNonce(env, p.debitRef) == DeriveTokenNonce(env, q.debitRef)
    ensures p.debitRef == q.debitRef
  {
    hide DeriveTokenNonce, NoncesApart;
    NoncesApartIff(env, p, q);
    NoncesApartIff(env, q, p);
  }

  // ---- the claim always succeeds --------------------------------------------------------

  /** A confirmed debit of a request that holds none yet is unclaimed: the bank
      writes the request into the reference's only entry. */
  lemma UnclaimedDebit(env: Env, st: State, id: Text, p: DebitPayload)
    requires Invariant(env, st) && id in st.runs && st.runs[id].record.debit.None?
    requires BankConfirmed(st.outside.bank.log, p) && p.requestId == id
    ensures p.debitRef !in st.consumed
  {
    hide BankInvariant, NoncesDistinct, BankConfirmed, HistoryOk, FieldsOk, CeremonyOk, ReversalBacked, ReceiptBacked,
      MeterOk, AskedOk, AuditOk, OrderOk;
    if p.debitRef in st.consumed {
      var owner := st.consumed[p.debitRef];
      assert Holds(st, owner, p.debitRef);
      assert RunOk(env, st, owner, st.runs[owner]);
      SameRefSamePayload(env.bankKey, st.outside.bank, p, st.runs[owner].record.debit.value.payload);
    }
  }

  // ---- the token is still accepted --------------------------------------------------------

  /** The meter has not spent the debit of a run that has not delivered, nor its nonce. */
  lemma TokenStillAccepted(env: Env, st: State, id: Text)
    requires Invariant(env, st) && id in st.runs && st.runs[id].record.debit.Some?
    requires st.runs[id].record.status != Delivered
    ensures VerifyTokenForMeter(env, st.meter, TokenFor(env, st.runs[id].record.debit.value)) == Accepted
  {
    hide BankInvariant, NoncesDistinct, BankConfirmed, HistoryOk, FieldsOk, CeremonyOk, ReversalBacked, AskedOk,
      AuditOk, OrderOk, Message, DeriveTokenNonce, NoncesApart;
    var p := st.runs[id].record.debit.value.payload;
    assert RunOk(env, st, id, st.runs[id]);
    if DeriveTokenNonce(env, p.debitRef) in st.meter.usedNonces {
      var ref :| ref in st.meter.usedDebitRefs && DeriveTokenNonce(env, p.debitRef) == DeriveTokenNonce(env, ref);
      var owner := st.consumed[ref];
      assert Holds(st, owner, ref);
      assert RunOk(env, st, owner, st.runs[owner]);
      SameNonceSameRef(env, st.outside.bank.log, p, st.runs[owner].record.debit.value.payload);
    }
  }

  // ---- steps that change one record and nothing shared ---------------------------------------

  lemma StageAdded(r: Record, n: nat)
    requires Progress(r, n) && n < 6
    ensures PREFIX[..n] + [PREFIX[n]] == PREFIX[..n + 1]
    ensures r.history + [PREFIX[n]] == PREFIX[..n + 1]
    ensures n >= 2 ==> r.history[1] == DebitConfirmed
    ensures n >= 3 ==> r.history[2] == Published
    ensures n >= 4 ==> r.history[3] == Approved
    ensures n >= 5 ==> r.history[4] == Signed
  {
  }

  ghost predicate Local(env: Env, before: PipelineRun, run: PipelineRun) {
    && !before.at.Finished? && !before.at.ReversalReply?
    && run.record.request == before.record.request && run.record.debit == before.record.debit
    && run.record.ledger.None? && run.record.debitReversed.None? && run.record.status != Delivered
    && !Undone(run) && (run.at.ReceiptReply? ==> run.at.submitted.None?)
    && HistoryOk(run) && FieldsOk(env, run) && CeremonyOk(env, run.at)
  }

  lemma LocalKeeps(env: Env, st: State, id: Text, run: PipelineRun)
    requires Invariant(env, st) && id in st.runs && Local(env, st.runs[id], run)
    ensures Invariant(env, Put(st, id, run))
  {
    hide BankConfirmed, HistoryOk, FieldsOk, CeremonyOk, SharedOk, BankOk, OrderOk, Receipt;
    LocalReplaces(env, st, id, run);
    PutKeeps(env, st, id, run);
  }

  lemma LocalReplaces(env: Env, st: State, id: Text, run: PipelineRun)
    requires RunsOk(env, st) && id in st.runs && Local(env, st.runs[id], run)
    ensures Replaces(st.runs[id], run) && RunOk(env, st, id, run)
  {
    hide BankConfirmed, Receipt;
    assert RunOk(env, st, id, st.runs[id]);
    UnfinishedReplaceable(env, st, id, st.runs[id]);
  }

  // ---- abandoning ---------------------------------------------------------------------------

  lemma AskKeepsShared(env: Env, st: State, id: Text, r: Record)
    requires SharedOk(env, st) && id in st.runs && r.debit.Some? && Replaces(st.runs[id], PipelineRun(r, ReversalReply))
    requires Ref(r) in st.consumed && st.consumed[Ref(r)] == id && Ref(r) != []
    ensures SharedOk(env, Abandon(st, id, r))
  {
    hide DeriveTokenNonce;
    PutKeepsShared(env, st, id, PipelineRun(r, ReversalReply));
    var st' := Abandon(st, id, r);
    assert DispensedOk(st');
    assert AskedOk(st');
  }

  /** A record that holds a debit and has not delivered can be abandoned. */
  lemma AbandonKeeps(env: Env, st: State, id: Text, r: Record)
    requires Invariant(env, st) && id in st.runs && r.debit.Some?
    requires !st.runs[id].at.Finished? && !st.runs[id].at.ReversalReply?
    requires r.request == st.runs[id].record.request && r.debit == st.runs[id].record.debit
    requires r.ledger.None? && r.debitReversed.None? && r.status != Delivered
    requires HistoryOk(PipelineRun(r, ReversalReply)) && FieldsOk(env, PipelineRun(r, ReversalReply))
    ensures Invariant(env, Abandon(st, id, r)) && Abandon(st, id, r).runs[id] == PipelineRun(r, ReversalReply)
  {
    hide BankConfirmed, HistoryOk, FieldsOk, SharedOk, BankOk, OrderOk, Receipt, Extends;
    var run := PipelineRun(r, ReversalReply);
    assert RunOk(env, st, id, st.runs[id]);
    UnfinishedReplaceable(env, st, id, st.runs[id]);
    var st' := Abandon(st, id, r);
    AskKeepsShared(env, st, id, r);
    SameLogExtends(st.outside.bank.log);
    assert RunOk(env, st', id, run);
    AbandonOrder(st, id, r);
    OthersStay(env, st, st', id);
  }

  lemma AbandonOrder(st: State, id: Text, r: Record)
    requires OrderOk(st)
    ensures OrderOk(Abandon(st, id, r))
  {
  }

  lemma AbandonedRecord(env: Env, r: Record, reversed: bool)
    requires HistoryOk(PipelineRun(r, ReversalReply)) && FieldsOk(env, PipelineRun(r, ReversalReply)) && r.ledger.None?
    ensures HistoryOk(FinishAbandoned(r, reversed)) && FieldsOk(env, FinishAbandoned(r, reversed))
  {
    hide TokenFor;
    var h := FinishAbandoned(r, reversed).record.history;
    assert h[..|h| - 1] == r.history;
    assert |h| >= 5 && h[4] == Signed ==> r.history[4] == Signed;
  }

  lemma FinishAbandonKeeps(env: Env, st: State, id: Text, reversed: bool)
    requires Invariant(env, st) && id in st.runs && st.runs[id].at.ReversalReply?
    requires reversed ==> st.runs[id].record.debit.Some? ==> Ref(st.runs[id].record) in st.outside.bank.reversals
    ensures Invariant(env, Put(st, id, FinishAbandoned(st.runs[id].record, reversed)))
  {
    hide BankConfirmed, SharedOk, BankOk, OrderOk, Receipt, TokenFor, HistoryOk, FieldsOk;
    var run := FinishAbandoned(st.runs[id].record, reversed);
    assert RunOk(env, st, id, st.runs[id]);
    UnfinishedReplaceable(env, st, id, st.runs[id]);
    AbandonedRecord(env, st.runs[id].record, reversed);
    assert RunOk(env, st, id, run);
    PutKeeps(env, st, id, run);
  }

  // ---- claiming a debit ------------------------------------------------------------------------

  lemma ClaimKeepsShared(env: Env, st: State, id: Text, run: PipelineRun)
    requires SharedOk(env, st) && id in st.runs && st.runs[id].record.debit.None? && run.record.debit.Some?
    requires Ref(run.record) !in st.consumed
    requires !Undone(run) && run.record.status != Delivered && run.record.ledger.None?
    requires st.runs[id].record.ledger.None?
    ensures SharedOk(env, Put(st, id, run).(consumed := st.consumed[Ref(run.record) := id]))
  {
    hide DeriveTokenNonce;
    var st' := Put(st, id, run).(consumed := st.consumed[Ref(run.record) := id]);
    assert ClaimsOk(st');
    assert MeterOk(env, st') by {
      forall ref | ref in st.meter.usedDebitRefs
        ensures ref in st'.consumed && st'.consumed[ref] in st'.runs
        ensures st'.runs[st'.consumed[ref]].record.status == Delivered
      {
        assert Holds(st, st.consumed[ref], ref);
      }
    }
    assert AskedOk(st') by {
      forall ref | ref in st.observed.reverseAsked
        ensures ref in st'.consumed && st'.consumed[ref] in st'.runs && Undone(st'.runs[st'.consumed[ref]])
      {
        assert Holds(st, st.consumed[ref], ref);
      }
    }
    assert DispensedOk(st');
    assert AuditOk(st');
  }

  function AfterClaim(st: State, id: Text, debit: Debit): State
    requires id in st.runs
  {
    Put(st, id, PipelineRun(Transition(st.runs[id].record.(debit := Some(debit)), DebitConfirmed), PublishReply))
      .(consumed := st.consumed[debit.payload.debitRef := id])
  }

  lemma ClaimedRun(env: Env, st: State, id: Text, debit: Debit)
    requires id in st.runs && RunOk(env, st, id, st.runs[id]) && st.runs[id].at.DebitReply?
    requires VerifyBankSignature(debit, env.bankKey)
    requires BankConfirmed(st.outside.bank.log, debit.payload) && debit.payload.requestId == id
    requires debit.payload.debitRef != []
    ensures RunOk(env, AfterClaim(st, id, debit), id, AfterClaim(st, id, debit).runs[id])
  {
    hide BankConfirmed, Receipt, TokenFor;
    UnfinishedReplaceable(env, st, id, st.runs[id]);
    StageAdded(st.runs[id].record, 1);
  }

  lemma ClaimKeeps(env: Env, st: State, id: Text, debit: Debit)
    requires Invariant(env, st) && id in st.runs && st.runs[id].at.DebitReply?
    requires VerifyBankSignature(debit, env.bankKey)
    requires BankConfirmed(st.outside.bank.log, debit.payload) && debit.payload.requestId == id
    ensures !ClaimedByOther(st.consumed, debit.payload.debitRef, id)
    ensures Invariant(env, AfterClaim(st, id, debit))
  {
    hide BankConfirmed, SharedOk, BankInvariant, NoncesDistinct, OrderOk, RunOk, Extends;
    ClaimableRun(env, st, id);
    UnclaimedDebit(env, st, id, debit.payload);
    ConfirmedRef(env.bankKey, st.outside.bank, debit.payload);
    ClaimedRun(env, st, id, debit);
    var st' := AfterClaim(st, id, debit);
    ClaimKeepsShared(env, st, id, st'.runs[id]);
    SameLogExtends(st.outside.bank.log);
    ClaimOrder(st, st');
    OthersStay(env, st, st', id);
  }

  lemma ClaimableRun(env: Env, st: State, id: Text)
    requires RunsOk(env, st) && id in st.runs && st.runs[id].at.DebitReply?
    ensures RunOk(env, st, id, st.runs[id]) && st.runs[id].record.debit.None? && st.runs[id].record.ledger.None?
    ensures st.runs[id].record.debitReversed.None?
  {
    hide BankConfirmed, Receipt, TokenFor;
    assert RunOk(env, st, id, st.runs[id]);
  }

  lemma ClaimOrder(st: State, st': State)
    requires OrderOk(st) && st'.order == st.order && forall id :: id in st.runs ==> id in st'.runs
    ensures OrderOk(st')
  {
  }

  // ---- the receipt --------------------------------------------------------------------------------

  lemma SubmittedRun(env: Env, st: State, id: Text, txHash: Text)
    requires id in st.runs && RunOk(env, st, id, st.runs[id]) && st.runs[id].at == ReceiptReply(None)
    ensures RunOk(env, OnSubmitted(st, id, st.runs[id], txHash), id, st.runs[id].(at := ReceiptReply(Some(txHash))))
  {
    hide BankConfirmed, FieldsOk, Progress, Complete, Receipt;
    assert FieldsOk(env, st.runs[id].(at := ReceiptReply(Some(txHash)))) by {
      FieldsIgnoreAwait(env, st.runs[id], ReceiptReply(Some(txHash)));
    }
    UnfinishedReplaceable(env, st, id, st.runs[id]);
  }

  lemma FieldsIgnoreAwait(env: Env, run: PipelineRun, at: Await)
    requires FieldsOk(env, run)
    ensures FieldsOk(env, run.(at := at))
  {
  }

  lemma SubmitKeeps(env: Env, st: State, id: Text, txHash: Text)
    requires Invariant(env, st) && id in st.runs && st.runs[id].at == ReceiptReply(None)
    requires txHash !in st.outside.receipts
    ensures Invariant(env, OnSubmitted(st, id, st.runs[id], txHash))
  {
    hide RunOk, SharedOk, BankOk, OrderOk, Extends;
    SubmittedRun(env, st, id, txHash);
    SameLogExtends(st.outside.bank.log);
    SubmitKeepsShared(env, st, id, txHash);
    ClaimOrder(st, OnSubmitted(st, id, st.runs[id], txHash));
    OthersStay(env, st, OnSubmitted(st, id, st.runs[id], txHash), id);
  }

  lemma SubmitKeepsShared(env: Env, st: State, id: Text, txHash: Text)
    requires SharedOk(env, st) && id in st.runs && st.runs[id].at == ReceiptReply(None)
    requires txHash !in st.outside.receipts
    ensures SharedOk(env, OnSubmitted(st, id, st.runs[id], txHash))
  {
    hide DeriveTokenNonce;
    var st' := OnSubmitted(st, id, st.runs[id], txHash);
    assert ClaimsOk(st') && MeterOk(env, st') && DispensedOk(st');
    assert AskedOk(st');
    assert AuditOk(st');
  }

  /** A receipt that reaches the ledger after its call ended. */
  lemma LateReceiptKeeps(env: Env, st: State, id: Text, txHash: Text)
    requires Invariant(env, st) && id in st.runs && st.runs[id].at != ReceiptReply(None)
    requires txHash !in st.outside.receipts
    ensures Invariant(env, OnSubmitted(st, id, st.runs[id], txHash))
  {
    hide RunOk, SharedOk, BankOk, OrderOk, Extends;
    var st' := OnSubmitted(st, id, st.runs[id], txHash);
    SameLogExtends(st.outside.bank.log);
    LateReceiptShared(env, st, st');
    ClaimOrder(st, st');
    forall x | x in st.runs
      ensures RunOk(env, st', x, st.runs[x])
    {
      RunStays(env, st, st', x, st.runs[x]);
    }
  }

  lemma LateReceiptShared(env: Env, st: State, st': State)
    requires SharedOk(env, st) && st' == st.(outside := st.outside.(receipts := st'.outside.receipts))
    requires MapGrows(st.outside.receipts, st'.outside.receipts)
    ensures SharedOk(env, st')
  {
    hide DeriveTokenNonce, MeterInvariant;
    assert ClaimsOk(st') && MeterOk(env, st') && DispensedOk(st') && AskedOk(st') && AuditOk(st');
  }

  /** What the coordinator holds after a confirmed receipt and its delivery. */
  function AfterDelivery(env: Env, st: State, id: Text): State
    requires id in st.runs && st.runs[id].record.debit.Some? && st.runs[id].at.ReceiptReply?
    requires st.runs[id].at.submitted.Some?
  {
    var r := st.runs[id].record;
    var ledger := Receipt(env, r, st.runs[id].at.submitted.value);
    var token := TokenFor(env, r.debit.value);
    var delivered := Transition(Transition(r.(ledger := Some(ledger)), Recorded)
                                .(dispensedKwh := Some(token.payload.amountKwh)), Delivered);
    Put(st, id, PipelineRun(delivered, Finished)).(
      audit := [ledger] + st.audit,
      meter := MeterState(st.meter.usedNonces + {token.payload.nonce},
                          st.meter.usedDebitRefs + {token.payload.debitRef},
                          st.meter.dispensed + [Dispense(token.payload.meterId, token.payload.amountKwh,
                                                         token.payload.debitRef)]))
  }

  lemma ReceiptDelivers(env: Env, st: State, id: Text)
    requires Invariant(env, st) && id in st.runs && st.runs[id].at.ReceiptReply? && st.runs[id].at.submitted.Some?
    ensures st.runs[id].record.debit.Some?
    ensures st.runs[id].record.token == Some(TokenFor(env, st.runs[id].record.debit.value))
    ensures OnReceipt(env, st, id, st.runs[id].record, st.runs[id].at.submitted, true) == AfterDelivery(env, st, id)
  {
    hide BankConfirmed, SharedOk, BankOk, OrderOk, TokenFor, ReversalBacked, ReceiptBacked, DebitBacked, Message,
      DeriveTokenNonce;
    assert RunOk(env, st, id, st.runs[id]);
    UnfinishedReplaceable(env, st, id, st.runs[id]);
    TokenStillAccepted(env, st, id);
  }

  lemma DeliveryKeepsShared(env: Env, st: State, id: Text)
    requires Invariant(env, st) && id in st.runs && st.runs[id].at.ReceiptReply? && st.runs[id].at.submitted.Some?
    requires st.runs[id].record.debit.Some? && st.runs[id].record.ledger.None? && st.runs[id].record.status != Delivered
    requires !Undone(st.runs[id])
    ensures SharedOk(env, AfterDelivery(env, st, id))
  {
    hide DeriveTokenNonce, Message, BankOk, OrderOk, HistoryOk, FieldsOk, CeremonyOk, ReversalBacked, BankConfirmed,
      HashRequest;
    var st' := AfterDelivery(env, st, id);
    assert RunOk(env, st, id, st.runs[id]);
    assert ClaimsOk(st');
    DeliveryKeepsMeter(env, st, id);
    assert AskedOk(st');
    DeliveryDispenses(env, st, id);
    DeliveryKeepsAudit(env, st, id);
  }

  lemma DeliveryKeepsMeter(env: Env, st: State, id: Text)
    requires MeterOk(env, st) && id in st.runs && st.runs[id].at.ReceiptReply? && st.runs[id].at.submitted.Some?
    requires st.runs[id].record.debit.Some? && Ref(st.runs[id].record) in st.consumed
    requires st.consumed[Ref(st.runs[id].record)] == id
    ensures MeterOk(env, AfterDelivery(env, st, id))
  {
    hide DeriveTokenNonce, Message, HashRequest;
    var st' := AfterDelivery(env, st, id);
    var ref := Ref(st.runs[id].record);
    assert st'.meter.usedDebitRefs == st.meter.usedDebitRefs + {ref};
    assert st'.meter.usedNonces == st.meter.usedNonces + {DeriveTokenNonce(env, ref)};
  }

  lemma DeliveryDispenses(env: Env, st: State, id: Text)
    requires Invariant(env, st) && id in st.runs && st.runs[id].at.ReceiptReply? && st.runs[id].at.submitted.Some?
    requires st.runs[id].record.debit.Some? && st.runs[id].record.status != Delivered
    ensures DispensedOk(AfterDelivery(env, st, id))
  {
    hide BankOk, OrderOk, Message, DeriveTokenNonce, HashRequest, MeterInvariant, MeterOk, AskedOk, AuditOk,
      HistoryOk, FieldsOk, CeremonyOk, BankConfirmed;
    assert RunOk(env, st, id, st.runs[id]);
    var token := TokenFor(env, st.runs[id].record.debit.value);
    TokenStillAccepted(env, st, id);
    DeliverKeepsInvariant(env, st.meter, token);
    assert AfterDelivery(env, st, id).meter == DeliverToken(env, st.meter, token).0;
  }

  lemma DeliveryKeepsAudit(env: Env, st: State, id: Text)
    requires AuditOk(st) && id in st.runs && st.runs[id].at.ReceiptReply? && st.runs[id].at.submitted.Some?
    requires st.runs[id].record.debit.Some? && st.runs[id].record.ledger.None?
    requires st.runs[id].at.submitted.value in st.outside.receipts
    requires st.outside.receipts[st.runs[id].at.submitted.value] == id
    ensures AuditOk(AfterDelivery(env, st, id))
  {
    hide TokenFor, HashRequest;
    var st' := AfterDelivery(env, st, id);
    var ledger := Receipt(env, st.runs[id].record, st.runs[id].at.submitted.value);
    assert st'.runs[id].record.ledger == Some(ledger);
    assert ledger !in st.audit;
    assert st'.audit == [ledger] + st.audit;
  }

  lemma DeliveredRecord(env: Env, r: Record, ledger: LedgerRecord)
    requires Progress(r, 5) && FieldsOk(env, PipelineRun(r, ReceiptReply(None))) && r.debit.Some?
    ensures var delivered := Transition(Transition(r.(ledger := Some(ledger)), Recorded)
                                        .(dispensedKwh := Some(TokenFor(env, r.debit.value).payload.amountKwh)),
                              Delivered);
            Complete(delivered) && FieldsOk(env, PipelineRun(delivered, Finished))
  {
    hide Message, DeriveTokenNonce, Distinct;
    StageAdded(r, 5);
  }

  lemma DeliveredRun(env: Env, st: State, id: Text)
    requires Invariant(env, st) && id in st.runs && st.runs[id].at.ReceiptReply? && st.runs[id].at.submitted.Some?
    requires st.runs[id].record.debit.Some?
    ensures RunOk(env, AfterDelivery(env, st, id), id, AfterDelivery(env, st, id).runs[id])
  {
    hide BankConfirmed, SharedOk, BankOk, OrderOk, Message, DeriveTokenNonce, HashRequest, FieldsOk, Progress, Complete;
    assert RunOk(env, st, id, st.runs[id]);
    UnfinishedReplaceable(env, st, id, st.runs[id]);
    FieldsIgnoreAwait(env, st.runs[id], ReceiptReply(None));
    DeliveredRecord(env, st.runs[id].record, Receipt(env, st.runs[id].record, st.runs[id].at.submitted.value));
  }

  lemma DeliverKeeps(env: Env, st: State, id: Text)
    requires Invariant(env, st) && id in st.runs && st.runs[id].at.ReceiptReply? && st.runs[id].at.submitted.Some?
    requires st.runs[id].record.debit.Some?
    ensures Invariant(env, AfterDelivery(env, st, id))
  {
    hide RunOk, SharedOk, BankOk, OrderOk, TokenFor, HashRequest, Extends;
    UnfinishedReplaceable(env, st, id, st.runs[id]);
    DeliveredRun(env, st, id);
    DeliveryKeepsShared(env, st, id);
    SameLogExtends(st.outside.bank.log);
    var st' := AfterDelivery(env, st, id);
    ClaimOrder(st, st');
    OthersStay(env, st, st', id);
  }
}
