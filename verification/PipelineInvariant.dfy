/** What every step of the pipeline machine keeps, under any interleaving. */
module PipelineInvariant {
  import opened Bank
  import opened Canonical
  import opened Ceremony
  import opened Lists
  import opened Meter
  import opened Pipeline
  import opened Types
  import opened Verify
  import opened Wrappers

  // ---- one run ----------------------------------------------------------------------

  const PREFIX: seq<Status> := [Pending, DebitConfirmed, Published, Approved, Signed, Recorded]

  /** The first n statuses of a run that has not failed. */
  ghost predicate Progress(r: Record, n: nat) {
    1 <= n <= 6 && r.history == PREFIX[..n] && r.status == PREFIX[n - 1]
  }

  /** PENDING, a prefix of the five stages, and one terminal status: DELIVERED
      after all five, REJECTED straight after PENDING, REJECTED_ABANDONED after
      DEBIT_CONFIRMED. */
  ghost predicate Complete(r: Record) {
    match r.status
    case Delivered => r.history == PREFIX + [Delivered]
    case Rejected => r.history == [Pending, Rejected]
    case RejectedAbandoned =>
      3 <= |r.history| <= 6 && r.history == PREFIX[..|r.history| - 1] + [RejectedAbandoned]
    case _ => false
  }

  ghost predicate HistoryOk(run: PipelineRun) {
    match run.at
    case PreflightPoll => Progress(run.record, 1)
    case DebitReply => Progress(run.record, 1)
    case PublishReply => Progress(run.record, 2)
    case ApproverPoll => Progress(run.record, 3)
    case ApprovalsRead => Progress(run.record, 3)
    case OnlinePoll => Progress(run.record, 4)
    case CeremonyReply(_, _, _) => Progress(run.record, 4)
    case ReceiptReply(_) => Progress(run.record, 5)
    case ReversalReply => 2 <= |run.record.history| <= 5 && Progress(run.record, |run.record.history|)
    case Finished => Complete(run.record)
  }

  /** What stands behind a stage: a publication, a quorum of approvals, as many
      different signers as the threshold. */
  ghost predicate EvidenceOk(env: Env, r: Record) {
    && (|r.history| >= 3 && r.history[2] == Published ==> r.publication.Some?)
    && (|r.history| >= 4 && r.history[3] == Approved ==> r.approvals.Some? && r.approvals.value >= env.quorum)
    && (|r.history| >= 5 && r.history[4] == Signed ==> |r.signerSet| == env.threshold && Distinct(r.signerSet))
  }

  /** Which fields are set, from the status history. */
  ghost predicate FieldsOk(env: Env, run: PipelineRun) {
    var r := run.record;
    && (r.debit.Some? <==> |r.history| >= 2 && r.history[1] == DebitConfirmed)
    && (|r.history| >= 5 && r.history[4] == Signed ==> r.debit.Some? && r.token == Some(TokenFor(env, r.debit.value)))
    && (r.ledger.Some? <==> r.status == Delivered)
    && (r.status == Delivered ==> r.debit.Some? && r.dispensedKwh == Some(r.debit.value.payload.amountKwh))
    && (r.debitReversed.Some? <==> r.status == RejectedAbandoned)
    && EvidenceOk(env, r)
  }

  /** Each refusal took one member out of the pool. */
  ghost predicate CeremonyOk(env: Env, at: Await) {
    at.CeremonyReply? ==>
      && DistinctSigners(at.online) && |Pool(at.online, at.refused)| >= env.threshold
      && at.ceremonies == |at.online| - |Pool(at.online, at.refused)| + 1
  }

  function Ref(r: Record): Text
    requires r.debit.Some?
  {
    r.debit.value.payload.debitRef
  }

  /** The debit a run holds is confirmed at the bank, for this request, and claimed by it. */
  ghost predicate DebitBacked(env: Env, st: State, id: Text, r: Record) {
    r.debit.Some? ==>
      && VerifyBankSignature(r.debit.value, env.bankKey)
      && BankConfirmed(st.outside.bank.log, r.debit.value.payload) && r.debit.value.payload.requestId == id
      && Ref(r) != [] && Ref(r) in st.consumed && st.consumed[Ref(r)] == id
  }

  predicate Undone(run: PipelineRun) {
    run.at.ReversalReply? || run.record.status == RejectedAbandoned
  }

  ghost predicate ReversalBacked(st: State, run: PipelineRun) {
    && (Undone(run) && run.record.debit.Some? ==> Ref(run.record) in st.observed.reverseAsked)
    && (run.record.debitReversed == Some(true) && run.record.debit.Some? ==>
        Ref(run.record) in st.outside.bank.reversals)
  }

  ghost predicate ReceiptBacked(env: Env, st: State, id: Text, run: PipelineRun) {
    && (run.at.ReceiptReply? && run.at.submitted.Some? ==>
          run.at.submitted.value in st.outside.receipts && st.outside.receipts[run.at.submitted.value] == id)
    && (run.record.status == Delivered && run.record.debit.Some? && run.record.ledger.Some? ==>
          && Ref(run.record) in st.meter.usedDebitRefs && run.record.ledger.value in st.audit
          && run.record.ledger.value == Receipt(env, run.record, run.record.ledger.value.txHash)
          && run.record.ledger.value.txHash in st.outside.receipts
          && st.outside.receipts[run.record.ledger.value.txHash] == id)
  }

  ghost predicate RunOk(env: Env, st: State, id: Text, run: PipelineRun) {
    && run.record.request.requestId == id
    && HistoryOk(run) && FieldsOk(env, run) && CeremonyOk(env, run.at)
    && DebitBacked(env, st, id, run.record) && ReversalBacked(st, run) && ReceiptBacked(env, st, id, run)
  }

  // ---- what the runs share -------------------------------------------------------------

  ghost predicate Holds(st: State, id: Text, ref: Text) {
    id in st.runs && st.runs[id].record.debit.Some? && Ref(st.runs[id].record) == ref
  }

  ghost predicate ClaimsOk(st: State) {
    forall ref :: ref in st.consumed ==> Holds(st, st.consumed[ref], ref)
  }

  /** What the meter spent belongs to delivered runs. */
  ghost predicate MeterOk(env: Env, st: State) {
    && (forall ref :: ref in st.meter.usedDebitRefs ==>
          ref in st.consumed && st.consumed[ref] in st.runs && st.runs[st.consumed[ref]].record.status == Delivered)
    && (forall nonce :: nonce in st.meter.usedNonces ==>
          exists ref :: ref in st.meter.usedDebitRefs && nonce == DeriveTokenNonce(env, ref))
  }

  /** The units a debit pays for, at its meter. */
  function Paid(p: DebitPayload): Dispense {
    Dispense(p.meterId, p.amountKwh, p.debitRef)
  }

  /** At most one dispense per debit, each exactly what the debit pays for. */
  ghost predicate DispensedOk(st: State) {
    && MeterInvariant(st.meter)
    && forall i :: 0 <= i < |st.meter.dispensed| ==>
         var ref := st.meter.dispensed[i].debitRef;
         && ref in st.consumed && Holds(st, st.consumed[ref], ref)
         && st.meter.dispensed[i] == Paid(st.runs[st.consumed[ref]].record.debit.value.payload)
  }

  /** A reversal was asked for only where the run is being undone. */
  ghost predicate AskedOk(st: State) {
    forall ref :: ref in st.observed.reverseAsked ==>
      ref in st.consumed && st.consumed[ref] in st.runs && Undone(st.runs[st.consumed[ref]])
  }

  /** Every audited receipt is the receipt of a run, once. */
  ghost predicate AuditOk(st: State) {
    && (forall a :: a in st.audit ==>
          a.txHash in st.outside.receipts && st.outside.receipts[a.txHash] in st.runs
          && st.runs[st.outside.receipts[a.txHash]].record.ledger == Some(a))
    && Distinct(st.audit)
  }

  ghost predicate NoncesDistinct(env: Env, log: seq<Entry>) {
    forall i, j :: 0 <= i < j < |log| ==>
      NoncesApart(env, log[i].debit.payload.debitRef, log[j].debit.payload.debitRef)
  }

  ghost predicate OrderOk(st: State) {
    Distinct(st.order) && |st.order| <= REQUEST_CAP && forall id :: id in st.order ==> id in st.runs
  }

  ghost predicate SharedOk(env: Env, st: State) {
    ClaimsOk(st) && MeterOk(env, st) && DispensedOk(st) && AskedOk(st) && AuditOk(st)
  }

  ghost predicate RunsOk(env: Env, st: State) {
    forall id :: id in st.runs ==> RunOk(env, st, id, st.runs[id])
  }

  ghost predicate BankOk(env: Env, bank: BankState) {
    BankInvariant(env.bankKey, bank) && NoncesDistinct(env, bank.log)
  }

  ghost predicate Invariant(env: Env, st: State) {
    RunsOk(env, st) && SharedOk(env, st) && BankOk(env, st.outside.bank) && OrderOk(st)
  }

  // ---- growth --------------------------------------------------------------------------------

  ghost predicate MapGrows<K(!new), V(!new)>(m: map<K, V>, m': map<K, V>) {
    forall k :: k in m ==> k in m' && m'[k] == m[k]
  }

  ghost predicate Grows(st: State, st': State) {
    && Extends(st.outside.bank.log, st'.outside.bank.log)
    && (forall ref :: ref in st.outside.bank.reversals ==> ref in st'.outside.bank.reversals)
    && MapGrows(st.consumed, st'.consumed) && MapGrows(st.outside.receipts, st'.outside.receipts)
    && st.observed.reverseAsked <= st'.observed.reverseAsked && st.meter.usedDebitRefs <= st'.meter.usedDebitRefs
    && (forall a :: a in st.audit ==> a in st'.audit)
  }

  lemma RunStays(env: Env, st: State, st': State, id: Text, run: PipelineRun)
    requires RunOk(env, st, id, run) && Grows(st, st')
    ensures RunOk(env, st', id, run)
  {
    hide HistoryOk, FieldsOk, CeremonyOk, BankConfirmed, Receipt, Extends;
    ConfirmedStays(st.outside.bank.log, st'.outside.bank.log);
  }

  /** When only run id changed and the rest grew, the other runs stay fine. */
  lemma OthersStay(env: Env, st: State, st': State, id: Text)
    requires RunsOk(env, st) && Grows(st, st') && id in st'.runs && RunOk(env, st', id, st'.runs[id])
    requires forall other :: other in st'.runs && other != id ==> other in st.runs && st'.runs[other] == st.runs[other]
    ensures RunsOk(env, st')
  {
    hide RunOk, Grows;
    forall other | other in st'.runs
      ensures RunOk(env, st', other, st'.runs[other])
    {
      if other != id {
        RunStays(env, st, st', other, st'.runs[other]);
      }
    }
  }

  // ---- replacing one run --------------------------------------------------------------------

  /** What a replacement may not change about a run the shared state refers to. */
  ghost predicate Replaces(old_: PipelineRun, run: PipelineRun) {
    && !old_.at.Finished? && old_.record.status != Delivered && old_.record.ledger.None?
    && run.record.debit == old_.record.debit && run.record.ledger.None?
    && (Undone(old_) ==> Undone(run))
  }

  lemma PutKeepsShared(env: Env, st: State, id: Text, run: PipelineRun)
    requires SharedOk(env, st) && id in st.runs && Replaces(st.runs[id], run)
    ensures SharedOk(env, Put(st, id, run))
  {
    hide DeriveTokenNonce;
    var st' := Put(st, id, run);
    assert ClaimsOk(st');
    assert MeterOk(env, st');
    assert DispensedOk(st');
    assert AskedOk(st');
    assert AuditOk(st');
  }

  lemma PutKeeps(env: Env, st: State, id: Text, run: PipelineRun)
    requires Invariant(env, st) && id in st.runs && Replaces(st.runs[id], run) && RunOk(env, st, id, run)
    ensures Invariant(env, Put(st, id, run))
  {
    hide RunOk, SharedOk, BankOk, Replaces, Extends;
    var st' := Put(st, id, run);
    PutKeepsShared(env, st, id, run);
    SameLogExtends(st.outside.bank.log);
    RunSame(env, st, st', id, run);
    OthersStay(env, st, st', id);
  }

  /** A run's own conditions do not look at other runs. */
  lemma RunSame(env: Env, st: State, st': State, id: Text, run: PipelineRun)
    requires RunOk(env, st, id, run)
    requires st' == st.(runs := st'.runs)
    ensures RunOk(env, st', id, run)
  {
    hide HistoryOk, FieldsOk, CeremonyOk, BankConfirmed, Receipt;
  }

  lemma UnfinishedReplaceable(env: Env, st: State, id: Text, run: PipelineRun)
    requires RunOk(env, st, id, run) && !run.at.Finished?
    ensures run.record.status != Delivered && run.record.ledger.None? && run.record.status != RejectedAbandoned
    ensures run.record.debitReversed.None?
  {
    hide Receipt, BankConfirmed;
  }
}
