/** What each branch of a run comes to, field by field and whatever follows: the
    debit it asks for, early rejections, the polls, the reversal, the receipt. */
module PipelineOutcomes {
  import opened Approvals
  import opened Attestation
  import opened Bank
  import opened BankTheorems
  import opened Canonical
  import opened Ceremony
  import Frost
  import opened Lists
  import opened Meter
  import opened Pipeline
  import opened PipelineEvidence
  import opened PipelineFrame
  import opened PipelineInvariant
  import opened PipelineReceipts
  import opened PipelineRuns
  import opened PipelineSteps
  import opened PipelineTheorems
  import opened PipelineWitnesses
  import opened Types
  import opened Verify
  import opened Wrappers

  // ---- the debit ------------------------------------------------------------------------------

  /** The debit the bank signed and confirmed for a request: its id, meter and units,
      at the price of those units. */
  ghost predicate EntryFor(env: Env, e: Entry, request: Request) {
    var p := e.debit.payload;
    && e.outcome == Outcome.Confirmed && e.debit.bankSignature == SignedBy(env.bankKey, p)
    && p.requestId == request.requestId && p.meterId == request.meterId && p.amountKwh == request.amountKwh
    && p.amount == env.price(request.amountKwh) && p.currency == env.currency
  }

  /** What handling the run's own debit call logs. */
  lemma HandledFields(env: Env, st: State, id: Text, debitRef: Text, at: Text)
    requires id in st.runs && st.runs[id].record.request.requestId == id && id != []
    requires st.runs[id].record.request.meterId != []
    requires st.outside.bank.mode == Confirm && !Knows(st.outside.bank.log, id)
    ensures var st', log, request := Step(env, st, DebitHandled(id, debitRef, at)), st.outside.bank.log,
                                     st.runs[id].record.request;
            && st'.runs == st.runs && |st'.outside.bank.log| == |log| + 1 && st'.outside.bank.log[..|log|] == log
            && var e := st'.outside.bank.log[|log|];
            && EntryFor(env, e, request) && e.debit.payload.debitRef == debitRef && e.debit.payload.confirmedAt == at
            && e.debit.payload.amountKwh == request.amountKwh && e.debit.payload.amount == env.price(request.amountKwh)
  {
    hide HandleDebit;
    var request := st.runs[id].record.request;
    var call := DebitRequest(request.requestId, request.merchantId, request.meterId, request.amountKwh,
                             env.price(request.amountKwh), env.currency);
    TakenAsAsked(env.bankKey, st.outside.bank, call, debitRef, at);
  }

  /** A run that waits for its debit, a bank that confirms and has not seen the request:
      the bank takes exactly the price of the requested units, for this request and its
      meter; every member that does not refuse approves that debit; and its answer
      takes the run to publication. */
  lemma DebitAsRequested(env: Env, evs: seq<PipelineEvent>, st: State, id: Text, debitRef: Text, at: Text)
    returns (evs': seq<PipelineEvent>, st': State, debit: Debit)
    requires Reachable(env, evs, st) && id in st.runs && st.runs[id].at.DebitReply?
    requires id != [] && st.runs[id].record.request.meterId != []
    requires st.outside.bank.mode == Confirm && !Knows(st.outside.bank.log, id)
    requires FreshRef(st.outside.bank, debitRef) && FreshNonce(env, st.outside.bank, debitRef)
    ensures evs' == evs + [DebitHandled(id, debitRef, at)] + [DebitReplied(id, Answered(debit))]
    ensures Reachable(env, evs', st')
    ensures var request, p := st.runs[id].record.request, debit.payload;
            && debit.bankSignature == SignedBy(env.bankKey, p) && p.debitRef == debitRef && p.requestId == id
            && p.meterId == request.meterId && p.amountKwh == request.amountKwh
            && p.amount == env.price(request.amountKwh) && p.currency == env.currency
            && Attest(env, false, HashRequest(env, request), request, debit) == Approve
    ensures id in st'.runs && st'.runs[id].at.PublishReply? && st'.runs[id].record.debit == Some(debit)
    ensures st'.runs[id].record.status == DebitConfirmed
  {
    hide Reachable, Invariant, FreshRef, FreshNonce, Allows, Step, Knows, HashRequest;
    ReachableInvariant(env, evs, st);
    RequestOf(env, st, id);
    var handled := DebitHandled(id, debitRef, at);
    DebitMayBeHandled(env, st, id, debitRef, at);
    ReachableStep(env, evs, st, handled);
    HandledFields(env, st, id, debitRef, at);
    var st1 := Step(env, st, handled);
    var e := st1.outside.bank.log[|st.outside.bank.log|];
    debit := e.debit;
    ApprovesIff(env, false, HashRequest(env, st.runs[id].record.request), st.runs[id].record.request, debit);
    AnswerMayCome(env, st1, id, |st.outside.bank.log|);
    var answered := DebitReplied(id, Answered(debit));
    ReachableInvariant(env, evs + [handled], st1);
    ReachableStep(env, evs + [handled], st1, answered);
    GoodAnswer(env, st1, id, debit);
    evs', st' := evs + [handled] + [answered], Step(env, st1, answered);
  }

  lemma DebitMayBeHandled(env: Env, st: State, id: Text, debitRef: Text, at: Text)
    requires id in st.runs && st.runs[id].at.DebitReply?
    requires FreshRef(st.outside.bank, debitRef) && FreshNonce(env, st.outside.bank, debitRef)
    ensures Allows(env, st, DebitHandled(id, debitRef, at))
  {
  }

  lemma AnswerMayCome(env: Env, st: State, id: Text, k: nat)
    requires k < |st.outside.bank.log| && st.outside.bank.log[k].outcome == Outcome.Confirmed
    ensures Allows(env, st, DebitReplied(id, Answered(st.outside.bank.log[k].debit)))
  {
  }

  /** A verified answer is held and the run publishes. */
  lemma GoodAnswer(env: Env, st: State, id: Text, debit: Debit)
    requires Invariant(env, st) && id in st.runs && st.runs[id].at.DebitReply?
    requires st.runs[id].record.request.requestId == id
    requires debit.bankSignature == SignedBy(env.bankKey, debit.payload) && debit.payload.requestId == id
    requires exists k :: 0 <= k < |st.outside.bank.log| && st.outside.bank.log[k].outcome == Outcome.Confirmed
                         && st.outside.bank.log[k].debit == debit
    ensures var st' := Step(env, st, DebitReplied(id, Answered(debit)));
            && id in st'.runs && st'.runs[id].at.PublishReply? && st'.runs[id].record.debit == Some(debit)
            && st'.runs[id].record.status == DebitConfirmed
  {
    hide Invariant;
    RunIsReady(env, st, id);
    UnclaimedDebit(env, st, id, debit.payload);
  }

  /** One debit for a request: whatever a run came to hold is what the bank's entry says. */
  lemma HeldIsEntry(env: Env, st: State, id: Text, k: nat)
    requires Invariant(env, st) && id in st.runs && st.runs[id].record.debit.Some?
    requires k < |st.outside.bank.log| && st.outside.bank.log[k].debit.payload.requestId == id
    ensures st.runs[id].record.debit.value.payload == st.outside.bank.log[k].debit.payload
  {
    hide SharedOk, OrderOk, HistoryOk, FieldsOk, CeremonyOk, ReversalBacked, ReceiptBacked, EntriesOk, ReversalsOk,
      NoncesDistinct;
    assert RunOk(env, st, id, st.runs[id]);
    var p := st.runs[id].record.debit.value.payload;
    var i :| 0 <= i < |st.outside.bank.log| && st.outside.bank.log[i].debit.payload == p
             && st.outside.bank.log[i].outcome == Outcome.Confirmed;
    assert i == k;
  }

  /** Once the bank took a run's own debit call, whatever follows: if the run is ever
      delivered, what the meter dispensed is the requested units to the requested
      meter, under the one debit the bank took for it, at the price of those units. */
  lemma DeliveredOnOwnDebit(env: Env, evs: seq<PipelineEvent>, st: State, id: Text, debitRef: Text, at: Text,
                            more: seq<PipelineEvent>) returns (i: nat)
    requires Reachable(env, evs, st) && id in st.runs && st.runs[id].at.DebitReply?
    requires id != [] && st.runs[id].record.request.meterId != []
    requires st.outside.bank.mode == Confirm && !Knows(st.outside.bank.log, id)
    requires FreshRef(st.outside.bank, debitRef) && FreshNonce(env, st.outside.bank, debitRef)
    requires AllAllow(env, Step(env, st, DebitHandled(id, debitRef, at)), more)
    requires var st' := Proceed(env, Step(env, st, DebitHandled(id, debitRef, at)), more);
             id in st'.runs && st'.runs[id].record.status == Delivered
    ensures var st', request := Proceed(env, Step(env, st, DebitHandled(id, debitRef, at)), more),
                                st.runs[id].record.request;
            && i < |st'.meter.dispensed|
            && st'.meter.dispensed[i] == Dispense(request.meterId, request.amountKwh, debitRef)
            && st'.runs[id].record.request == request && st'.runs[id].record.debit.Some?
            && var p := st'.runs[id].record.debit.value.payload;
            && p.debitRef == debitRef && p.amount == env.price(request.amountKwh) && p.currency == env.currency
            && st'.runs[id].record.dispensedKwh == Some(request.amountKwh)
  {
    hide Reachable, Invariant, FreshRef, FreshNonce, Allows, Step, Knows, AllAllow, Proceed, Extends;
    ReachableInvariant(env, evs, st);
    RequestOf(env, st, id);
    DebitMayBeHandled(env, st, id, debitRef, at);
    var handled := DebitHandled(id, debitRef, at);
    ReachableStep(env, evs, st, handled);
    HandledFields(env, st, id, debitRef, at);
    var st1, k := Step(env, st, handled), |st.outside.bank.log|;
    ReachableInvariant(env, evs + [handled], st1);
    PipelineFrame.ProceedKeeps(env, st1, more, id);
    ReachableOn(env, evs + [handled], st1, more);
    var st' := Proceed(env, st1, more);
    DeliveredNotReversed(env, evs + [handled] + more, st', id);
    EntryStays(st1.outside.bank.log, st'.outside.bank.log, k);
    HeldIsEntry(env, st', id, k);
    DispensedKwh(env, st', id);
    i :| 0 <= i < |st'.meter.dispensed| && st'.meter.dispensed[i] == Paid(st'.runs[id].record.debit.value.payload);
  }

  lemma DispensedKwh(env: Env, st: State, id: Text)
    requires Invariant(env, st) && id in st.runs && st.runs[id].record.status == Delivered
    ensures st.runs[id].record.debit.Some?
    ensures st.runs[id].record.dispensedKwh == Some(st.runs[id].record.debit.value.payload.amountKwh)
  {
    hide SharedOk, OrderOk, BankOk, HistoryOk, CeremonyOk, DebitBacked, ReversalBacked, ReceiptBacked, TokenFor,
      EvidenceOk;
    assert RunOk(env, st, id, st.runs[id]);
  }

  lemma EntryStays(log: seq<Entry>, log': seq<Entry>, k: nat)
    requires Extends(log, log') && k < |log|
    ensures k < |log'| && log'[k].debit == log[k].debit && log'[k].outcome == log[k].outcome
  {
  }

  // ---- early rejections ---------------------------------------------------------------------------

  /** Rejected before its debit call was made. */
  ghost predicate NeverAsked(st: State, id: Text) {
    id in st.runs && st.runs[id].at.Finished? && st.runs[id].record.status == Rejected
    && st.runs[id].record.history == [Pending, Rejected] && st.runs[id].record.debit.None?
    && id !in st.observed.answers
  }

  lemma AnswersAfter(env: Env, st: State, ev: PipelineEvent, id: Text)
    requires Invariant(env, st) && Allows(env, st, ev) && id in st.runs && st.runs[id].at.Finished?
    requires id !in st.observed.answers
    ensures id !in Step(env, st, ev).observed.answers
  {
    hide Invariant, Resume, Ready, FreshRef, FreshNonce, Bank.Apply, Retain, Answers, RunAllows, BankActs;
    BankLeavesObserved(env, st, ev);
    if AtRun(ev) && ev.id in st.runs && Answers(env, ev, st.runs[ev.id].at) && Ready(env, st.runs[ev.id])
       && !ev.ReceiptSubmitted? {
      AnswersOwn(env, st, ev.id, ev, id);
      NotFinished(env, ev, st.runs[ev.id].at);
      StepIsResume(env, st, ev.id, ev);
    }
  }

  lemma NotFinished(env: Env, ev: PipelineEvent, at: Await)
    requires Answers(env, ev, at)
    ensures !at.Finished?
  {
    hide Shaped;
  }

  lemma BankLeavesObserved(env: Env, st: State, ev: PipelineEvent)
    ensures ev.AtBank? ==> Step(env, st, ev).observed == st.observed
    ensures ev.DebitHandled? ==> Step(env, st, ev).observed == st.observed
  {
    hide Bank.Apply;
  }

  lemma AbandonNotesNone()
    ensures forall st: State, id: Text, r: Record ::
              Abandon(st, id, r).observed.answers == st.observed.answers
  {
  }

  /** A reply notes an answer of its own run only. */
  lemma AnswersOwn(env: Env, st: State, id: Text, ev: PipelineEvent, other: Text)
    requires id in st.runs && Answers(env, ev, st.runs[id].at) && Ready(env, st.runs[id])
    ensures other != id && other !in st.observed.answers ==>
              other !in Resume(env, st, id, st.runs[id], ev).observed.answers
  {
    hide CeremonyOf, OutcomeOf, TokenFor, VerifyTokenForMeter, DeliverToken, Receipt, Transition, CountSeen, ReadThrows,
      Chosen, Pool, Shaped, ClaimedByOther, Abandon, FinishAbandoned;
    AbandonNotesNone();
  }

  /** Whatever follows such a rejection: it stays REJECTED without a debit, and no
      debit call of it is ever handled by the bank. */
  lemma {:induction false} StaysUnasked(env: Env, st: State, evs: seq<PipelineEvent>, id: Text)
    requires Invariant(env, st) && NeverAsked(st, id) && AllAllow(env, st, evs)
    ensures NeverAsked(Proceed(env, st, evs), id)
    ensures forall k, debitRef, at :: 0 <= k < |evs| ==> evs[k] != DebitHandled(id, debitRef, at)
    decreases |evs|
  {
    hide Invariant, Step;
    if evs != [] {
      AnswersAfter(env, st, evs[0], id);
      UnansweredStays(env, st, evs[0], id) by {
        if AtRun(evs[0]) && evs[0].id == id && Answers(env, evs[0], st.runs[id].at) {
          NotFinished(env, evs[0], st.runs[id].at);
        }
      }
      StepKeeps(env, st, evs[0]);
      StaysUnasked(env, Step(env, st, evs[0]), evs[1..], id);
    }
  }

  /** A request from a merchant that is unknown or revoked, or found with fewer than
      `threshold` members online, is REJECTED at once and for ever, and the bank is
      never asked; with enough members online its debit call is made next. */
  lemma UnknownMerchantRejected(env: Env, evs: seq<PipelineEvent>, st: State, request: Request,
                                more: seq<PipelineEvent>)
    requires Reachable(env, evs, st) && request.requestId !in st.order
    requires Allows(env, st, Requested(request, true, false))
    requires AllAllow(env, Step(env, st, Requested(request, true, false)), more)
    ensures var id := request.requestId;
            && NeverAsked(Proceed(env, Step(env, st, Requested(request, true, false)), more), id)
            && forall k, debitRef, at :: 0 <= k < |more| ==> more[k] != DebitHandled(id, debitRef, at)
  {
    hide Reachable, Invariant, Allows, AllAllow, Proceed;
    ReachableInvariant(env, evs, st);
    NewId(env, st, request, false);
    NewIdUnanswered(env, evs, st, request.requestId);
    RejectedAtOnce(env, st, request);
    StepKeeps(env, st, Requested(request, true, false));
    StaysUnasked(env, Step(env, st, Requested(request, true, false)), more, request.requestId);
  }

  lemma NewId(env: Env, st: State, request: Request, merchantOk: bool)
    requires Allows(env, st, Requested(request, true, merchantOk)) && request.requestId !in st.order
    ensures request.requestId !in st.runs && request.requestId != []
  {
  }

  lemma NewIdUnanswered(env: Env, evs: seq<PipelineEvent>, st: State, id: Text)
    requires Reachable(env, evs, st) && id !in st.runs
    ensures id !in st.observed.answers
  {
    hide Reachable, Invariant, RecordsBacked, AnswerFits;
    ReachableEvidence(env, evs, st);
  }

  lemma RejectedAtOnce(env: Env, st: State, request: Request)
    requires request.requestId !in st.order && request.requestId !in st.observed.answers
    ensures NeverAsked(Step(env, st, Requested(request, true, false)), request.requestId)
  {
    hide Retain;
  }

  /** The preflight poll: with fewer than `threshold` members online the request is
      REJECTED, for ever, and the bank is never asked; otherwise its debit call is made
      next. */
  lemma PreflightDecides(env: Env, evs: seq<PipelineEvent>, st: State, id: Text, online: seq<SignerInfo>,
                         more: seq<PipelineEvent>)
    requires Reachable(env, evs, st) && id in st.runs && st.runs[id].at.PreflightPoll? && DistinctSigners(online)
    requires AllAllow(env, Step(env, st, PreflightPolled(id, online)), more)
    ensures var st1 := Step(env, st, PreflightPolled(id, online));
            && id in st1.runs
            && (|online| >= env.threshold <==> st1.runs[id].at.DebitReply?)
            && (|online| < env.threshold ==>
                  && NeverAsked(Proceed(env, st1, more), id)
                  && forall k, debitRef, at :: 0 <= k < |more| ==> more[k] != DebitHandled(id, debitRef, at))
  {
    hide Reachable, Invariant, AllAllow, Proceed, RecordsBacked, AnswersFit;
    ReachableEvidence(env, evs, st);
    RunIsReady(env, st, id);
    PreflightUnanswered(env, st, id);
    PreflightProgress(env, st, id);
    if |online| < env.threshold {
      StepKeeps(env, st, PreflightPolled(id, online));
      StaysUnasked(env, Step(env, st, PreflightPolled(id, online)), more, id);
    }
  }

  lemma PreflightUnanswered(env: Env, st: State, id: Text)
    requires AnswersFit(env, st) && id in st.runs && st.runs[id].at.PreflightPoll?
    ensures id !in st.observed.answers
  {
  }

  lemma PreflightProgress(env: Env, st: State, id: Text)
    requires Invariant(env, st) && id in st.runs && st.runs[id].at.PreflightPoll?
    ensures st.runs[id].record.history == [Pending] && st.runs[id].record.status == Pending
  {
    hide SharedOk, OrderOk, BankOk, FieldsOk, CeremonyOk, DebitBacked, ReversalBacked, ReceiptBacked;
    assert RunOk(env, st, id, st.runs[id]);
    assert PREFIX[..1] == [Pending];
  }

  // ---- the later polls -----------------------------------------------------------------------------

  /** With the debit taken, a poll that finds fewer than `threshold` members online
      gives the run up, asking for the reversal of exactly its debit; otherwise the
      first poll goes on to the approvals and the second to a ceremony among all those
      online. */
  lemma PollsDecide(env: Env, evs: seq<PipelineEvent>, st: State, id: Text, online: seq<SignerInfo>)
    requires Reachable(env, evs, st) && id in st.runs && (st.runs[id].at.ApproverPoll? || st.runs[id].at.OnlinePoll?)
    ensures st.runs[id].record.debit.Some?
    ensures var st' := Step(env, st, if st.runs[id].at.ApproverPoll? then ApproversPolled(id, online)
                                     else SignersPolled(id, online));
            && id in st'.runs && st'.runs[id].record == st.runs[id].record
            && (|online| < env.threshold ==>
                  && st'.runs[id].at.ReversalReply?
                  && st'.observed.reverseAsked == st.observed.reverseAsked + {Ref(st.runs[id].record)})
            && (|online| >= env.threshold ==>
                  && st'.observed.reverseAsked == st.observed.reverseAsked
                  && st'.runs[id].at == if st.runs[id].at.ApproverPoll? then ApprovalsRead
                                        else CeremonyReply(online, {}, 1))
  {
    hide Reachable, Invariant;
    ReachableInvariant(env, evs, st);
    RunIsReady(env, st, id);
    HeldRef(env, st, id);
  }

  lemma HeldRef(env: Env, st: State, id: Text)
    requires Invariant(env, st) && id in st.runs && st.runs[id].record.debit.Some?
    ensures Ref(st.runs[id].record) != [] && st.runs[id].record.debit.value.payload.requestId == id
    ensures exists k :: 0 <= k < |st.outside.bank.log| && st.outside.bank.log[k].outcome == Outcome.Confirmed
                        && st.outside.bank.log[k].debit.payload == st.runs[id].record.debit.value.payload
  {
    hide SharedOk, OrderOk, BankOk, HistoryOk, FieldsOk, CeremonyOk, ReversalBacked, ReceiptBacked;
    assert RunOk(env, st, id, st.runs[id]);
  }

  // ---- publication, approvals, ceremony ---------------------------------------------------------------

  /** The run gave up and asked for the reversal of exactly its own debit. */
  predicate GaveUp(st: State, st': State, id: Text) {
    && id in st.runs && st.runs[id].record.debit.Some? && id in st'.runs && st'.runs[id].at.ReversalReply?
    && st'.runs[id].record.debit == st.runs[id].record.debit
    && st'.observed.reverseAsked == st.observed.reverseAsked + {st.runs[id].record.debit.value.payload.debitRef}
  }

  /** Without a transaction hash the run gives up; with one it holds it and polls the
      approvers. */
  lemma PublicationDecides(env: Env, evs: seq<PipelineEvent>, st: State, id: Text, hash: Option<Text>)
    requires Reachable(env, evs, st) && id in st.runs && st.runs[id].at.PublishReply?
    ensures var st' := Step(env, st, PublishReplied(id, hash));
            && (hash.None? <==> GaveUp(st, st', id))
            && (hash.Some? ==>
                  && id in st'.runs && st'.runs[id].at.ApproverPoll? && st'.runs[id].record.status == Published
                  && st'.runs[id].record.publication == hash)
  {
    hide Reachable, Invariant;
    ReachableInvariant(env, evs, st);
    RunIsReady(env, st, id);
    HeldRef(env, st, id);
  }

  /** A read of the ledger that answers goes on to a ceremony exactly when a quorum of
      members approves this very request in it; every other read, one that throws
      included, gives the run up. */
  lemma ApprovalsDecide(env: Env, evs: seq<PipelineEvent>, st: State, id: Text, asOf: nat)
    requires Reachable(env, evs, st) && id in st.runs && st.runs[id].at.ApprovalsRead? && asOf <= |st.outside.ledger|
    ensures var st', window := Step(env, st, ApprovalsCounted(id, asOf)), Window(st.outside.ledger, asOf);
            var approving := Approvers(window, env.members, HashRequest(env, st.runs[id].record.request));
            var goesOn := !ReadThrows(window, env.members) && |approving| >= env.quorum;
            && (goesOn ==> id in st'.runs && st'.runs[id].at.OnlinePoll? && st'.runs[id].record.status == Approved
                           && st'.runs[id].record.approvals == Some(|approving|))
            && (!goesOn <==> GaveUp(st, st', id))
  {
    hide Reachable, Invariant, ReadThrows, Window, Approvers, HashRequest;
    ReachableInvariant(env, evs, st);
    RunIsReady(env, st, id);
    HeldRef(env, st, id);
  }

  /** A ceremony that signs takes the run to its receipt, holding the token and its
      signers; a refusal that leaves enough members starts another one without the
      refuser; everything else gives the run up. */
  lemma CeremonyDecides(env: Env, evs: seq<PipelineEvent>, st: State, id: Text, replies: Replies)
    requires Reachable(env, evs, st) && id in st.runs && st.runs[id].at.CeremonyReply? && Shaped(env, replies)
    ensures st.runs[id].record.debit.Some? && |Pool(st.runs[id].at.online, st.runs[id].at.refused)| >= env.threshold
    ensures var st', at := Step(env, st, CeremonyEnded(id, replies)), st.runs[id].at;
            var outcome := OutcomeOf(env, st.runs[id].record, at, replies);
            var again := outcome.Refused? && |Pool(at.online, at.refused + {outcome.refuser})| >= env.threshold;
            && (outcome.TokenSigned? ==>
                  && id in st'.runs && st'.runs[id].at == ReceiptReply(None) && st'.runs[id].record.status == Signed
                  && st'.runs[id].record.token.Some? && st'.runs[id].record.signerSet == outcome.signerSet)
            && (again ==>
                  && id in st'.runs && st'.runs[id].record == st.runs[id].record
                  && st'.runs[id].at == CeremonyReply(at.online, at.refused + {outcome.refuser}, at.ceremonies + 1))
            && (!outcome.TokenSigned? && !again <==> GaveUp(st, st', id))
  {
    hide Reachable, Invariant, OutcomeOf, TokenFor, Pool, VerifyTokenForMeter, Chosen;
    ReachableInvariant(env, evs, st);
    RunIsReady(env, st, id);
    HeldRef(env, st, id);
    ReceiptThenDelivery(env, evs, st, id);
  }

  /** The answer to the reversal, or its failure, ends the run and is put on record. */
  lemma ReversalRecorded(env: Env, st: State, id: Text, ok: bool)
    requires id in st.runs && st.runs[id].at.ReversalReply?
    ensures var st' := Step(env, st, ReversalReplied(id, ok));
            && id in st'.runs && st'.runs[id].at.Finished? && st'.runs[id].record.status == RejectedAbandoned
            && st'.runs[id].record.debitReversed == Some(ok) && st'.outside == st.outside
  {
  }

  // ---- the reversal ---------------------------------------------------------------------------------

  /** A run that waits for its reversal: the bank can make it, from any reachable state,
      and its answer ends the run with the reversal on record; the bank then lists the
      reference once and its entry, and no other, has become reversed. */
  lemma ReversalCompletes(env: Env, evs: seq<PipelineEvent>, st: State, id: Text) returns (st': State)
    requires Reachable(env, evs, st) && id in st.runs && st.runs[id].at.ReversalReply?
    ensures st.runs[id].record.debit.Some?
    ensures var ref := st.runs[id].record.debit.value.payload.debitRef;
            && Reachable(env, evs + [AtBank(Reversed(ref))] + [ReversalReplied(id, true)], st')
            && id in st'.runs && st'.runs[id].at.Finished? && st'.runs[id].record.status == RejectedAbandoned
            && st'.runs[id].record.debitReversed == Some(true)
            && multiset(st'.outside.bank.reversals)[ref] == 1 && |st'.outside.bank.log| == |st.outside.bank.log|
            && (exists k :: 0 <= k < |st'.outside.bank.log| && st'.outside.bank.log[k].reversed
                            && st'.outside.bank.log[k].debit.payload == st.runs[id].record.debit.value.payload)
            && forall k :: 0 <= k < |st.outside.bank.log| && st.outside.bank.log[k].debit.payload.debitRef != ref ==>
                 st'.outside.bank.log[k] == st.outside.bank.log[k]
  {
    hide Reachable, Invariant, Step, Allows;
    ReachableInvariant(env, evs, st);
    UndoneHolds(env, st, id);
    HeldRef(env, st, id);
    var p := st.runs[id].record.debit.value.payload;
    var reversed, replied := AtBank(Reversed(p.debitRef)), ReversalReplied(id, true);
    var k :| 0 <= k < |st.outside.bank.log| && st.outside.bank.log[k].debit.payload == p;
    BankReverses(env, st, p.debitRef, k);
    ReversalMayBeMade(env, st, p.debitRef);
    ReachableStep(env, evs, st, reversed);
    var st1 := Step(env, st, reversed);
    ReversalEnds(env, st1, id);
    ReachableStep(env, evs + [reversed], st1, replied);
    st' := Step(env, st1, replied);
  }

  lemma UndoneHolds(env: Env, st: State, id: Text)
    requires Invariant(env, st) && id in st.runs && st.runs[id].at.ReversalReply?
    ensures st.runs[id].record.debit.Some?
  {
    hide SharedOk, OrderOk, BankOk, EvidenceOk, CeremonyOk, DebitBacked, ReversalBacked, ReceiptBacked, TokenFor;
    assert RunOk(env, st, id, st.runs[id]);
    assert st.runs[id].record.history[1] == DebitConfirmed;
  }

  lemma ReversalMayBeMade(env: Env, st: State, ref: Text)
    ensures Allows(env, st, AtBank(Reversed(ref)))
  {
  }

  lemma ReversalEnds(env: Env, st: State, id: Text)
    requires id in st.runs && st.runs[id].at.ReversalReply? && st.runs[id].record.debit.Some?
    requires Ref(st.runs[id].record) in st.outside.bank.reversals
    ensures Allows(env, st, ReversalReplied(id, true))
    ensures var st' := Step(env, st, ReversalReplied(id, true));
            && id in st'.runs && st'.runs[id].at.Finished? && st'.runs[id].record.status == RejectedAbandoned
            && st'.runs[id].record.debitReversed == Some(true) && st'.outside == st.outside
  {
  }

  lemma BankReverses(env: Env, st: State, ref: Text, k: nat)
    requires Invariant(env, st) && k < |st.outside.bank.log| && st.outside.bank.log[k].debit.payload.debitRef == ref
    ensures var st' := Step(env, st, AtBank(Reversed(ref)));
            && st'.runs == st.runs && |st'.outside.bank.log| == |st.outside.bank.log|
            && st'.outside.bank.log[k].reversed && st'.outside.bank.log[k].debit == st.outside.bank.log[k].debit
            && multiset(st'.outside.bank.reversals)[ref] == 1 && ref in st'.outside.bank.reversals
            && forall j :: 0 <= j < |st.outside.bank.log| && st.outside.bank.log[j].debit.payload.debitRef != ref ==>
                 st'.outside.bank.log[j] == st.outside.bank.log[j]
  {
    hide RunsOk, SharedOk, OrderOk, HandleReverse, BankInvariant;
    ReversesIff(env.bankKey, st.outside.bank, ref);
    assert HasRef(st.outside.bank.log, ref);
    var st' := Step(env, st, AtBank(Reversed(ref)));
    forall j | 0 <= j < |st.outside.bank.log| && st.outside.bank.log[j].debit.payload.debitRef != ref
      ensures st'.outside.bank.log[j] == st.outside.bank.log[j]
    {
      var a, b := st'.outside.bank.log[j], st.outside.bank.log[j];
      assert a == Entry(a.debit, a.reversed, a.outcome) && b == Entry(b.debit, b.reversed, b.outcome);
    }
  }

  // ---- the receipt ----------------------------------------------------------------------------------

  /** A delivered request's receipt: the hash of its own request, the digest of its own
      debit's reference and the transaction of the receipt that reached the ledger for
      it; and its token's meter, units and reference are the debit's. */
  lemma ReceiptFields(env: Env, evs: seq<PipelineEvent>, st: State, id: Text)
    requires Reachable(env, evs, st) && id in st.runs && st.runs[id].record.status == Delivered
    ensures var r := st.runs[id].record;
            && r.debit.Some? && r.ledger.Some? && r.token.Some?
            && r.ledger.value.requestHash == HashRequest(env, r.request)
            && r.ledger.value.debitRefHash == env.sha256Hex(r.debit.value.payload.debitRef)
            && r.ledger.value.txHash in st.outside.receipts && st.outside.receipts[r.ledger.value.txHash] == id
            && r.ledger.value in st.audit
            && var token, p := r.token.value, r.debit.value.payload;
            && token.payload.meterId == p.meterId && token.payload.amountKwh == p.amountKwh
            && token.payload.debitRef == p.debitRef && token.signature == GroupSigned(Message(env, token.payload))
  {
    hide Reachable, Invariant, HashRequest, Message, DeriveTokenNonce;
    ReachableInvariant(env, evs, st);
    DeliveredHolds(env, st, id);
  }

  lemma DeliveredHolds(env: Env, st: State, id: Text)
    requires Invariant(env, st) && id in st.runs && st.runs[id].record.status == Delivered
    ensures var r := st.runs[id].record;
            && r.debit.Some? && r.ledger.Some? && r.token == Some(TokenFor(env, r.debit.value))
            && r.ledger.value == Receipt(env, r, r.ledger.value.txHash) && r.ledger.value in st.audit
            && r.ledger.value.txHash in st.outside.receipts && st.outside.receipts[r.ledger.value.txHash] == id
  {
    hide SharedOk, BankOk, OrderOk, CeremonyOk, DebitBacked, ReversalBacked, TokenFor, Receipt, EvidenceOk;
    assert RunOk(env, st, id, st.runs[id]);
  }

  // ---- what is signed ------------------------------------------------------------------------------

  /** What a delivered request's ceremony signed is the UTF-8 text of its own token, and
      the signature verifies for it under the group key; every one of its `threshold`
      different members sent a share of that text that was accepted. */
  lemma DeliveredSignature(env: Env, evs: seq<PipelineEvent>, st: State, id: Text)
    requires Reachable(env, evs, st) && id in st.runs && st.runs[id].record.status == Delivered
    ensures st.runs[id].record.token.Some? && id in st.observed.signed
    ensures var r, ceremony := st.runs[id].record, st.observed.signed[id];
            var text := env.utf8(Message(env, r.token.value.payload));
            var n := |ceremony.chosen|;
            && n == |ceremony.replies.round1| == |ceremony.replies.round2| == env.threshold
            && AllCommitted(ceremony.replies.round1) && Distinct(SignerIds(ceremony.chosen))
            && Frost.VerifySignature(env.suite, ceremony.signature, text, env.group.groupPublicKey)
            && forall i :: 0 <= i < n ==>
                 && ceremony.replies.round2[i].Partial?
                 && ShareCheck(env.suite, env.group, ceremony.chosen[i], ceremony.replies.round2[i].zi,
                               CommitmentsOf(ceremony.chosen, ceremony.replies.round1), text) == Result.Ok(true)
  {
    hide Reachable, Message, HashRequest, Approving, Receipt, Frost.VerifySignature, ShareCheck, DeriveTokenNonce,
      Distinct;
    DeliveredHasEvidence(env, evs, st, id);
  }

  // ---- the guards no reachable state needs ------------------------------------------------------------

  /** In any state at all: a token the meter would refuse never goes on to a receipt. */
  lemma PrecheckGuards(env: Env, st: State, id: Text, replies: Replies)
    requires id in st.runs && st.runs[id].at.CeremonyReply? && Ready(env, st.runs[id]) && Shaped(env, replies)
    requires OutcomeOf(env, st.runs[id].record, st.runs[id].at, replies).TokenSigned?
    ensures var st', token := Step(env, st, CeremonyEnded(id, replies)), TokenFor(env, st.runs[id].record.debit.value);
            && id in st'.runs
            && (st'.runs[id].at.ReceiptReply? <==> VerifyTokenForMeter(env, st.meter, token) == Accepted)
            && st'.meter == st.meter
  {
    hide OutcomeOf, TokenFor, Pool, VerifyTokenForMeter, Chosen;
  }

  /** In any state at all: a debit that another request claimed is refused before
      anything is published, and stays claimed by the other. */
  lemma ClaimGuards(env: Env, st: State, id: Text, debit: Debit, owner: Text)
    requires id in st.runs && st.runs[id].at.DebitReply? && owner != id && owner != []
    requires debit.payload.debitRef in st.consumed && st.consumed[debit.payload.debitRef] == owner
    ensures var st' := Step(env, st, DebitReplied(id, Answered(debit)));
            && id in st'.runs && st'.runs[id].at.Finished? && st'.runs[id].record.status == Rejected
            && st'.consumed == st.consumed
  {
  }

  /** In any state at all: a confirmed receipt delivers exactly what the meter takes. */
  lemma DeliveryGuards(env: Env, st: State, id: Text)
    requires id in st.runs && st.runs[id].at.ReceiptReply? && st.runs[id].at.submitted.Some?
    requires Ready(env, st.runs[id])
    ensures var st', token := Step(env, st, ReceiptReplied(id, true)), st.runs[id].record.token.value;
            && id in st'.runs
            && (st'.runs[id].record.status == Delivered <==> VerifyTokenForMeter(env, st.meter, token) == Accepted)
            && st'.meter == DeliverToken(env, st.meter, token).0
            && |st'.audit| == |st.audit| + 1
  {
    hide VerifyTokenForMeter, Receipt;
  }

  // ---- requests -------------------------------------------------------------------------------------

  /** A request starts a run exactly when its id is not among the retained ones and the
      limiter admits it; it is then PENDING at its first poll, or REJECTED for an unknown
      merchant, and otherwise nothing changes at all. */
  lemma StartsIff(env: Env, st: State, request: Request, admitted: bool, merchantOk: bool)
    ensures var st', id := Step(env, st, Requested(request, admitted, merchantOk)), request.requestId;
            var starts := id !in st.order && admitted;
            && (!starts ==> st' == st)
            && (starts ==>
                  && id in st'.runs && st'.runs[id].record.request == request
                  && st'.runs[id].record.debit.None? && st'.runs[id].record.token.None?
                  && (merchantOk ==> st'.runs[id].at.PreflightPoll? && st'.runs[id].record.history == [Pending])
                  && (!merchantOk ==> st'.runs[id].at.Finished? && st'.runs[id].record.history == [Pending, Rejected])
                  && st'.order != [] && st'.order[0] == id
                  && forall other :: other != id ==>
                       (other in st'.runs <==> other in st.runs)
                       && (other in st.runs ==> st'.runs[other] == st.runs[other]))
  {
  }

  /** The ids of the requests that started runs, newest first. */
  ghost function Started(env: Env, evs: seq<PipelineEvent>): seq<Text> {
    if evs == [] then []
    else
      var front, ev := evs[..|evs| - 1], evs[|evs| - 1];
      if ev.Requested? && ev.admitted && ev.request.requestId !in Proceed(env, IDLE, front).order
      then [ev.request.requestId] + Started(env, front) else Started(env, front)
  }

  /** The retained requests are the newest 200 that started. */
  lemma {:induction false} RetainsNewest200(env: Env, evs: seq<PipelineEvent>)
    requires AllAllow(env, IDLE, evs)
    ensures var started := Started(env, evs);
            Proceed(env, IDLE, evs).order == if |started| <= 200 then started else started[..200]
  {
    hide Step, Allows, AllAllow, Proceed, Invariant;
    if evs == [] {
      ProceedEmpty(env);
    } else {
      var front, ev := evs[..|evs| - 1], evs[|evs| - 1];
      assert evs == front + [ev];
      ProceedStep(env, IDLE, front, ev);
      RetainsNewest200(env, front);
      var st := Proceed(env, IDLE, front);
      ReachableInvariant(env, front, st);
      StepOrder(env, st, ev);
      var started := Started(env, front);
      if |started| > 200 && st.order != Proceed(env, IDLE, evs).order {
        assert ([ev.request.requestId] + started[..200])[..200] == ([ev.request.requestId] + started)[..200];
      }
    }
  }

  lemma ProceedEmpty(env: Env)
    ensures Proceed(env, IDLE, []).order == [] && Started(env, []) == []
  {
  }

  lemma StepOrder(env: Env, st: State, ev: PipelineEvent)
    requires Invariant(env, st)
    ensures Step(env, st, ev).order ==
            if ev.Requested? && ev.admitted && ev.request.requestId !in st.order
            then (var order := [ev.request.requestId] + st.order; if |order| > 200 then order[..200] else order)
            else st.order
  {
    hide Invariant, Bank.Apply;
    if !ev.Posted? && !ev.AtBank? && !ev.DebitHandled? {
      hide Step;
      StepCore(env, st, ev);
    }
  }
}
