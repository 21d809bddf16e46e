/** The receipts on the ledger and the replies that may be lost: when a receipt is
    audited and its token delivered, for ever, also if it arrives late. */
module PipelineReceipts {
  import opened Approvals
  import opened Bank
  import opened Canonical
  import opened Ceremony
  import opened Meter
  import opened Pipeline
  import opened PipelineInvariant
  import opened PipelineRuns
  import opened PipelineSteps
  import opened PipelineTheorems
  import opened Types
  import opened Verify
  import opened Wrappers

  // ---- what only grows --------------------------------------------------------------------

  /** Receipts stay on the ledger and audited receipts in the trail. */
  ghost predicate Keeps(st: State, st': State) {
    && MapGrows(st.outside.receipts, st'.outside.receipts)
    && forall a :: a in st.audit ==> a in st'.audit
  }

  /** Neither the ledger's receipts nor the audit trail change. */
  predicate SameTrail(st: State, st': State) {
    st'.outside.receipts == st.outside.receipts && st'.audit == st.audit
  }

  lemma AbandonTrail(st: State, id: Text, r: Record)
    ensures SameTrail(st, Abandon(st, id, r))
  {
    hide FinishAbandoned;
  }

  lemma OutcomeTrail(env: Env, st: State, id: Text, r: Record, at: Await, replies: Replies, outcome: CeremonyOutcome)
    requires at.CeremonyReply? && |Pool(at.online, at.refused)| >= env.threshold && r.debit.Some?
    ensures SameTrail(st, OnOutcome(env, st, id, r, at, replies, outcome))
  {
    hide TokenFor, Chosen, Pool, VerifyTokenForMeter, Transition, Abandon;
    AbandonTrail(st, id, r);
    if outcome.TokenSigned? {
      var ceremony := SignedCeremony(Chosen(at.online, at.refused, env.threshold), replies, outcome.signature);
      AbandonTrail(NoteCeremony(st, id, ceremony), id,
                   Transition(r.(token := Some(TokenFor(env, r.debit.value)), signerSet := outcome.signerSet), Signed));
    }
  }

  lemma CeremonyTrail(env: Env, st: State, id: Text, r: Record, at: Await, replies: Replies)
    requires at.CeremonyReply? && |Pool(at.online, at.refused)| >= env.threshold && r.debit.Some?
    requires Shaped(env, replies)
    ensures SameTrail(st, OnCeremony(env, st, id, r, at, replies))
  {
    hide OnOutcome, OutcomeOf, SameTrail;
    OutcomeTrail(env, st, id, r, at, replies, OutcomeOf(env, r, at, replies));
  }

  lemma ConfirmedTrail(env: Env, st: State, id: Text, r: Record, token: Token, ledger: LedgerRecord)
    ensures var st' := OnConfirmedReceipt(env, st, id, r, token, ledger);
            st'.outside == st.outside && st'.audit == [ledger] + st.audit
  {
    hide DeliverToken, Transition, FinishAbandoned;
  }

  lemma ReceiptTrail(env: Env, st: State, id: Text, r: Record, submitted: Option<Text>, ok: bool)
    requires r.debit.Some? && r.token.Some?
    ensures Keeps(st, OnReceipt(env, st, id, r, submitted, ok))
  {
    hide OnConfirmedReceipt, Receipt, Abandon;
    AbandonTrail(st, id, r);
    if ok && submitted.Some? {
      ConfirmedTrail(env, st, id, r, r.token.value, Receipt(env, r, submitted.value));
    }
  }

  lemma ReadTrail(env: Env, st: State, id: Text, run: PipelineRun, asOf: nat)
    ensures SameTrail(st, OnRead(env, st, id, run, asOf))
  {
    hide Abandon, Transition, FinishAbandoned, ReadThrows, CountSeen;
    AbandonTrail(st, id, run.record);
    AbandonTrail(st, id, run.record.(approvals := Some(CountSeen(env, st.outside.ledger, asOf, run.record.request))));
  }

  lemma ResumeTrail(env: Env, st: State, id: Text, run: PipelineRun, ev: PipelineEvent)
    requires Answers(env, ev, run.at) && Ready(env, run)
    ensures Keeps(st, Resume(env, st, id, run, ev))
  {
    hide OnCeremony, OnReceipt, OnRead, Abandon, Transition, FinishAbandoned, Pool, Shaped;
    AbandonTrail(st, id, run.record);
    match ev
    case ApprovalsCounted(_, asOf) => ReadTrail(env, st, id, run, asOf);
    case CeremonyEnded(_, replies) => CeremonyTrail(env, st, id, run.record, run.at, replies);
    case ReceiptReplied(_, ok) => ReceiptTrail(env, st, id, run.record, run.at.submitted, ok);
    case _ =>
  }

  lemma StepTrail(env: Env, st: State, ev: PipelineEvent)
    requires Allows(env, st, ev)
    ensures Keeps(st, Step(env, st, ev))
  {
    hide Resume, Ready, FreshRef, FreshNonce, Bank.Apply, Answers, BankConfirmed, Retain;
    if AtRun(ev) && ev.id in st.runs && Answers(env, ev, st.runs[ev.id].at) && Ready(env, st.runs[ev.id]) {
      ResumeTrail(env, st, ev.id, st.runs[ev.id], ev);
    }
  }

  lemma {:induction false} ProceedTrail(env: Env, st: State, evs: seq<PipelineEvent>)
    requires AllAllow(env, st, evs)
    ensures Keeps(st, Proceed(env, st, evs))
    decreases |evs|
  {
    hide Step, Allows;
    if evs != [] {
      StepTrail(env, st, evs[0]);
      ProceedTrail(env, Step(env, st, evs[0]), evs[1..]);
    }
  }

  // ---- a run has at most one receipt ---------------------------------------------------------

  /** From the receipt's call on. */
  predicate Late(at: Await) {
    at.ReceiptReply? || at.ReversalReply? || at.Finished?
  }

  predicate TokenOk(run: PipelineRun) {
    run.record.token.Some? ==> Late(run.at)
  }

  /** A run moved on late, or with the token it had; a token stays. */
  predicate TokenMoves(run: PipelineRun, run': PipelineRun) {
    && (Late(run'.at) || run'.record.token == run.record.token)
    && (run.record.token.Some? ==> run'.record.token.Some?)
  }

  predicate MovesToken(st': State, id: Text, run: PipelineRun) {
    id in st'.runs && TokenMoves(run, st'.runs[id])
  }

  lemma AbandonToken(st: State, id: Text, run: PipelineRun, r: Record)
    requires run.record.token.Some? ==> r.token.Some?
    ensures MovesToken(Abandon(st, id, r), id, run)
  {
  }

  lemma BackstopToken(st: State, id: Text, run: PipelineRun)
    requires id in st.runs && st.runs[id] == run
    ensures MovesToken(Backstop(st, id, run), id, run)
  {
    hide Abandon;
    AbandonToken(st, id, run, run.record);
  }

  lemma ReadToken(env: Env, st: State, id: Text, run: PipelineRun, asOf: nat)
    requires id in st.runs && st.runs[id] == run
    ensures MovesToken(OnRead(env, st, id, run, asOf), id, run)
  {
    hide Abandon, Backstop, ReadThrows, CountSeen;
    BackstopToken(st, id, run);
    var n := CountSeen(env, st.outside.ledger, asOf, run.record.request);
    AbandonToken(st, id, run, run.record.(approvals := Some(n)));
  }

  lemma CeremonyToken(env: Env, st: State, id: Text, run: PipelineRun, replies: Replies)
    requires run.at.CeremonyReply? && Ready(env, run) && Shaped(env, replies)
    ensures MovesToken(OnCeremony(env, st, id, run.record, run.at, replies), id, run)
  {
    hide Abandon, OutcomeOf, TokenFor, VerifyTokenForMeter, Chosen, Pool;
    var r, at, outcome := run.record, run.at, OutcomeOf(env, run.record, run.at, replies);
    AbandonToken(st, id, run, r);
    if outcome.TokenSigned? {
      var ceremony := SignedCeremony(Chosen(at.online, at.refused, env.threshold), replies, outcome.signature);
      AbandonToken(NoteCeremony(st, id, ceremony), id, run,
                   Transition(r.(token := Some(TokenFor(env, r.debit.value)), signerSet := outcome.signerSet), Signed));
    }
  }

  lemma ReceiptToken(env: Env, st: State, id: Text, run: PipelineRun, ok: bool)
    requires run.at.ReceiptReply? && Ready(env, run)
    ensures MovesToken(OnReceipt(env, st, id, run.record, run.at.submitted, ok), id, run)
  {
    hide Abandon, DeliverToken, Receipt;
    AbandonToken(st, id, run, run.record);
    if ok && run.at.submitted.Some? {
      var ledger := Receipt(env, run.record, run.at.submitted.value);
      AbandonToken(st.(audit := [ledger] + st.audit), id, run,
                   Transition(run.record.(ledger := Some(ledger)), Recorded));
    }
  }

  lemma ResumeToken(env: Env, st: State, id: Text, run: PipelineRun, ev: PipelineEvent)
    requires id in st.runs && st.runs[id] == run && Answers(env, ev, run.at) && Ready(env, run)
    ensures MovesToken(Resume(env, st, id, run, ev), id, run)
  {
    hide OnCeremony, OnReceipt, OnRead, Abandon, Backstop, Pool, Shaped;
    AbandonToken(st, id, run, run.record);
    match ev
    case ApprovalsCounted(_, asOf) => ReadToken(env, st, id, run, asOf);
    case CeremonyEnded(_, replies) => CeremonyToken(env, st, id, run, replies);
    case ReceiptReplied(_, ok) => ReceiptToken(env, st, id, run, ok);
    case CallThrew(_) => BackstopToken(st, id, run);
    case _ =>
  }

  ghost predicate TokensOk(st: State) {
    forall id :: id in st.runs ==> TokenOk(st.runs[id])
  }

  /** Every receipt on the ledger is of a run that signed, and no two are of the same run. */
  ghost predicate ReceiptsOk(receipts: map<Text, Text>, runs: map<Text, PipelineRun>) {
    && (forall tx :: tx in receipts ==> receipts[tx] in runs && runs[receipts[tx]].record.token.Some?)
    && (forall tx, tx' :: tx in receipts && tx' in receipts && receipts[tx] == receipts[tx'] ==> tx == tx')
  }

  ghost predicate ReceiptInvariant(st: State) {
    TokensOk(st) && ReceiptsOk(st.outside.receipts, st.runs)
  }

  lemma MovedReceipts(st: State, st': State, id: Text)
    requires ReceiptInvariant(st) && id in st.runs && OnlyRun(st, st', id) && MovesToken(st', id, st.runs[id])
    requires TokenOk(st'.runs[id]) && st'.outside.receipts == st.outside.receipts
    ensures ReceiptInvariant(st')
  {
  }

  lemma EarlyToken(env: Env, st: State, id: Text, ev: PipelineEvent)
    requires id in st.runs && Ready(env, st.runs[id]) && TokenOk(st.runs[id]) && Answers(env, ev, st.runs[id].at)
    ensures MovesToken(Resume(env, st, id, st.runs[id], ev), id, st.runs[id])
    ensures TokenOk(Resume(env, st, id, st.runs[id], ev).runs[id])
  {
    hide Resume, Ready;
    ResumeToken(env, st, id, st.runs[id], ev);
    var run' := Resume(env, st, id, st.runs[id], ev).runs[id];
    if Late(st.runs[id].at) {
      LateStays(env, st, id, ev);
    }
  }

  lemma LateStays(env: Env, st: State, id: Text, ev: PipelineEvent)
    requires id in st.runs && Late(st.runs[id].at) && Answers(env, ev, st.runs[id].at) && Ready(env, st.runs[id])
    ensures id in Resume(env, st, id, st.runs[id], ev).runs && Late(Resume(env, st, id, st.runs[id], ev).runs[id].at)
  {
    hide DeliverToken, Receipt, Transition;
  }

  lemma SubmittedReceipts(st: State, id: Text, txHash: Text)
    requires ReceiptInvariant(st) && id in st.runs && ReceiptDue(st, id, st.runs[id]) && txHash !in st.outside.receipts
    ensures ReceiptInvariant(OnSubmitted(st, id, st.runs[id], txHash))
  {
  }

  lemma CreatedReceipts(st: State, request: Request, merchantOk: bool)
    requires ReceiptInvariant(st) && request.requestId !in st.runs
    ensures ReceiptInvariant(OnCreated(st, request, merchantOk))
  {
    hide Retain;
  }

  lemma StepReceipts(env: Env, st: State, ev: PipelineEvent)
    requires Invariant(env, st) && ReceiptInvariant(st) && Allows(env, st, ev)
    ensures ReceiptInvariant(Step(env, st, ev))
  {
    hide Invariant, Resume, Ready, OnCreated, OnSubmitted, FreshRef, FreshNonce, Bank.Apply, Answers, BankConfirmed,
      DebitCall, ReceiptDue, OnlyRun, MovesToken, TokenOk, Keeps;
    if ev.Requested? {
      if ev.request.requestId !in st.order && ev.admitted {
        CreatedReceipts(st, ev.request, ev.merchantOk);
      }
    } else if AtRun(ev) && ev.id in st.runs {
      var id := ev.id;
      RunIsReady(env, st, id);
      if ev.ReceiptSubmitted? {
        SubmittedReceipts(st, id, ev.txHash);
      } else if Answers(env, ev, st.runs[id].at) {
        ResumeOnly(env, st, id, st.runs[id], ev);
        EarlyToken(env, st, id, ev);
        ResumeReceipts(env, st, id, st.runs[id], ev);
        MovedReceipts(st, Resume(env, st, id, st.runs[id], ev), id);
      }
    }
  }

  lemma ResumeReceipts(env: Env, st: State, id: Text, run: PipelineRun, ev: PipelineEvent)
    requires Answers(env, ev, run.at) && Ready(env, run)
    ensures Resume(env, st, id, run, ev).outside.receipts == st.outside.receipts
  {
    hide OnCeremony, OnReceipt, OnRead, Abandon, Transition, FinishAbandoned, Pool, Shaped;
    AbandonTrail(st, id, run.record);
    match ev
    case ApprovalsCounted(_, asOf) => ReadTrail(env, st, id, run, asOf);
    case CeremonyEnded(_, replies) => CeremonyTrail(env, st, id, run.record, run.at, replies);
    case ReceiptReplied(_, ok) => ReceiptReceipts(env, st, id, run.record, run.at.submitted, ok);
    case _ =>
  }

  lemma ReceiptReceipts(env: Env, st: State, id: Text, r: Record, submitted: Option<Text>, ok: bool)
    requires r.debit.Some? && r.token.Some?
    ensures OnReceipt(env, st, id, r, submitted, ok).outside.receipts == st.outside.receipts
  {
    hide OnConfirmedReceipt, Receipt, Abandon;
    AbandonTrail(st, id, r);
    if ok && submitted.Some? {
      ConfirmedTrail(env, st, id, r, r.token.value, Receipt(env, r, submitted.value));
    }
  }

  lemma {:induction false} ProceedReceipts(env: Env, st: State, evs: seq<PipelineEvent>)
    requires Invariant(env, st) && ReceiptInvariant(st) && AllAllow(env, st, evs)
    ensures ReceiptInvariant(Proceed(env, st, evs))
    decreases |evs|
  {
    hide Invariant, ReceiptInvariant, Step, Allows;
    if evs != [] {
      StepKeeps(env, st, evs[0]);
      StepReceipts(env, st, evs[0]);
      ProceedReceipts(env, Step(env, st, evs[0]), evs[1..]);
    }
  }

  lemma ReachableReceipts(env: Env, evs: seq<PipelineEvent>, st: State)
    requires Reachable(env, evs, st)
    ensures Invariant(env, st) && ReceiptInvariant(st)
  {
    hide Invariant, AllAllow, Proceed;
    IdleInvariant(env);
    ReachableInvariant(env, evs, st);
    ProceedReceipts(env, IDLE, evs);
  }

  /** Before its ceremony signs, a run has no receipt on the ledger. */
  lemma NoReceiptYet(env: Env, evs: seq<PipelineEvent>, st: State, id: Text)
    requires Reachable(env, evs, st) && id in st.runs && !Late(st.runs[id].at)
    ensures st.runs[id].record.token.None? && forall tx :: tx in st.outside.receipts ==> st.outside.receipts[tx] != id
  {
    hide Reachable, Invariant;
    ReachableReceipts(env, evs, st);
    assert TokenOk(st.runs[id]);
  }

  // ---- runs that stay what they are ----------------------------------------------------------

  /** A run being undone, or ended with its token delivered. */
  predicate Decided(run: PipelineRun, delivered: bool) {
    if delivered then run.at.Finished? && run.record.status == Delivered else Undone(run)
  }

  lemma UndoneResumes(env: Env, st: State, id: Text, ev: PipelineEvent)
    requires id in st.runs && AtRun(ev) && ev.id == id && st.runs[id].at.ReversalReply?
    requires !Terminal(st.runs[id].record.status)
    requires Answers(env, ev, st.runs[id].at)
    ensures var st' := Step(env, st, ev); id in st'.runs && Undone(st'.runs[id])
  {
    hide Pool;
  }

  lemma DecidedStays(env: Env, st: State, ev: PipelineEvent, id: Text, delivered: bool)
    requires Allows(env, st, ev) && id in st.runs && Decided(st.runs[id], delivered)
    requires Terminal(st.runs[id].record.status) <==> st.runs[id].at.Finished?
    ensures var st' := Step(env, st, ev); id in st'.runs && Decided(st'.runs[id], delivered)
  {
    hide Step, Allows;
    if AtRun(ev) && ev.id == id && Answers(env, ev, st.runs[id].at) {
      UndoneResumes(env, st, id, ev);
    } else {
      UnansweredStays(env, st, ev, id);
    }
  }

  lemma {:induction false} DecidedForever(env: Env, st: State, evs: seq<PipelineEvent>, id: Text, delivered: bool)
    requires Invariant(env, st) && AllAllow(env, st, evs) && id in st.runs && Decided(st.runs[id], delivered)
    ensures var st' := Proceed(env, st, evs);
            Invariant(env, st') && id in st'.runs && Decided(st'.runs[id], delivered)
    decreases |evs|
  {
    hide Invariant, Allows, Step, Decided, Ready;
    if evs != [] {
      RunIsReady(env, st, id);
      DecidedStays(env, st, evs[0], id, delivered);
      StepKeeps(env, st, evs[0]);
      DecidedForever(env, Step(env, st, evs[0]), evs[1..], id, delivered);
    }
  }

  lemma UndoneNotDelivered(env: Env, st: State, id: Text)
    requires Invariant(env, st) && id in st.runs && Undone(st.runs[id])
    ensures st.runs[id].record.status != Delivered && st.runs[id].record.ledger.None?
  {
    hide SharedOk, BankOk, OrderOk, DebitBacked, ReversalBacked, ReceiptBacked, TokenFor, CeremonyOk;
    assert RunOk(env, st, id, st.runs[id]);
  }

  // ---- when a receipt is audited -----------------------------------------------------------------

  /** What comes of a receipt's call when it ends. */
  lemma ReceiptEnds(env: Env, st: State, id: Text, ev: PipelineEvent)
    requires Invariant(env, st) && id in st.runs && st.runs[id].at.ReceiptReply?
    requires AtRun(ev) && ev.id == id && Answers(env, ev, st.runs[id].at)
    requires ev == ReceiptReplied(id, true) ==> st.runs[id].at.submitted.Some?
    ensures var st' := Step(env, st, ev);
            && id in st'.runs && Decided(st'.runs[id], ev == ReceiptReplied(id, true))
            && (ev == ReceiptReplied(id, true) ==>
                exists a :: a in st'.audit && a.txHash == st.runs[id].at.submitted.value)
  {
    hide Invariant, TokenFor, OnReceipt, Receipt;
    RunIsReady(env, st, id);
    if ev == ReceiptReplied(id, true) {
      ReceiptDelivers(env, st, id);
      DeliveryAudits(env, st, id);
    } else if ev.ReceiptReplied? {
      LostReceiptAbandons(env, st, id);
    }
  }

  lemma LostReceiptAbandons(env: Env, st: State, id: Text)
    requires id in st.runs && st.runs[id].at.ReceiptReply? && Ready(env, st.runs[id])
    ensures Step(env, st, ReceiptReplied(id, false)) == Abandon(st, id, st.runs[id].record)
  {
    hide Abandon, Receipt, OnConfirmedReceipt;
  }

  lemma DeliveryAudits(env: Env, st: State, id: Text)
    requires id in st.runs && st.runs[id].record.debit.Some? && st.runs[id].at.ReceiptReply?
    requires st.runs[id].at.submitted.Some?
    ensures var st' := AfterDelivery(env, st, id);
            && id in st'.runs && Decided(st'.runs[id], true)
            && exists a :: a in st'.audit && a.txHash == st.runs[id].at.submitted.value
  {
    hide TokenFor, HashRequest;
    var st' := AfterDelivery(env, st, id);
    assert st'.audit[0].txHash == st.runs[id].at.submitted.value;
  }

  lemma ReceiptOnLedger(env: Env, st: State, id: Text)
    requires Invariant(env, st) && id in st.runs && st.runs[id].at.ReceiptReply? && st.runs[id].at.submitted.Some?
    ensures st.runs[id].at.submitted.value in st.outside.receipts
    ensures st.outside.receipts[st.runs[id].at.submitted.value] == id
  {
    hide SharedOk, BankOk, OrderOk, DebitBacked, ReversalBacked, TokenFor, CeremonyOk, HistoryOk, FieldsOk;
    assert RunOk(env, st, id, st.runs[id]);
  }

  lemma AuditNames(env: Env, st: State, a: LedgerRecord)
    requires Invariant(env, st) && a in st.audit
    ensures a.txHash in st.outside.receipts && st.outside.receipts[a.txHash] in st.runs
    ensures st.runs[st.outside.receipts[a.txHash]].record.ledger == Some(a)
  {
    hide RunsOk, BankOk, OrderOk, ClaimsOk, MeterOk, DispensedOk, AskedOk;
  }

  /** No receipt of a run being undone is audited. */
  lemma UndoneUnaudited(env: Env, st: State, id: Text)
    requires Invariant(env, st) && id in st.runs && Undone(st.runs[id])
    ensures forall a :: a in st.audit ==> a.txHash in st.outside.receipts && st.outside.receipts[a.txHash] != id
  {
    hide Invariant, Undone;
    UndoneNotDelivered(env, st, id);
    forall a | a in st.audit
      ensures a.txHash in st.outside.receipts && st.outside.receipts[a.txHash] != id
    {
      AuditNames(env, st, a);
    }
  }

  /** After a run's receipt call ended, whatever follows: a receipt that had reached
      the ledger stays there, and a receipt of the run that is there, on time or
      late, is in the audit trail if and only if the reply came back confirmed, and
      so is the token delivered. After a lost or failed reply, or a throw, it never
      will be. */
  lemma ReceiptAuditedIff(env: Env, evs: seq<PipelineEvent>, st: State, id: Text, ev: PipelineEvent,
                          more: seq<PipelineEvent>)
    requires Reachable(env, evs, st) && id in st.runs && st.runs[id].at.ReceiptReply?
    requires AtRun(ev) && ev.id == id && Answers(env, ev, st.runs[id].at)
    requires Allows(env, st, ev) && AllAllow(env, Step(env, st, ev), more)
    ensures var st' := Proceed(env, Step(env, st, ev), more);
            var receipts, confirmed := st'.outside.receipts, ev == ReceiptReplied(id, true);
            && id in st'.runs && (st'.runs[id].record.status == Delivered <==> confirmed)
            && (st.runs[id].at.submitted.Some? ==>
                  st.runs[id].at.submitted.value in receipts && receipts[st.runs[id].at.submitted.value] == id)
            && (confirmed ==> st.runs[id].at.submitted.Some?)
            && forall tx :: tx in receipts && receipts[tx] == id ==>
                 ((exists a :: a in st'.audit && a.txHash == tx) <==> confirmed)
  {
    hide Reachable, Invariant, AllAllow, Proceed, Step, Answers, Keeps, ReceiptInvariant;
    var confirmed := ev == ReceiptReplied(id, true);
    var st1 := Step(env, st, ev);
    var st' := Proceed(env, st1, more);
    ReachableReceipts(env, evs, st);
    StepReceipts(env, st, ev);
    ReceiptEnds(env, st, id, ev);
    StepKeeps(env, st, ev);
    DecidedForever(env, st1, more, id, confirmed);
    ProceedReceipts(env, st1, more);
    if st.runs[id].at.submitted.Some? {
      ReceiptStays(env, st, ev, more, id);
    }
    if confirmed {
      AuditStays(env, st1, more, st.runs[id].at.submitted.value);
      OneReceipt(st', id);
    } else {
      UndoneUnaudited(env, st', id);
      UndoneNotDelivered(env, st', id);
    }
  }

  lemma OneReceipt(st: State, id: Text)
    requires ReceiptInvariant(st)
    ensures forall tx, tx' :: tx in st.outside.receipts && tx' in st.outside.receipts ==>
                                st.outside.receipts[tx] == st.outside.receipts[tx'] == id ==> tx == tx'
  {
    hide TokensOk;
  }

  lemma ReceiptStays(env: Env, st: State, ev: PipelineEvent, more: seq<PipelineEvent>, id: Text)
    requires Invariant(env, st) && id in st.runs && st.runs[id].at.ReceiptReply? && st.runs[id].at.submitted.Some?
    requires Allows(env, st, ev) && AllAllow(env, Step(env, st, ev), more)
    ensures var receipts := Proceed(env, Step(env, st, ev), more).outside.receipts;
            st.runs[id].at.submitted.value in receipts && receipts[st.runs[id].at.submitted.value] == id
  {
    hide Invariant, Step, Proceed, Allows, AllAllow;
    ReceiptOnLedger(env, st, id);
    StepTrail(env, st, ev);
    ProceedTrail(env, Step(env, st, ev), more);
  }

  lemma AuditStays(env: Env, st: State, more: seq<PipelineEvent>, txHash: Text)
    requires AllAllow(env, st, more) && exists a :: a in st.audit && a.txHash == txHash
    ensures exists a :: a in Proceed(env, st, more).audit && a.txHash == txHash
  {
    hide Step, Proceed, Allows, AllAllow;
    var a :| a in st.audit && a.txHash == txHash;
    ProceedTrail(env, st, more);
    assert a in Proceed(env, st, more).audit;
  }
}
