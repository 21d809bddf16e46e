/** What a step of the coordinator leaves alone: the bank, the ledger and the meter
    but for its own calls, and what each run was asked for. */
module PipelineFrame {
  import opened Approvals
  import opened Bank
  import opened Canonical
  import opened Ceremony
  import opened Meter
  import opened Pipeline
  import opened PipelineInvariant
  import opened PipelineRuns
  import opened PipelineSteps
  import opened PipelineTheorems
  import opened Types
  import opened Verify
  import opened Wrappers

  /** A confirmed receipt makes the coordinator present its token to the meter. */
  predicate Presents(st: State, ev: PipelineEvent) {
    && ev.ReceiptReplied? && ev.ok && ev.id in st.runs
    && st.runs[ev.id].at.ReceiptReply? && st.runs[ev.id].at.submitted.Some?
    && st.runs[ev.id].record.token.Some? && st.runs[ev.id].record.debit.Some?
  }

  predicate SameCore(st: State, st': State) {
    && st'.outside.bank == st.outside.bank && st'.outside.ledger == st.outside.ledger && st'.meter == st.meter
    && st'.order == st.order
  }

  lemma AbandonCore(st: State, id: Text, r: Record)
    ensures SameCore(st, Abandon(st, id, r))
  {
    hide FinishAbandoned;
  }

  lemma BackstopCore(st: State, id: Text, run: PipelineRun)
    ensures SameCore(st, Backstop(st, id, run)) && SameCore(st, Heard(Backstop(st, id, run), id, NoReply))
  {
    hide Abandon, FinishAbandoned, Transition;
    AbandonCore(st, id, run.record);
  }

  lemma ReadCore(env: Env, st: State, id: Text, run: PipelineRun, asOf: nat)
    ensures SameCore(st, OnRead(env, st, id, run, asOf))
  {
    hide Abandon, Backstop, Transition, ReadThrows, CountSeen;
    BackstopCore(st, id, run);
    AbandonCore(st, id, run.record.(approvals := Some(CountSeen(env, st.outside.ledger, asOf, run.record.request))));
  }

  lemma CeremonyCore(env: Env, st: State, id: Text, r: Record, at: Await, replies: Replies)
    requires at.CeremonyReply? && |Pool(at.online, at.refused)| >= env.threshold && r.debit.Some?
    requires Shaped(env, replies)
    ensures SameCore(st, OnCeremony(env, st, id, r, at, replies))
  {
    hide Abandon, OutcomeOf, TokenFor, VerifyTokenForMeter, Chosen, Pool, Transition;
    var outcome := OutcomeOf(env, r, at, replies);
    AbandonCore(st, id, r);
    if outcome.TokenSigned? {
      var ceremony := SignedCeremony(Chosen(at.online, at.refused, env.threshold), replies, outcome.signature);
      AbandonCore(NoteCeremony(st, id, ceremony), id,
                  Transition(r.(token := Some(TokenFor(env, r.debit.value)), signerSet := outcome.signerSet), Signed));
    }
  }

  lemma ConfirmedCore(env: Env, st: State, id: Text, r: Record, token: Token, ledger: LedgerRecord)
    ensures OnConfirmedReceipt(env, st, id, r, token, ledger).outside == st.outside
    ensures OnConfirmedReceipt(env, st, id, r, token, ledger).order == st.order
    ensures OnConfirmedReceipt(env, st, id, r, token, ledger).meter == DeliverToken(env, st.meter, token).0
  {
    hide DeliverToken, Transition, Abandon;
    RefusedUnchanged(env, st.meter, token);
    var st1, recorded := st.(audit := [ledger] + st.audit), Transition(r.(ledger := Some(ledger)), Recorded);
    AbandonCore(st1, id, recorded);
    AbandonOutside(st1, id, recorded);
  }

  lemma AbandonOutside(st: State, id: Text, r: Record)
    ensures Abandon(st, id, r).outside == st.outside
  {
  }

  lemma ReceiptCore(env: Env, st: State, id: Text, r: Record, submitted: Option<Text>, ok: bool)
    requires r.debit.Some? && r.token.Some?
    ensures var st' := OnReceipt(env, st, id, r, submitted, ok);
            && st'.outside.bank == st.outside.bank && st'.outside.ledger == st.outside.ledger && st'.order == st.order
            && st'.meter == if ok && submitted.Some? then DeliverToken(env, st.meter, r.token.value).0 else st.meter
  {
    hide OnConfirmedReceipt, Receipt, Abandon, DeliverToken;
    AbandonCore(st, id, r);
    if ok && submitted.Some? {
      ConfirmedCore(env, st, id, r, r.token.value, Receipt(env, r, submitted.value));
    }
  }

  /** No reply touches the bank or the ledger, and only a confirmed receipt the meter. */
  lemma ResumeCore(env: Env, st: State, id: Text, run: PipelineRun, ev: PipelineEvent)
    requires Answers(env, ev, run.at) && Ready(env, run) && !ev.ReceiptReplied?
    ensures SameCore(st, Resume(env, st, id, run, ev))
  {
    hide OnCeremony, OnRead, Abandon, Backstop, Transition, FinishAbandoned, Pool, Shaped;
    AbandonCore(st, id, run.record);
    match ev
    case ApprovalsCounted(_, asOf) => ReadCore(env, st, id, run, asOf);
    case CeremonyEnded(_, replies) => CeremonyCore(env, st, id, run.record, run.at, replies);
    case CallThrew(_) => BackstopCore(st, id, run);
    case _ =>
  }

  /** The world's part of a step of the coordinator. */
  lemma StepCore(env: Env, st: State, ev: PipelineEvent)
    requires Invariant(env, st) && !ev.Posted? && !ev.AtBank? && !ev.DebitHandled?
    ensures var st' := Step(env, st, ev);
            && st'.outside.bank == st.outside.bank && st'.outside.ledger == st.outside.ledger
            && st'.meter ==
               if Presents(st, ev) then DeliverToken(env, st.meter, st.runs[ev.id].record.token.value).0 else st.meter
    ensures Step(env, st, ev).order ==
            if ev.Requested? && ev.admitted && ev.request.requestId !in st.order
            then Retain(st.order, ev.request.requestId) else st.order
  {
    hide Invariant, Resume, Ready, OnCreated, DeliverToken;
    if ev.Requested? {
      CreatedCore(st, ev.request, ev.merchantOk);
    } else if ev.id in st.runs && !ev.ReceiptSubmitted? && Answers(env, ev, st.runs[ev.id].at) {
      RunIsReady(env, st, ev.id);
      if ev.ReceiptReplied? {
        ReplyCore(env, st, ev.id, ev.ok);
      } else {
        ResumeCore(env, st, ev.id, st.runs[ev.id], ev);
      }
    }
  }

  lemma CreatedCore(st: State, request: Request, merchantOk: bool)
    ensures SameCore(st.(order := Retain(st.order, request.requestId)), OnCreated(st, request, merchantOk))
  {
    hide Retain;
  }

  lemma ReplyCore(env: Env, st: State, id: Text, ok: bool)
    requires id in st.runs && st.runs[id].at.ReceiptReply? && Ready(env, st.runs[id])
    ensures var st', ev := Step(env, st, ReceiptReplied(id, ok)), ReceiptReplied(id, ok);
            && st'.outside.bank == st.outside.bank && st'.outside.ledger == st.outside.ledger && st'.order == st.order
            && st'.meter ==
               if Presents(st, ev) then DeliverToken(env, st.meter, st.runs[id].record.token.value).0 else st.meter
  {
    hide OnReceipt, DeliverToken;
    ReceiptCore(env, st, id, st.runs[id].record, st.runs[id].at.submitted, ok);
  }

  // ---- what a run was asked for --------------------------------------------------------------------

  predicate Asks(st: State, id: Text, request: Request) {
    id in st.runs && st.runs[id].record.request == request
  }

  lemma AbandonAsks(st: State, id: Text, r: Record)
    ensures Asks(Abandon(st, id, r), id, r.request)
  {
  }

  lemma BackstopAsks(st: State, id: Text, run: PipelineRun)
    requires id in st.runs && st.runs[id] == run
    ensures Asks(Backstop(st, id, run), id, run.record.request)
    ensures Asks(Heard(Backstop(st, id, run), id, NoReply), id, run.record.request)
  {
    hide Abandon;
    AbandonAsks(st, id, run.record);
  }

  lemma CeremonyAsks(env: Env, st: State, id: Text, r: Record, at: Await, replies: Replies)
    requires at.CeremonyReply? && |Pool(at.online, at.refused)| >= env.threshold && r.debit.Some?
    requires Shaped(env, replies)
    ensures Asks(OnCeremony(env, st, id, r, at, replies), id, r.request)
  {
    hide Abandon, OutcomeOf, TokenFor, VerifyTokenForMeter, Chosen, Pool;
    var outcome := OutcomeOf(env, r, at, replies);
    AbandonAsks(st, id, r);
    if outcome.TokenSigned? {
      var ceremony := SignedCeremony(Chosen(at.online, at.refused, env.threshold), replies, outcome.signature);
      AbandonAsks(NoteCeremony(st, id, ceremony), id,
                  Transition(r.(token := Some(TokenFor(env, r.debit.value)), signerSet := outcome.signerSet), Signed));
    }
  }

  lemma ReceiptAsks(env: Env, st: State, id: Text, r: Record, submitted: Option<Text>, ok: bool)
    requires r.debit.Some? && r.token.Some?
    ensures Asks(OnReceipt(env, st, id, r, submitted, ok), id, r.request)
  {
    hide Receipt, Abandon, DeliverToken;
    AbandonAsks(st, id, r);
    if ok && submitted.Some? {
      var ledger := Receipt(env, r, submitted.value);
      AbandonAsks(st.(audit := [ledger] + st.audit), id, Transition(r.(ledger := Some(ledger)), Recorded));
    }
  }

  lemma ReadAsks(env: Env, st: State, id: Text, run: PipelineRun, asOf: nat)
    requires id in st.runs && st.runs[id] == run
    ensures Asks(OnRead(env, st, id, run, asOf), id, run.record.request)
  {
    hide Abandon, Backstop, ReadThrows, CountSeen;
    BackstopAsks(st, id, run);
    AbandonAsks(st, id, run.record.(approvals := Some(CountSeen(env, st.outside.ledger, asOf, run.record.request))));
  }

  lemma ResumeAsks(env: Env, st: State, id: Text, ev: PipelineEvent)
    requires id in st.runs && Answers(env, ev, st.runs[id].at) && Ready(env, st.runs[id])
    ensures Asks(Resume(env, st, id, st.runs[id], ev), id, st.runs[id].record.request)
  {
    hide OnCeremony, OnRead, OnReceipt, Abandon, Backstop, Pool, Shaped;
    var run := st.runs[id];
    AbandonAsks(st, id, run.record);
    match ev
    case ApprovalsCounted(_, asOf) => ReadAsks(env, st, id, run, asOf);
    case CeremonyEnded(_, replies) => CeremonyAsks(env, st, id, run.record, run.at, replies);
    case ReceiptReplied(_, ok) => ReceiptAsks(env, st, id, run.record, run.at.submitted, ok);
    case CallThrew(_) => BackstopAsks(st, id, run);
    case _ =>
  }

  /** A run keeps the request it was started for. */
  lemma StepAsks(env: Env, st: State, ev: PipelineEvent, id: Text)
    requires Invariant(env, st) && Allows(env, st, ev) && id in st.runs
    ensures Asks(Step(env, st, ev), id, st.runs[id].record.request)
  {
    hide Invariant, Resume, Ready, Answers, Allows;
    if AtRun(ev) && ev.id == id && Answers(env, ev, st.runs[id].at) {
      RunIsReady(env, st, id);
      ResumeAsks(env, st, id, ev);
      StepIsResume(env, st, id, ev);
    } else {
      UnansweredStays(env, st, ev, id);
    }
  }

  /** The bank's log keeps its debits and outcomes. */
  lemma StepExtends(env: Env, st: State, ev: PipelineEvent)
    requires Invariant(env, st)
    ensures Extends(st.outside.bank.log, Step(env, st, ev).outside.bank.log)
  {
    hide Invariant, Resume, Ready, Answers, Extends, Bank.Apply, OnCreated, StepRun;
    SameLogExtends(st.outside.bank.log);
    if ev.AtBank? {
      BankExtends(env.bankKey, st.outside.bank, ev.bankEvent);
    } else if ev.DebitHandled? && ev.id in st.runs {
      BankExtends(env.bankKey, st.outside.bank,
                  Debited(DebitCall(env, st.runs[ev.id].record.request), ev.debitRef, ev.confirmedAt));
    } else if !ev.DebitHandled? && !ev.Posted? {
      StepCore(env, st, ev);
    }
  }

  lemma ExtendsOn(a: seq<Entry>, b: seq<Entry>, c: seq<Entry>)
    requires Extends(a, b) && Extends(b, c)
    ensures Extends(a, c)
  {
  }

  /** In every run from a state that keeps the invariant, requests and confirmed
      debits stay. */
  lemma {:induction false} ProceedKeeps(env: Env, st: State, evs: seq<PipelineEvent>, id: Text)
    requires Invariant(env, st) && AllAllow(env, st, evs) && id in st.runs
    ensures var st' := Proceed(env, st, evs);
            && Invariant(env, st') && Asks(st', id, st.runs[id].record.request)
            && Extends(st.outside.bank.log, st'.outside.bank.log)
    decreases |evs|
  {
    hide Invariant, Step, Allows, Extends;
    if evs == [] {
      SameLogExtends(st.outside.bank.log);
    } else {
      var st1 := Step(env, st, evs[0]);
      StepAsks(env, st, evs[0], id);
      StepExtends(env, st, evs[0]);
      StepKeeps(env, st, evs[0]);
      ProceedKeeps(env, st1, evs[1..], id);
      ExtendsOn(st.outside.bank.log, st1.outside.bank.log, Proceed(env, st, evs).outside.bank.log);
    }
  }
}
