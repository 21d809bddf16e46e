/** What stands behind a run's record in every reachable state: approvals counted
    on the ledger, a ceremony whose shares were accepted, and the answer its
    debit call came back with. */
module PipelineEvidence {
  import opened Approvals
  import opened Bank
  import opened Canonical
  import opened Ceremony
  import opened Lists
  import opened Pipeline
  import opened PipelineInvariant
  import opened PipelineRuns
  import opened PipelineTheorems
  import opened Types
  import opened Verify
  import opened Wrappers
  import Frost

  // ---- the evidence -------------------------------------------------------------------

  /** The approvals a record holds were counted in a window of the ledger. */
  ghost predicate CountBacked(env: Env, ledger: seq<Tx>, r: Record) {
    r.approvals.Some? ==>
      exists asOf :: 0 <= asOf <= |ledger| && !ReadThrows(Window(ledger, asOf), env.members)
                     && r.approvals.value == CountedAt(ledger, asOf, env.members, HashRequest(env, r.request))
  }

  /** A ceremony of as many different members as the threshold, whose replies sign
      the one message of the record's debit. */
  ghost predicate Backs(env: Env, ceremony: SignedCeremony, r: Record)
    requires r.debit.Some?
  {
    && DistinctSigners(ceremony.chosen) && |ceremony.chosen| == env.threshold && Shaped(env, ceremony.replies)
    && CeremonyOf(env.suite, env.group, ceremony.chosen, ceremony.replies, TokenMessage(env, r.debit.value)) ==
       TokenSigned(ceremony.signature, r.signerSet)
  }

  ghost predicate SignBacked(env: Env, signed: map<Text, SignedCeremony>, id: Text, r: Record) {
    r.token.Some? ==> r.debit.Some? && id in signed && Backs(env, signed[id], r)
  }

  ghost predicate RecordBacked(env: Env, st: State, id: Text, r: Record) {
    CountBacked(env, st.outside.ledger, r) && SignBacked(env, st.observed.signed, id, r)
  }

  /** The answer to a debit call is a verified debit for the request. */
  predicate Confirms(env: Env, id: Text, answer: BankAnswer) {
    answer.Answered? && VerifyBankSignature(answer.debit, env.bankKey) && answer.debit.payload.requestId == id
  }

  /** The run has its answer from the bank, or ended without asking. */
  predicate PastDebit(at: Await) {
    !at.PreflightPoll? && !at.DebitReply?
  }

  predicate AnswerFits(env: Env, id: Text, run: PipelineRun, answer: BankAnswer) {
    PastDebit(run.at) && run.record.debit == if Confirms(env, id, answer) then Some(answer.debit) else None
  }

  ghost predicate AnswersFit(env: Env, st: State) {
    forall id :: id in st.observed.answers ==>
      id in st.runs && AnswerFits(env, id, st.runs[id], st.observed.answers[id])
  }

  ghost predicate RecordsBacked(env: Env, st: State) {
    forall id :: id in st.runs ==> RecordBacked(env, st, id, st.runs[id].record)
  }

  ghost predicate Evidence(env: Env, st: State) {
    RecordsBacked(env, st) && AnswersFit(env, st)
  }

  // ---- what a reply leaves alone ---------------------------------------------------------

  predicate SameEvidence(r: Record, r': Record) {
    && r'.request == r.request && r'.debit == r.debit && r'.approvals == r.approvals
    && r'.token == r.token && r'.signerSet == r.signerSet
  }

  /** Run id moved on past its debit call, with the same evidence. */
  predicate Leaves(st: State, st': State, id: Text, r: Record) {
    && id in st'.runs && SameEvidence(r, st'.runs[id].record) && PastDebit(st'.runs[id].at)
    && st'.outside.ledger == st.outside.ledger && st'.observed.signed == st.observed.signed
    && st'.observed.answers == st.observed.answers
  }

  lemma AbandonLeaves(st: State, id: Text, r: Record)
    ensures Leaves(st, Abandon(st, id, r), id, r)
  {
  }

  lemma ConfirmedLeaves(env: Env, st: State, id: Text, r: Record, token: Token, ledger: LedgerRecord)
    ensures Leaves(st, OnConfirmedReceipt(env, st, id, r, token, ledger), id, r)
  {
    hide Meter.DeliverToken, Abandon;
    AbandonLeaves(st.(audit := [ledger] + st.audit), id, Transition(r.(ledger := Some(ledger)), Recorded));
  }

  lemma ReceiptLeaves(env: Env, st: State, id: Text, r: Record, submitted: Option<Text>, ok: bool)
    requires r.debit.Some? && r.token.Some?
    ensures Leaves(st, OnReceipt(env, st, id, r, submitted, ok), id, r)
  {
    hide OnConfirmedReceipt, Receipt, Abandon;
    AbandonLeaves(st, id, r);
    if ok && submitted.Some? {
      ConfirmedLeaves(env, st, id, r, r.token.value, Receipt(env, r, submitted.value));
    }
  }

  lemma PublishLeaves(st: State, id: Text, r: Record, tx: Option<Text>)
    ensures Leaves(st, OnPublished(st, id, r, tx), id, r)
  {
    hide Abandon;
    AbandonLeaves(st, id, r);
  }

  lemma PolledLeaves(env: Env, st: State, id: Text, r: Record, online: seq<SignerInfo>)
    ensures Leaves(st, OnSignersPolled(env, st, id, r, online), id, r)
  {
    hide Abandon;
    AbandonLeaves(st, id, r);
  }

  lemma CountLeaves(env: Env, st: State, id: Text, r: Record, n: nat)
    ensures Leaves(st, OnCounted(env, st, id, r, n), id, r.(approvals := Some(n)))
  {
    hide Abandon;
    AbandonLeaves(st, id, r.(approvals := Some(n)));
  }

  lemma SignedLeaves(env: Env, st: State, id: Text, r: Record, token: Token, signerSet: seq<SignerId>)
    ensures Leaves(st, OnSigned(env, st, id, r, token, signerSet), id, r.(token := Some(token), signerSet := signerSet))
  {
    hide Meter.VerifyTokenForMeter, Abandon;
    AbandonLeaves(st, id, Transition(r.(token := Some(token), signerSet := signerSet), Signed));
  }

  lemma BackstopLeaves(st: State, id: Text, run: PipelineRun)
    requires id in st.runs && st.runs[id] == run && PastDebit(run.at)
    ensures Leaves(st, Backstop(st, id, run), id, run.record)
  {
    hide Abandon;
    AbandonLeaves(st, id, run.record);
  }

  // ---- keeping the evidence ------------------------------------------------------------------

  lemma SameRecordBacked(env: Env, st: State, st': State, id: Text, r: Record, r': Record)
    requires RecordBacked(env, st, id, r) && SameEvidence(r, r')
    requires st'.outside.ledger == st.outside.ledger
    requires id in st.observed.signed ==> id in st'.observed.signed && st'.observed.signed[id] == st.observed.signed[id]
    ensures RecordBacked(env, st', id, r')
  {
    hide CountedAt, ReadThrows, Window, HashRequest, CeremonyOf, DistinctSigners, TokenMessage;
  }

  /** The other records keep their evidence when only run id's changes. */
  lemma OthersBacked(env: Env, st: State, st': State, id: Text)
    requires RecordsBacked(env, st) && OnlyRun(st, st', id) && st'.outside.ledger == st.outside.ledger
    requires forall x :: x in st.observed.signed && x != id ==>
             x in st'.observed.signed && st'.observed.signed[x] == st.observed.signed[x]
    requires RecordBacked(env, st', id, st'.runs[id].record)
    ensures RecordsBacked(env, st')
  {
    hide RecordBacked;
    forall x | x in st'.runs
      ensures RecordBacked(env, st', x, st'.runs[x].record)
    {
      if x != id {
        SameRecordBacked(env, st, st', x, st.runs[x].record, st'.runs[x].record);
      }
    }
  }

  lemma OthersAnswered(env: Env, st: State, st': State, id: Text)
    requires AnswersFit(env, st) && OnlyRun(st, st', id)
    requires forall x :: x in st'.observed.answers && x != id ==>
             x in st.observed.answers && st'.observed.answers[x] == st.observed.answers[x]
    requires id in st'.observed.answers ==> AnswerFits(env, id, st'.runs[id], st'.observed.answers[id])
    ensures AnswersFit(env, st')
  {
    hide AnswerFits;
  }

  lemma LeavingKeeps(env: Env, st: State, st': State, id: Text)
    requires Evidence(env, st) && id in st.runs && OnlyRun(st, st', id) && Leaves(st, st', id, st.runs[id].record)
    ensures Evidence(env, st')
  {
    hide RecordBacked;
    SameRecordBacked(env, st, st', id, st.runs[id].record, st'.runs[id].record);
    OthersBacked(env, st, st', id);
    OthersAnswered(env, st, st', id);
  }

  /** The preflight poll changes nothing that is backed. */
  lemma PreflightBacked(env: Env, st: State, id: Text, online: seq<SignerInfo>)
    requires Evidence(env, st) && id in st.runs && st.runs[id].at.PreflightPoll?
    ensures Evidence(env, Resume(env, st, id, st.runs[id], PreflightPolled(id, online)))
  {
    hide RecordBacked;
    var st' := Resume(env, st, id, st.runs[id], PreflightPolled(id, online));
    assert id !in st.observed.answers;
    SameRecordBacked(env, st, st', id, st.runs[id].record, st'.runs[id].record);
    OthersBacked(env, st, st', id);
    OthersAnswered(env, st, st', id);
  }

  lemma DebitHeld(env: Env, st: State, id: Text, r: Record, answer: BankAnswer)
    requires r.request.requestId == id && r.debit.None?
    ensures var st' := OnDebit(env, st, id, r, answer);
            && id in st'.runs && OnlyRun(st, st', id) && st'.outside == st.outside && st'.observed == st.observed
            && PastDebit(st'.runs[id].at)
            && st'.runs[id].record.debit == (if Confirms(env, id, answer) then Some(answer.debit) else None)
            && SameEvidence(r, st'.runs[id].record.(debit := None))
  {
  }

  lemma UndebitedBacked(env: Env, st: State, st': State, id: Text, r: Record, r': Record)
    requires RecordBacked(env, st, id, r) && r.debit.None? && SameEvidence(r, r'.(debit := None))
    requires st'.outside.ledger == st.outside.ledger
    ensures RecordBacked(env, st', id, r')
  {
    hide CountedAt, ReadThrows, Window, HashRequest, Backs;
  }

  lemma DebitBackedUp(env: Env, st: State, id: Text, answer: BankAnswer)
    requires Evidence(env, st) && id in st.runs && st.runs[id].at.DebitReply?
    requires st.runs[id].record.request.requestId == id && st.runs[id].record.debit.None?
    ensures Evidence(env, Heard(OnDebit(env, st, id, st.runs[id].record, answer), id, answer))
  {
    hide RecordBacked, OnDebit, SameEvidence;
    var r := st.runs[id].record;
    DebitHeld(env, st, id, r, answer);
    var st1 := OnDebit(env, st, id, r, answer);
    var st' := Heard(st1, id, answer);
    UndebitedBacked(env, st, st', id, r, st'.runs[id].record);
    OthersBacked(env, st, st', id);
    OthersAnswered(env, st, st', id);
  }

  lemma CountBackedUp(env: Env, st: State, id: Text, asOf: nat)
    requires Evidence(env, st) && id in st.runs && st.runs[id].at.ApprovalsRead?
    requires !ReadThrows(Seen(st.outside.ledger, asOf), env.members)
    ensures Evidence(env, OnCounted(env, st, id, st.runs[id].record,
                                    CountSeen(env, st.outside.ledger, asOf, st.runs[id].record.request)))
  {
    hide OnCounted, CeremonyOf, TokenMessage, DistinctSigners, CountedAt, ReadThrows, Window, HashRequest;
    var r := st.runs[id].record;
    var n := CountSeen(env, st.outside.ledger, asOf, r.request);
    var st' := OnCounted(env, st, id, r, n);
    CountLeaves(env, st, id, r, n);
    CountedOnly(env, st, id, r, n);
    assert RecordBacked(env, st, id, r.(approvals := Some(n))) by {
      assert RecordBacked(env, st, id, r);
    }
    SameRecordBacked(env, st, st', id, r.(approvals := Some(n)), st'.runs[id].record);
    OthersBacked(env, st, st', id);
    OthersAnswered(env, st, st', id);
  }

  lemma ReadBackedUp(env: Env, st: State, id: Text, asOf: nat)
    requires Evidence(env, st) && id in st.runs && st.runs[id].at.ApprovalsRead?
    ensures Evidence(env, OnRead(env, st, id, st.runs[id], asOf))
  {
    hide Evidence, OnCounted, Backstop, ReadThrows, Seen, CountSeen, Leaves, OnlyRun;
    if ReadThrows(Seen(st.outside.ledger, asOf), env.members) {
      BackstopLeaves(st, id, st.runs[id]);
      ThrowOnly(st, id, st.runs[id]);
      LeavingKeeps(env, st, Backstop(st, id, st.runs[id]), id);
    } else {
      CountBackedUp(env, st, id, asOf);
    }
  }

  /** A signed token is backed by its ceremony. */
  lemma SignBackedUp(env: Env, st: State, id: Text, replies: Replies)
    requires Evidence(env, st) && id in st.runs && st.runs[id].at.CeremonyReply? && Ready(env, st.runs[id])
    requires Shaped(env, replies)
    requires CeremonyOk(env, st.runs[id].at) && OutcomeOf(env, st.runs[id].record, st.runs[id].at, replies).TokenSigned?
    ensures Evidence(env, OnCeremony(env, st, id, st.runs[id].record, st.runs[id].at, replies))
  {
    hide OnSigned, CeremonyOf, TokenMessage, TokenFor, CountBacked, DistinctSigners, Pool;
    var r, at := st.runs[id].record, st.runs[id].at;
    var outcome := OutcomeOf(env, r, at, replies);
    var ceremony := SignedCeremony(Chosen(at.online, at.refused, env.threshold), replies, outcome.signature);
    var token := TokenFor(env, r.debit.value);
    var st1 := NoteCeremony(st, id, ceremony);
    var st' := OnSigned(env, st1, id, r, token, outcome.signerSet);
    var held := r.(token := Some(token), signerSet := outcome.signerSet);
    ChosenApart(env, at);
    SignedLeaves(env, st1, id, r, token, outcome.signerSet);
    SignedOnly(env, st1, id, r, token, outcome.signerSet);
    assert RecordBacked(env, st1, id, held) by {
      assert RecordBacked(env, st, id, r);
      CountIgnoresToken(env, st.outside.ledger, r, token, outcome.signerSet);
    }
    SameRecordBacked(env, st1, st', id, held, st'.runs[id].record);
    OthersBacked(env, st, st', id);
    OthersAnswered(env, st, st', id);
  }

  lemma CountIgnoresToken(env: Env, ledger: seq<Tx>, r: Record, token: Token, signerSet: seq<SignerId>)
    requires CountBacked(env, ledger, r)
    ensures CountBacked(env, ledger, r.(token := Some(token), signerSet := signerSet))
  {
    hide CountedAt, ReadThrows, Window, HashRequest;
  }

  lemma ChosenApart(env: Env, at: Await)
    requires at.CeremonyReply? && CeremonyOk(env, at)
    ensures DistinctSigners(Chosen(at.online, at.refused, env.threshold))
  {
    PoolDistinct(at.online, at.refused);
  }

  lemma CeremonyBackedUp(env: Env, st: State, id: Text, replies: Replies)
    requires Evidence(env, st) && id in st.runs && st.runs[id].at.CeremonyReply? && Ready(env, st.runs[id])
    requires Shaped(env, replies)
    requires CeremonyOk(env, st.runs[id].at)
    ensures Evidence(env, OnCeremony(env, st, id, st.runs[id].record, st.runs[id].at, replies))
  {
    hide Evidence, OutcomeOf, Abandon, CeremonyOk, Pool, OnSigned;
    var r, at := st.runs[id].record, st.runs[id].at;
    if OutcomeOf(env, r, at, replies).TokenSigned? {
      SignBackedUp(env, st, id, replies);
    } else {
      AbandonLeaves(st, id, r);
      CeremonyOnly(env, st, id, r, at, replies);
      LeavingKeeps(env, st, OnCeremony(env, st, id, r, at, replies), id);
    }
  }

  lemma ThrowBackedUp(env: Env, st: State, id: Text)
    requires Evidence(env, st) && id in st.runs && !st.runs[id].at.Finished? && Ready(env, st.runs[id])
    requires st.runs[id].record.request.requestId == id
    requires !PastDebit(st.runs[id].at) ==> st.runs[id].record.debit.None? && !Terminal(st.runs[id].record.status)
    ensures Evidence(env, Resume(env, st, id, st.runs[id], CallThrew(id)))
  {
    hide RecordBacked;
    var run := st.runs[id];
    var st' := Resume(env, st, id, run, CallThrew(id));
    ThrowOnly(st, id, run);
    if PastDebit(run.at) {
      BackstopLeaves(st, id, run);
      LeavingKeeps(env, st, st', id);
    } else {
      assert id !in st.observed.answers;
      SameRecordBacked(env, st, st', id, run.record, st'.runs[id].record);
      OthersBacked(env, st, st', id);
      OthersAnswered(env, st, st', id);
    }
  }

  /** What is needed of the run that resumes. */
  lemma RunHolds(env: Env, st: State, id: Text)
    requires Invariant(env, st) && id in st.runs
    ensures st.runs[id].record.request.requestId == id && Ready(env, st.runs[id]) && CeremonyOk(env, st.runs[id].at)
    ensures !PastDebit(st.runs[id].at) ==> st.runs[id].record.debit.None? && !Terminal(st.runs[id].record.status)
  {
    hide Invariant, CeremonyOk, Ready;
    RequestOf(env, st, id);
    RunIsReady(env, st, id);
    CeremonyHolds(env, st, id);
  }

  lemma ResumeBacked(env: Env, st: State, id: Text, ev: PipelineEvent)
    requires Invariant(env, st) && Evidence(env, st) && id in st.runs && AtRun(ev) && ev.id == id
    requires Answers(env, ev, st.runs[id].at)
    ensures Ready(env, st.runs[id]) && Evidence(env, Resume(env, st, id, st.runs[id], ev))
  {
    hide Invariant, Evidence, Ready, CeremonyOk, OnDebit, OnCounted, OnCeremony, OnReceipt, Backstop, Abandon,
      CountSeen, Shaped, OnSignersPolled, Leaves, OnlyRun, Heard;
    RunHolds(env, st, id);
    var run := st.runs[id];
    if ev.PreflightPolled? {
      PreflightBacked(env, st, id, ev.online);
    } else if ev.DebitReplied? {
      DebitBackedUp(env, st, id, ev.answer);
    } else if ev.ApprovalsCounted? {
      ReadBackedUp(env, st, id, ev.asOf);
    } else if ev.CeremonyEnded? {
      CeremonyBackedUp(env, st, id, ev.replies);
    } else if ev.CallThrew? {
      ThrowBackedUp(env, st, id);
    } else {
      OthersLeave(env, st, id, run, ev);
      ResumeOnly(env, st, id, run, ev);
      LeavingKeeps(env, st, Resume(env, st, id, run, ev), id);
    }
  }

  /** The replies that touch no evidence. */
  lemma OthersLeave(env: Env, st: State, id: Text, run: PipelineRun, ev: PipelineEvent)
    requires Answers(env, ev, run.at) && Ready(env, run)
    requires ev.PublishReplied? || ev.ApproversPolled? || ev.SignersPolled? || ev.ReceiptReplied? || ev.ReversalReplied?
    ensures Leaves(st, Resume(env, st, id, run, ev), id, run.record)
  {
    hide OnReceipt, Abandon, OnSignersPolled, OnPublished;
    AbandonLeaves(st, id, run.record);
    match ev
    case PublishReplied(_, tx) => PublishLeaves(st, id, run.record, tx);
    case SignersPolled(_, online) => PolledLeaves(env, st, id, run.record, online);
    case ReceiptReplied(_, ok) => ReceiptLeaves(env, st, id, run.record, run.at.submitted, ok);
    case _ =>
  }

  // ---- every step, every run -------------------------------------------------------------------

  lemma PostingKeeps(env: Env, st: State, tx: Tx)
    requires Evidence(env, st)
    ensures Evidence(env, st.(outside := st.outside.(ledger := st.outside.ledger + [tx])))
  {
    hide CountedAt, ReadThrows, Window, HashRequest, SignBacked, AnswerFits;
    var ledger' := st.outside.ledger + [tx];
    forall id | id in st.runs
      ensures CountBacked(env, ledger', st.runs[id].record)
    {
      var r := st.runs[id].record;
      assert RecordBacked(env, st, id, r);
      if r.approvals.Some? {
        var asOf :| 0 <= asOf <= |st.outside.ledger| && !ReadThrows(Window(st.outside.ledger, asOf), env.members)
                    && r.approvals.value == CountedAt(st.outside.ledger, asOf, env.members,
                                                      HashRequest(env, r.request));
        CountStays(st.outside.ledger, [tx], asOf, env.members, HashRequest(env, r.request));
      }
    }
  }

  lemma CreatedBacked(env: Env, st: State, request: Request, merchantOk: bool)
    requires Evidence(env, st) && request.requestId !in st.runs
    ensures Evidence(env, OnCreated(st, request, merchantOk))
  {
    hide CountedAt, ReadThrows, Window, HashRequest, Backs, AnswerFits, Retain;
    var id, st' := request.requestId, OnCreated(st, request, merchantOk);
    assert OnlyRun(st, st', id);
    assert id !in st.observed.answers;
    OthersBacked(env, st, st', id);
    OthersAnswered(env, st, st', id);
  }

  lemma SameRunsBacked(env: Env, st: State, st': State)
    requires Evidence(env, st) && st'.runs == st.runs && st'.outside.ledger == st.outside.ledger
    requires st'.observed == st.observed
    ensures Evidence(env, st')
  {
    hide CountBacked, SignBacked, AnswerFits;
    forall id | id in st.runs
      ensures RecordBacked(env, st', id, st.runs[id].record)
    {
      assert RecordBacked(env, st, id, st.runs[id].record);
    }
  }

  lemma SubmittedBacked(env: Env, st: State, id: Text, txHash: Text)
    requires Evidence(env, st) && id in st.runs
    ensures Evidence(env, OnSubmitted(st, id, st.runs[id], txHash))
  {
    hide Evidence;
    var st' := OnSubmitted(st, id, st.runs[id], txHash);
    if st.runs[id].at == ReceiptReply(None) {
      LeavingKeeps(env, st, st', id);
    } else {
      SameRunsBacked(env, st, st');
    }
  }

  lemma RunStepBacked(env: Env, st: State, ev: PipelineEvent)
    requires Invariant(env, st) && Evidence(env, st) && AtRun(ev) && ev.id in st.runs
    ensures Evidence(env, StepRun(env, st, ev.id, st.runs[ev.id], ev))
  {
    hide Invariant, Evidence, Resume, Ready, OnSubmitted, Answers;
    if ev.ReceiptSubmitted? {
      SubmittedBacked(env, st, ev.id, ev.txHash);
    } else if Answers(env, ev, st.runs[ev.id].at) {
      ResumeBacked(env, st, ev.id, ev);
    }
  }

  lemma StepBacked(env: Env, st: State, ev: PipelineEvent)
    requires Invariant(env, st) && Evidence(env, st) && Allows(env, st, ev)
    ensures Evidence(env, Step(env, st, ev))
  {
    hide Invariant, Evidence, RunAllows, StepRun, OnCreated, FreshRef, FreshNonce, Bank.Apply, DebitCall;
    if ev.AtBank? || ev.DebitHandled? {
      SameRunsBacked(env, st, Step(env, st, ev));
    } else if ev.Posted? {
      PostingKeeps(env, st, ev.tx);
    } else if ev.Requested? {
      if ev.request.requestId !in st.order && ev.admitted {
        CreatedBacked(env, st, ev.request, ev.merchantOk);
      }
    } else if ev.id in st.runs {
      RunStepBacked(env, st, ev);
    }
  }

  lemma {:induction false} ProceedBacked(env: Env, st: State, evs: seq<PipelineEvent>)
    requires Invariant(env, st) && Evidence(env, st) && AllAllow(env, st, evs)
    ensures Evidence(env, Proceed(env, st, evs))
    decreases |evs|
  {
    hide Invariant, Evidence, Allows, Step;
    if evs != [] {
      StepKeeps(env, st, evs[0]);
      StepBacked(env, st, evs[0]);
      ProceedBacked(env, Step(env, st, evs[0]), evs[1..]);
    }
  }

  lemma ReachableEvidence(env: Env, evs: seq<PipelineEvent>, st: State)
    requires Reachable(env, evs, st)
    ensures Invariant(env, st) && Evidence(env, st)
  {
    hide Invariant, AllAllow, Proceed;
    IdleInvariant(env);
    ReachableInvariant(env, evs, st);
    ProceedBacked(env, IDLE, evs);
  }

  // ---- a delivered token ------------------------------------------------------------------------

  /** What a signed token rests on: an accepted share of every member named, and a
      signature of exactly the debit's message that verifies under the group key. */
  ghost predicate Signs(env: Env, ceremony: SignedCeremony, r: Record)
    requires r.debit.Some?
  {
    var chosen, replies, message := ceremony.chosen, ceremony.replies, TokenMessage(env, r.debit.value);
    && |replies.round1| == |replies.round2| == |chosen| == env.threshold && AllCommitted(replies.round1)
    && r.signerSet == SignerIds(chosen) && Distinct(r.signerSet)
    && (forall i :: 0 <= i < |chosen| ==>
          && replies.round2[i].Partial?
          && ShareCheck(env.suite, env.group, chosen[i], replies.round2[i].zi,
                        CommitmentsOf(chosen, replies.round1), message)
             == Result.Ok(true))
    && Frost.VerifySignature(env.suite, ceremony.signature, message, env.group.groupPublicKey)
  }

  lemma BackingSigns(env: Env, ceremony: SignedCeremony, r: Record)
    requires r.debit.Some? && Backs(env, ceremony, r)
    ensures Signs(env, ceremony, r)
  {
    hide CeremonyOf, CeremonyResult, ShareCheck, Frost.VerifySignature, TokenMessage;
    var message := TokenMessage(env, r.debit.value);
    var outcome := CeremonyOf(env.suite, env.group, ceremony.chosen, ceremony.replies, message);
    ResultIsOutcome(env.suite, env.group, ceremony.chosen, ceremony.replies, message, outcome);
    SignedMeans(env.suite, env.group, ceremony.chosen, ceremony.replies, message, outcome);
  }

  /** A quorum once counted is on the ledger. */
  lemma CountedQuorum(env: Env, ledger: seq<Tx>, r: Record)
    requires CountBacked(env, ledger, r) && r.approvals.Some? && r.approvals.value >= env.quorum
    ensures |Approving(env.members, ledger, HashRequest(env, r.request))| >= env.quorum
  {
    hide CountedAt, ReadThrows, Window, Approving, HashRequest;
    var asOf :| 0 <= asOf <= |ledger| && !ReadThrows(Window(ledger, asOf), env.members)
                && r.approvals.value == CountedAt(ledger, asOf, env.members, HashRequest(env, r.request));
    CountedOnLedger(ledger, asOf, env.members, HashRequest(env, r.request));
  }

  /** A delivered request was published, stands approved on the ledger by a quorum
      of members, and its token is the one its debit authorises, signed with an
      accepted share of each of exactly `threshold` different members. */
  lemma DeliveredHasEvidence(env: Env, evs: seq<PipelineEvent>, st: State, id: Text)
    requires Reachable(env, evs, st) && id in st.runs && st.runs[id].record.status == Delivered
    ensures var r := st.runs[id].record;
            && r.publication.Some?
            && |Approving(env.members, st.outside.ledger, HashRequest(env, r.request))| >= env.quorum
            && r.debit.Some? && r.token == Some(TokenFor(env, r.debit.value))
            && id in st.observed.signed && Signs(env, st.observed.signed[id], r)
            && r.dispensedKwh == Some(r.debit.value.payload.amountKwh)
            && r.ledger.Some? && r.ledger.value == Receipt(env, r, r.ledger.value.txHash)
  {
    hide Reachable, SharedOk, BankOk, OrderOk, CeremonyOk, HistoryOk, FieldsOk, DebitBacked, ReversalBacked, TokenFor,
      Receipt, Distinct, Approving, HashRequest, CountBacked, Backs, Signs, AnswerFits;
    ReachableEvidence(env, evs, st);
    assert RunOk(env, st, id, st.runs[id]);
    DeliveredFields(env, st.runs[id]);
    assert RecordBacked(env, st, id, st.runs[id].record);
    CountedQuorum(env, st.outside.ledger, st.runs[id].record);
    BackingSigns(env, st.observed.signed[id], st.runs[id].record);
  }

  // ---- a rejected request whose debit was taken ----------------------------------------------------

  lemma RejectedIffNoDebit(env: Env, run: PipelineRun)
    requires HistoryOk(run) && FieldsOk(env, run) && PastDebit(run.at)
    ensures run.record.status == Rejected <==> run.record.debit.None?
  {
    hide TokenFor, EvidenceOk;
  }

  /** A run whose call was answered is REJECTED exactly when the answer was not a
      verified debit for the request. */
  lemma RejectedIffUnconfirmed(env: Env, evs: seq<PipelineEvent>, st: State, id: Text)
    requires Reachable(env, evs, st) && id in st.observed.answers
    ensures id in st.runs
    ensures st.runs[id].record.status == Rejected <==> !Confirms(env, id, st.observed.answers[id])
    ensures Confirms(env, id, st.observed.answers[id]) ==>
              BankConfirmed(st.outside.bank.log, st.observed.answers[id].debit.payload)
  {
    hide Reachable, SharedOk, BankOk, OrderOk, CeremonyOk, HistoryOk, FieldsOk, ReversalBacked, ReceiptBacked,
      RecordBacked, BankConfirmed;
    ReachableEvidence(env, evs, st);
    assert AnswerFits(env, id, st.runs[id], st.observed.answers[id]);
    assert RunOk(env, st, id, st.runs[id]);
    RejectedIffNoDebit(env, st.runs[id]);
  }

  /** A confirmed entry for a request. */
  predicate ConfirmedFor(e: Entry, id: Text) {
    e.outcome == Outcome.Confirmed && e.debit.payload.requestId == id
  }

  /** The bank has one debit for a request, whoever holds it. */
  lemma OneDebit(env: Env, bank: BankState, id: Text, debit: Debit, i: nat)
    requires BankInvariant(env.bankKey, bank) && BankConfirmed(bank.log, debit.payload) && debit.payload.requestId == id
    requires VerifyBankSignature(debit, env.bankKey) && i < |bank.log| && ConfirmedFor(bank.log[i], id)
    ensures bank.log[i].debit == debit
  {
    var j :| 0 <= j < |bank.log| && bank.log[j].debit.payload == debit.payload
      && bank.log[j].outcome == Outcome.Confirmed;
    assert i == j;
    assert EntryOk(env.bankKey, bank.reversals, bank.log[i]);
  }

  /** A run that made its debit call is REJECTED although the bank confirmed a debit
      for it if and only if the bank did and what came back was not that debit: the
      answer was lost, failed, threw or did not verify. */
  lemma RejectedWithDebitIff(env: Env, evs: seq<PipelineEvent>, st: State, id: Text)
    requires Reachable(env, evs, st) && id in st.observed.answers
    ensures id in st.runs
    ensures (st.runs[id].record.status == Rejected && exists e :: e in st.outside.bank.log && ConfirmedFor(e, id)) <==>
            exists e :: e in st.outside.bank.log && ConfirmedFor(e, id) && st.observed.answers[id] != Answered(e.debit)
  {
    hide Reachable, RunsOk, SharedOk, OrderOk, NoncesDistinct, BankInvariant, BankConfirmed, Evidence;
    ReachableEvidence(env, evs, st);
    RejectedIffUnconfirmed(env, evs, st, id);
    var answer, bank := st.observed.answers[id], st.outside.bank;
    forall i | 0 <= i < |bank.log| && ConfirmedFor(bank.log[i], id)
      ensures Confirms(env, id, answer) <==> answer == Answered(bank.log[i].debit)
    {
      if Confirms(env, id, answer) {
        OneDebit(env, bank, id, answer.debit, i);
      } else if answer == Answered(bank.log[i].debit) {
        ConfirmedVerifies(env, bank, i);
      }
    }
  }

  lemma ConfirmedVerifies(env: Env, bank: BankState, i: nat)
    requires BankInvariant(env.bankKey, bank) && i < |bank.log| && bank.log[i].outcome == Outcome.Confirmed
    ensures VerifyBankSignature(bank.log[i].debit, env.bankKey)
  {
    assert EntryOk(env.bankKey, bank.reversals, bank.log[i]);
  }
}
