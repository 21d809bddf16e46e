/** What holds in every reachable state of the pipeline, under any interleaving
    of runs, replies, failures and lost replies. */
module PipelineTheorems {
  import opened Approvals
  import opened Bank
  import opened Canonical
  import opened Ceremony
  import opened Lists
  import opened Meter
  import opened Pipeline
  import opened PipelineInvariant
  import opened PipelineRuns
  import opened PipelineSteps
  import opened Types
  import opened Verify
  import opened Wrappers

  ghost predicate Reachable(env: Env, evs: seq<PipelineEvent>, st: State) {
    AllAllow(env, IDLE, evs) && Proceed(env, IDLE, evs) == st
  }

  lemma ReachableInvariant(env: Env, evs: seq<PipelineEvent>, st: State)
    requires Reachable(env, evs, st)
    ensures Invariant(env, st)
  {
    hide Invariant, AllAllow, Proceed;
    IdleInvariant(env);
    ProceedKeeps(env, IDLE, evs);
  }

  // ---- histories --------------------------------------------------------------------

  /** A run that has ended shows one of the complete histories; one that has not
      shows a prefix of the stages. */
  lemma HistoryGrammar(env: Env, evs: seq<PipelineEvent>, st: State, id: Text)
    requires Reachable(env, evs, st) && id in st.runs
    ensures st.runs[id].at.Finished? ==> Complete(st.runs[id].record)
    ensures !st.runs[id].at.Finished? ==> Progress(st.runs[id].record, |st.runs[id].record.history|)
  {
    hide Reachable, SharedOk, BankOk, OrderOk, FieldsOk, CeremonyOk, DebitBacked, ReversalBacked, ReceiptBacked;
    ReachableInvariant(env, evs, st);
    assert RunOk(env, st, id, st.runs[id]);
  }

  lemma DeliveredFields(env: Env, run: PipelineRun)
    requires HistoryOk(run) && FieldsOk(env, run) && run.record.status == Delivered
    ensures var r := run.record;
            && r.publication.Some? && r.approvals.Some? && r.approvals.value >= env.quorum
            && |r.signerSet| == env.threshold && Distinct(r.signerSet)
            && r.debit.Some? && r.token == Some(TokenFor(env, r.debit.value)) && r.ledger.Some?
            && r.dispensedKwh == Some(r.debit.value.payload.amountKwh)
  {
    hide TokenFor, Distinct;
  }

  /** At most |online| - t + 1 ceremonies are started for one poll of the members. */
  lemma CeremoniesBounded(env: Env, evs: seq<PipelineEvent>, st: State, id: Text)
    requires Reachable(env, evs, st) && id in st.runs && st.runs[id].at.CeremonyReply?
    ensures st.runs[id].at.ceremonies <= |st.runs[id].at.online| - env.threshold + 1
  {
    hide Reachable, Invariant, DistinctSigners;
    ReachableInvariant(env, evs, st);
    CeremonyHolds(env, st, id);
  }

  // ---- termination ---------------------------------------------------------------------

  const LONGEST := 11

  /** How many replies a run can still take, with at most three members. */
  function Rank(at: Await): nat {
    match at
    case PreflightPoll => 11
    case DebitReply => 10
    case PublishReply => 9
    case ApproverPoll => 8
    case ApprovalsRead => 7
    case OnlinePoll => 6
    case CeremonyReply(online, refused, _) => if |Pool(online, refused)| <= 3 then 2 + |Pool(online, refused)| else 5
    case ReceiptReply(_) => 2
    case ReversalReply => 1
    case Finished => 0
  }

  lemma {:induction false} SignerSetSize(online: seq<SignerInfo>, n: nat) returns (s: set<SignerId>)
    requires DistinctSigners(online) && n <= |online|
    ensures |s| == n && forall x :: x in s <==> exists i :: 0 <= i < n && online[i].signerId == x
  {
    if n == 0 {
      s := {};
    } else {
      var t := SignerSetSize(online, n - 1);
      s := t + {online[n - 1].signerId};
      assert online[n - 1].signerId !in t;
    }
  }

  lemma ThreeSigners(online: seq<SignerInfo>)
    requires DistinctSigners(online)
    ensures |online| <= 3
  {
    var s := SignerSetSize(online, |online|);
    assert s <= ALL_SIGNERS;
    assert |s| <= |ALL_SIGNERS| by {
      assert ALL_SIGNERS == s + (ALL_SIGNERS - s);
    }
  }

  predicate Advances(st: State, id: Text, at: Await) {
    id in st.runs && Rank(st.runs[id].at) < Rank(at)
  }

  lemma EndRanks()
    ensures Rank(Finished) == 0 && Rank(ReversalReply) == 1 && Rank(PublishReply) == 9 && Rank(ReceiptReply(None)) == 2
  {
    hide Pool;
  }

  lemma AbandonRank(st: State, id: Text, r: Record)
    ensures id in Abandon(st, id, r).runs && Rank(Abandon(st, id, r).runs[id].at) <= 1
  {
    hide Rank, Transition;
    EndRanks();
  }

  lemma SignedRank(env: Env, st: State, id: Text, r: Record, token: Token, signerSet: seq<SignerId>)
    ensures id in OnSigned(env, st, id, r, token, signerSet).runs
    ensures Rank(OnSigned(env, st, id, r, token, signerSet).runs[id].at) <= 2
  {
    hide VerifyTokenForMeter, Transition, Abandon, Rank;
    EndRanks();
    AbandonRank(st, id, Transition(r.(token := Some(token), signerSet := signerSet), Signed));
  }

  lemma OutcomeRank(env: Env, st: State, id: Text, r: Record, at: Await, replies: Replies, outcome: CeremonyOutcome)
    requires at.CeremonyReply? && CeremonyOk(env, at) && r.debit.Some? && env.threshold >= 1
    requires OutcomeFits(env, at, outcome)
    ensures Advances(OnOutcome(env, st, id, r, at, replies, outcome), id, at)
  {
    hide DistinctSigners, TokenFor, OnSigned, Abandon, SignerIds;
    ThreeSigners(at.online);
    if outcome.Refused? {
      RefusalShrinks(env, at, outcome.refuser);
    }
    AbandonRank(st, id, r);
    if outcome.TokenSigned? {
      var ceremony := SignedCeremony(Chosen(at.online, at.refused, env.threshold), replies, outcome.signature);
      SignedRank(env, NoteCeremony(st, id, ceremony), id, r, TokenFor(env, r.debit.value), outcome.signerSet);
    }
  }

  // Each reply, on its own.

  lemma PreflightAdvances(env: Env, st: State, id: Text, r: Record, online: seq<SignerInfo>)
    ensures Advances(Resume(env, st, id, PipelineRun(r, PreflightPoll), PreflightPolled(id, online)), id, PreflightPoll)
  {
  }

  lemma DebitRank(env: Env, st: State, id: Text, r: Record, answer: BankAnswer)
    ensures id in OnDebit(env, st, id, r, answer).runs && Rank(OnDebit(env, st, id, r, answer).runs[id].at) <= 9
  {
    hide Rank, Transition;
    EndRanks();
  }

  lemma DebitAdvances(env: Env, st: State, id: Text, r: Record, answer: BankAnswer)
    ensures Advances(Resume(env, st, id, PipelineRun(r, DebitReply), DebitReplied(id, answer)), id, DebitReply)
  {
    hide OnDebit;
    DebitRank(env, st, id, r, answer);
  }

  lemma PublishAdvances(env: Env, st: State, id: Text, r: Record, tx: Option<Text>)
    ensures Advances(Resume(env, st, id, PipelineRun(r, PublishReply), PublishReplied(id, tx)), id, PublishReply)
  {
    hide Abandon;
    AbandonRank(st, id, r);
  }

  lemma ApproversAdvance(env: Env, st: State, id: Text, r: Record, online: seq<SignerInfo>)
    ensures Advances(Resume(env, st, id, PipelineRun(r, ApproverPoll), ApproversPolled(id, online)), id, ApproverPoll)
  {
    hide Abandon;
    AbandonRank(st, id, r);
  }

  lemma CountAdvances(env: Env, st: State, id: Text, r: Record, asOf: nat)
    requires !Terminal(r.status)
    ensures Advances(Resume(env, st, id, PipelineRun(r, ApprovalsRead), ApprovalsCounted(id, asOf)), id, ApprovalsRead)
  {
    hide Abandon, CountSeen, ReadThrows, Backstop;
    AbandonRank(st, id, r.(approvals := Some(CountSeen(env, st.outside.ledger, asOf, r.request))));
    BackstopRank(st, id, PipelineRun(r, ApprovalsRead));
  }

  lemma PolledRank(env: Env, st: State, id: Text, r: Record, online: seq<SignerInfo>)
    requires DistinctSigners(online)
    ensures Advances(OnSignersPolled(env, st, id, r, online), id, OnlinePoll)
  {
    hide Abandon, Pool, DistinctSigners;
    PolledFits(online);
    AbandonRank(st, id, r);
  }

  lemma PolledFits(online: seq<SignerInfo>)
    requires DistinctSigners(online)
    ensures Rank(CeremonyReply(online, {}, 1)) < Rank(OnlinePoll)
  {
    hide DistinctSigners;
    ThreeSigners(online);
    FullPool(online);
  }

  lemma SignersAdvance(env: Env, st: State, id: Text, r: Record, online: seq<SignerInfo>)
    requires DistinctSigners(online)
    ensures Advances(Resume(env, st, id, PipelineRun(r, OnlinePoll), SignersPolled(id, online)), id, OnlinePoll)
  {
    hide OnSignersPolled, DistinctSigners, Advances;
    PolledRank(env, st, id, r, online);
  }

  lemma CeremonyAdvances(env: Env, st: State, id: Text, run: PipelineRun, replies: Replies)
    requires run.at.CeremonyReply? && CeremonyOk(env, run.at) && Ready(env, run) && Shaped(env, replies)
    requires env.threshold >= 1
    ensures Advances(Resume(env, st, id, run, CeremonyEnded(id, replies)), id, run.at)
  {
    hide OnOutcome, OutcomeOf, CeremonyOk, OutcomeFits, Pool, Advances;
    OutcomesFit(env, run.record, run.at, replies);
    OutcomeRank(env, st, id, run.record, run.at, replies, OutcomeOf(env, run.record, run.at, replies));
  }

  lemma ConfirmedRank(env: Env, st: State, id: Text, r: Record, token: Token, ledger: LedgerRecord)
    ensures id in OnConfirmedReceipt(env, st, id, r, token, ledger).runs
    ensures Rank(OnConfirmedReceipt(env, st, id, r, token, ledger).runs[id].at) <= 1
  {
    hide DeliverToken, Rank, Transition, Abandon;
    EndRanks();
    AbandonRank(st.(audit := [ledger] + st.audit), id, Transition(r.(ledger := Some(ledger)), Recorded));
  }

  lemma ReceiptRank(env: Env, st: State, id: Text, r: Record, submitted: Option<Text>, ok: bool)
    requires r.debit.Some? && r.token.Some?
    ensures id in OnReceipt(env, st, id, r, submitted, ok).runs
    ensures Rank(OnReceipt(env, st, id, r, submitted, ok).runs[id].at) <= 1
  {
    hide OnConfirmedReceipt, Receipt, Rank, Abandon;
    AbandonRank(st, id, r);
    if ok && submitted.Some? {
      ConfirmedRank(env, st, id, r, r.token.value, Receipt(env, r, submitted.value));
    }
  }

  lemma ReceiptAdvances(env: Env, st: State, id: Text, run: PipelineRun, ok: bool)
    requires run.at.ReceiptReply? && Ready(env, run)
    ensures Advances(Resume(env, st, id, run, ReceiptReplied(id, ok)), id, run.at)
  {
    hide OnReceipt;
    ReceiptRank(env, st, id, run.record, run.at.submitted, ok);
  }

  lemma BackstopRank(st: State, id: Text, run: PipelineRun)
    requires !run.at.Finished? && !Terminal(run.record.status)
             && (run.record.debit.Some? && !run.at.ReversalReply? ==> DebitTaken(run.at))
    ensures Advances(Backstop(st, id, run), id, run.at)
  {
    hide Transition, Rank, Abandon, FinishAbandoned, DebitTaken;
    OpenRank(run.at);
    AbandonRank(st, id, run.record);
    EndRanks();
    FinishedRank(run.record);
  }

  lemma FinishedRank(r: Record)
    ensures FinishAbandoned(r, false).at == Finished
  {
  }

  lemma ThrowAdvances(env: Env, st: State, id: Text, run: PipelineRun)
    requires !run.at.Finished? && Ready(env, run) && !Terminal(run.record.status)
    requires run.record.debit.Some? && !run.at.ReversalReply? ==> DebitTaken(run.at)
    ensures Advances(Resume(env, st, id, run, CallThrew(id)), id, run.at)
  {
    hide Backstop, DebitTaken;
    BackstopRank(st, id, run);
  }

  lemma OpenRank(at: Await)
    ensures !at.Finished? ==> Rank(at) >= 1
    ensures DebitTaken(at) ==> Rank(at) >= 2
  {
  }

  lemma ReversalAdvances(env: Env, st: State, id: Text, r: Record, ok: bool)
    ensures Advances(Resume(env, st, id, PipelineRun(r, ReversalReply), ReversalReplied(id, ok)), id, ReversalReply)
  {
    hide Transition;
  }

  lemma ResumeAdvances(env: Env, st: State, id: Text, run: PipelineRun, ev: PipelineEvent)
    requires Answers(env, ev, run.at) && Ready(env, run) && RunAllows(env, st, run, ev) && AtRun(ev) && ev.id == id
    requires CeremonyOk(env, run.at) && env.threshold >= 1 && !Terminal(run.record.status)
    requires run.record.debit.Some? && !run.at.ReversalReply? ==> DebitTaken(run.at)
    ensures Advances(Resume(env, st, id, run, ev), id, run.at)
  {
    hide Resume, Advances, Ready, DistinctSigners, CeremonyOk, Shaped, DebitTaken;
    match ev
    case PreflightPolled(_, online) => PreflightAdvances(env, st, id, run.record, online);
    case DebitReplied(_, answer) => DebitAdvances(env, st, id, run.record, answer);
    case PublishReplied(_, tx) => PublishAdvances(env, st, id, run.record, tx);
    case ApproversPolled(_, online) => ApproversAdvance(env, st, id, run.record, online);
    case ApprovalsCounted(_, asOf) => CountAdvances(env, st, id, run.record, asOf);
    case SignersPolled(_, online) => SignersAdvance(env, st, id, run.record, online);
    case CeremonyEnded(_, replies) => CeremonyAdvances(env, st, id, run, replies);
    case ReceiptReplied(_, ok) => ReceiptAdvances(env, st, id, run, ok);
    case ReversalReplied(_, ok) => ReversalAdvances(env, st, id, run.record, ok);
    case CallThrew(_) => ThrowAdvances(env, st, id, run);
  }

  /** Every reply brings a run nearer to its end, whatever the reply is and
      wherever the call throws. */
  lemma ReplyAdvances(env: Env, st: State, ev: PipelineEvent)
    requires Invariant(env, st) && Allows(env, st, ev) && env.threshold >= 1
    requires AtRun(ev) && ev.id in st.runs && Answers(env, ev, st.runs[ev.id].at)
    ensures ev.id in Step(env, st, ev).runs
    ensures Rank(Step(env, st, ev).runs[ev.id].at) < Rank(st.runs[ev.id].at)
  {
    hide Invariant, Resume, RunAllows, CeremonyOk, Ready, Rank, OnSubmitted;
    RunIsReady(env, st, ev.id);
    CeremonyHolds(env, st, ev.id);
    ResumeAdvances(env, st, ev.id, st.runs[ev.id], ev);
  }

  /** Only run id's entry differs. */
  ghost predicate OnlyRun(st: State, st': State, id: Text) {
    id in st'.runs && st'.runs == st.runs[id := st'.runs[id]]
  }

  lemma AbandonOnly(st: State, id: Text, r: Record)
    ensures OnlyRun(st, Abandon(st, id, r), id)
  {
    hide FinishAbandoned;
  }

  lemma OutcomeOnly(env: Env, st: State, id: Text, r: Record, at: Await, replies: Replies, outcome: CeremonyOutcome)
    requires at.CeremonyReply? && |Pool(at.online, at.refused)| >= env.threshold && r.debit.Some?
    ensures OnlyRun(st, OnOutcome(env, st, id, r, at, replies, outcome), id)
  {
    hide TokenFor, Chosen, Pool, OnSigned, Abandon;
    AbandonOnly(st, id, r);
    if outcome.TokenSigned? {
      var ceremony := SignedCeremony(Chosen(at.online, at.refused, env.threshold), replies, outcome.signature);
      SignedOnly(env, NoteCeremony(st, id, ceremony), id, r, TokenFor(env, r.debit.value), outcome.signerSet);
    }
  }

  lemma SignedOnly(env: Env, st: State, id: Text, r: Record, token: Token, signerSet: seq<SignerId>)
    ensures OnlyRun(st, OnSigned(env, st, id, r, token, signerSet), id)
  {
    hide VerifyTokenForMeter, Transition, Abandon;
    AbandonOnly(st, id, Transition(r.(token := Some(token), signerSet := signerSet), Signed));
  }

  lemma CeremonyOnly(env: Env, st: State, id: Text, r: Record, at: Await, replies: Replies)
    requires at.CeremonyReply? && |Pool(at.online, at.refused)| >= env.threshold && r.debit.Some?
    requires Shaped(env, replies)
    ensures OnlyRun(st, OnCeremony(env, st, id, r, at, replies), id)
  {
    hide OnOutcome, OutcomeOf, OnlyRun;
    OutcomeOnly(env, st, id, r, at, replies, OutcomeOf(env, r, at, replies));
  }

  lemma ConfirmedOnly(env: Env, st: State, id: Text, r: Record, token: Token, ledger: LedgerRecord)
    ensures OnlyRun(st, OnConfirmedReceipt(env, st, id, r, token, ledger), id)
  {
    hide DeliverToken, Transition, Abandon;
    AbandonOnly(st.(audit := [ledger] + st.audit), id, Transition(r.(ledger := Some(ledger)), Recorded));
  }

  lemma ReceiptOnly(env: Env, st: State, id: Text, r: Record, submitted: Option<Text>, ok: bool)
    requires r.debit.Some? && r.token.Some?
    ensures OnlyRun(st, OnReceipt(env, st, id, r, submitted, ok), id)
  {
    hide OnConfirmedReceipt, Receipt, Abandon;
    AbandonOnly(st, id, r);
    if ok && submitted.Some? {
      ConfirmedOnly(env, st, id, r, r.token.value, Receipt(env, r, submitted.value));
    }
  }

  lemma DebitOnly(env: Env, st: State, id: Text, r: Record, answer: BankAnswer)
    ensures OnlyRun(st, Heard(OnDebit(env, st, id, r, answer), id, answer), id)
  {
    hide Transition;
  }

  lemma CountedOnly(env: Env, st: State, id: Text, r: Record, n: nat)
    ensures OnlyRun(st, OnCounted(env, st, id, r, n), id)
  {
    hide Transition, Abandon;
    AbandonOnly(st, id, r.(approvals := Some(n)));
  }

  lemma ThrowOnly(st: State, id: Text, run: PipelineRun)
    requires id in st.runs && st.runs[id] == run
    ensures OnlyRun(st, Backstop(st, id, run), id) && OnlyRun(st, Heard(Backstop(st, id, run), id, NoReply), id)
  {
    hide Transition, FinishAbandoned, Abandon;
    AbandonOnly(st, id, run.record);
  }

  lemma ReadOnly(env: Env, st: State, id: Text, run: PipelineRun, asOf: nat)
    requires id in st.runs && st.runs[id] == run
    ensures OnlyRun(st, OnRead(env, st, id, run, asOf), id)
  {
    hide OnCounted, Backstop, ReadThrows, CountSeen, OnlyRun, Heard;
    ThrowOnly(st, id, run);
    CountedOnly(env, st, id, run.record, CountSeen(env, st.outside.ledger, asOf, run.record.request));
  }

  lemma ResumeOnly(env: Env, st: State, id: Text, run: PipelineRun, ev: PipelineEvent)
    requires id in st.runs && st.runs[id] == run
    requires Answers(env, ev, run.at) && Ready(env, run)
    ensures OnlyRun(st, Resume(env, st, id, run, ev), id)
  {
    hide OnCeremony, OnReceipt, OnDebit, OnRead, Backstop, Abandon, Transition, FinishAbandoned, Pool, Shaped, Heard;
    AbandonOnly(st, id, run.record);
    match ev
    case DebitReplied(_, answer) => DebitOnly(env, st, id, run.record, answer);
    case ApprovalsCounted(_, asOf) => ReadOnly(env, st, id, run, asOf);
    case CeremonyEnded(_, replies) => CeremonyOnly(env, st, id, run.record, run.at, replies);
    case ReceiptReplied(_, ok) => ReceiptOnly(env, st, id, run.record, run.at.submitted, ok);
    case CallThrew(_) => ThrowOnly(st, id, run);
    case _ =>
  }

  /** A step changes at most the run the event is at. */
  lemma StepOnly(env: Env, st: State, ev: PipelineEvent, id: Text)
    requires AtRun(ev) && ev.id in st.runs && id in st.runs && id != ev.id
    ensures id in Step(env, st, ev).runs && Step(env, st, ev).runs[id] == st.runs[id]
  {
    hide Resume, Ready, Answers;
    if Answers(env, ev, st.runs[ev.id].at) && Ready(env, st.runs[ev.id]) {
      ResumeOnly(env, st, ev.id, st.runs[ev.id], ev);
    }
  }

  /** An event that answers no call of a run leaves its record alone. */
  lemma UnansweredStays(env: Env, st: State, ev: PipelineEvent, id: Text)
    requires id in st.runs && Allows(env, st, ev)
    requires !AtRun(ev) || ev.id != id || !Answers(env, ev, st.runs[id].at)
    ensures id in Step(env, st, ev).runs && Step(env, st, ev).runs[id].record == st.runs[id].record
    ensures Step(env, st, ev).runs[id].at == st.runs[id].at
            || (st.runs[id].at.ReceiptReply? && Step(env, st, ev).runs[id].at.ReceiptReply?)
  {
    hide Resume, RunAllows, Ready, FreshRef, FreshNonce, Bank.Apply, Answers, Retain;
    if AtRun(ev) && ev.id in st.runs && ev.id != id {
      StepOnly(env, st, ev, id);
    }
  }

  /** The other events leave a run's rank alone. */
  lemma OtherRuns(env: Env, st: State, ev: PipelineEvent, id: Text)
    requires id in st.runs && Allows(env, st, ev)
    requires !AtRun(ev) || ev.id != id || !Answers(env, ev, st.runs[id].at)
    ensures id in Step(env, st, ev).runs && Rank(Step(env, st, ev).runs[id].at) == Rank(st.runs[id].at)
  {
    hide Step, Allows, Answers, Pool;
    UnansweredStays(env, st, ev, id);
  }

  /** The replies a run gets in a run of events. */
  ghost function RepliesTo(env: Env, st: State, evs: seq<PipelineEvent>, id: Text): nat
    decreases |evs|
  {
    if evs == [] then 0
    else
      RepliesTo(env, Step(env, st, evs[0]), evs[1..], id) +
      if AtRun(evs[0]) && evs[0].id == id && id in st.runs && Answers(env, evs[0], st.runs[id].at) then 1 else 0
  }

  lemma {:induction false} RepliesBounded(env: Env, st: State, evs: seq<PipelineEvent>, id: Text)
    requires Invariant(env, st) && AllAllow(env, st, evs) && env.threshold >= 1 && id in st.runs
    ensures id in Proceed(env, st, evs).runs
    ensures RepliesTo(env, st, evs, id) + Rank(Proceed(env, st, evs).runs[id].at) <= Rank(st.runs[id].at)
    decreases |evs|
  {
    hide Invariant, Allows, Step, Rank, Answers;
    if evs != [] {
      StepKeeps(env, st, evs[0]);
      if AtRun(evs[0]) && evs[0].id == id && Answers(env, evs[0], st.runs[id].at) {
        ReplyAdvances(env, st, evs[0]);
      } else {
        OtherRuns(env, st, evs[0], id);
      }
      RepliesBounded(env, Step(env, st, evs[0]), evs[1..], id);
    }
  }

  /** A run ends after at most 11 replies, and it has ended exactly when its
      status is terminal. */
  lemma EveryRunTerminates(env: Env, st: State, evs: seq<PipelineEvent>, id: Text)
    requires Invariant(env, st) && AllAllow(env, st, evs) && env.threshold >= 1 && id in st.runs
    ensures id in Proceed(env, st, evs).runs && RepliesTo(env, st, evs, id) <= LONGEST
    ensures RepliesTo(env, st, evs, id) == LONGEST ==> Terminal(Proceed(env, st, evs).runs[id].record.status)
    ensures Terminal(Proceed(env, st, evs).runs[id].record.status) <==> Proceed(env, st, evs).runs[id].at.Finished?
  {
    hide Invariant, AllAllow, Proceed, RepliesTo;
    RepliesBounded(env, st, evs, id);
    ProceedKeeps(env, st, evs);
    RunIsReady(env, Proceed(env, st, evs), id);
  }

  /** A throw ends a run or leaves it waiting for the reversal, and only then. */
  lemma ThrowSteps(env: Env, st: State, id: Text)
    requires id in st.runs && !st.runs[id].at.Finished? && Ready(env, st.runs[id])
    requires !Terminal(st.runs[id].record.status)
    ensures var st' := Step(env, st, CallThrew(id));
            && id in st'.runs && (st'.runs[id].at.ReversalReply? || st'.runs[id].at.Finished?)
            && (st.runs[id].at.ReversalReply? ==> st'.runs[id].at.Finished?)
  {
    hide Transition, Ready;
  }

  /** Wherever a run is suspended, two throws end it. */
  lemma ThrowsEnd(env: Env, st: State, id: Text)
    requires Invariant(env, st) && id in st.runs && !st.runs[id].at.Finished?
    ensures Allows(env, st, CallThrew(id)) && Allows(env, Step(env, st, CallThrew(id)), CallThrew(id))
    ensures var st' := Step(env, Step(env, st, CallThrew(id)), CallThrew(id));
            id in st'.runs && st'.runs[id].at.Finished? && Complete(st'.runs[id].record)
  {
    hide Invariant, Complete, Ready, Step;
    RunIsReady(env, st, id);
    var st1 := Step(env, st, CallThrew(id));
    ThrowSteps(env, st, id);
    StepKeeps(env, st, CallThrew(id));
    RunIsReady(env, st1, id);
    StepKeeps(env, st1, CallThrew(id));
    var st2 := Step(env, st1, CallThrew(id));
    if st1.runs[id].at.Finished? {
      FinishedStays(env, st1, id);
    } else {
      ThrowSteps(env, st1, id);
    }
    FinishedComplete(env, st2, id);
  }

  lemma FinishedStays(env: Env, st: State, id: Text)
    requires id in st.runs && st.runs[id].at.Finished?
    ensures Step(env, st, CallThrew(id)) == st
  {
    hide Resume, Ready;
  }

  lemma FinishedComplete(env: Env, st: State, id: Text)
    requires Invariant(env, st) && id in st.runs && st.runs[id].at.Finished?
    ensures Complete(st.runs[id].record)
  {
    hide SharedOk, BankOk, OrderOk, FieldsOk, CeremonyOk, DebitBacked, ReversalBacked, ReceiptBacked;
    assert RunOk(env, st, id, st.runs[id]);
  }

  // ---- one debit, one token --------------------------------------------------------------

  /** Each debit is dispensed at most once, to the meter and for the units the
      bank attested, for the one run that claimed it. */
  lemma OneDispensePerDebit(env: Env, evs: seq<PipelineEvent>, st: State, i: nat)
    requires Reachable(env, evs, st) && i < |st.meter.dispensed|
    ensures forall j ::
              0 <= j < |st.meter.dispensed| && st.meter.dispensed[j].debitRef == st.meter.dispensed[i].debitRef ==>
              i == j
    ensures exists id :: id in st.runs && st.runs[id].record.status == Delivered && st.runs[id].record.debit.Some?
                         && st.meter.dispensed[i] == Paid(st.runs[id].record.debit.value.payload)
                         && BankConfirmed(st.outside.bank.log, st.runs[id].record.debit.value.payload)
  {
    hide Reachable, HistoryOk, FieldsOk, CeremonyOk, ReversalBacked, ReceiptBacked, BankOk, OrderOk, AskedOk, AuditOk,
      BankConfirmed;
    ReachableInvariant(env, evs, st);
    var ref := st.meter.dispensed[i].debitRef;
    var id := st.consumed[ref];
    assert ref in st.meter.usedDebitRefs;
    assert RunOk(env, st, id, st.runs[id]);
  }

  /** DEBIT_ALREADY_CONSUMED cannot happen: a verified debit is never claimed by
      another run. */
  lemma ClaimSucceeds(env: Env, evs: seq<PipelineEvent>, st: State, id: Text, debit: Debit)
    requires Reachable(env, evs, st) && id in st.runs && st.runs[id].at.DebitReply?
    requires BankConfirmed(st.outside.bank.log, debit.payload) && debit.payload.requestId == id
    ensures debit.payload.debitRef !in st.consumed
  {
    hide Reachable, Invariant, BankConfirmed;
    ReachableInvariant(env, evs, st);
    RunIsReady(env, st, id);
    UnclaimedDebit(env, st, id, debit.payload);
  }

  /** From the ceremony to the receipt's reply the token of a run stays
      acceptable, so a confirmed receipt is followed by a delivery. */
  lemma ReceiptThenDelivery(env: Env, evs: seq<PipelineEvent>, st: State, id: Text)
    requires Reachable(env, evs, st) && id in st.runs && (st.runs[id].at.CeremonyReply? || st.runs[id].at.ReceiptReply?)
    ensures st.runs[id].record.debit.Some?
    ensures VerifyTokenForMeter(env, st.meter, TokenFor(env, st.runs[id].record.debit.value)) == Accepted
    ensures st.runs[id].at.ReceiptReply? && st.runs[id].at.submitted.Some? ==>
              var st' := Step(env, st, ReceiptReplied(id, true));
              id in st'.runs && st'.runs[id].record.status == Delivered
  {
    hide Reachable, Invariant, TokenFor, VerifyTokenForMeter, DeliverToken, Receipt;
    ReachableInvariant(env, evs, st);
    RunIsReady(env, st, id);
    TokenStillAccepted(env, st, id);
    if st.runs[id].at.ReceiptReply? && st.runs[id].at.submitted.Some? {
      ReceiptDelivers(env, st, id);
    }
  }

  /** The audit trail holds the receipts of the delivered runs, each once. */
  lemma AuditIsDelivered(env: Env, evs: seq<PipelineEvent>, st: State, a: LedgerRecord)
    requires Reachable(env, evs, st)
    ensures Distinct(st.audit)
    ensures a in st.audit <==>
            exists id :: id in st.runs && st.runs[id].record.status == Delivered && st.runs[id].record.ledger == Some(a)
  {
    hide Reachable, HistoryOk, CeremonyOk, ReversalBacked, DebitBacked, BankOk, OrderOk, AskedOk, ClaimsOk, MeterOk,
      DispensedOk, Receipt, TokenFor;
    ReachableInvariant(env, evs, st);
    if a in st.audit {
      var id := st.outside.receipts[a.txHash];
      assert RunOk(env, st, id, st.runs[id]);
      assert st.runs[id].record.ledger == Some(a);
    }
    if id :| id in st.runs && st.runs[id].record.status == Delivered && st.runs[id].record.ledger == Some(a) {
      assert RunOk(env, st, id, st.runs[id]);
    }
  }

  /** The reversal of a delivered debit is never asked for. */
  lemma DeliveredNotReversed(env: Env, evs: seq<PipelineEvent>, st: State, id: Text)
    requires Reachable(env, evs, st) && id in st.runs && st.runs[id].record.status == Delivered
    ensures st.runs[id].record.debit.Some? && Ref(st.runs[id].record) !in st.observed.reverseAsked
    ensures exists i :: 0 <= i < |st.meter.dispensed|
                        && st.meter.dispensed[i] == Paid(st.runs[id].record.debit.value.payload)
  {
    hide Reachable, HistoryOk, CeremonyOk, BankOk, OrderOk, AuditOk, Receipt, TokenFor, BankConfirmed;
    ReachableInvariant(env, evs, st);
    RunIsReady(env, st, id);
    assert RunOk(env, st, id, st.runs[id]);
    var ref := Ref(st.runs[id].record);
    var i :| 0 <= i < |st.meter.dispensed| && st.meter.dispensed[i].debitRef == ref;
    assert st.meter.dispensed[i] == Paid(st.runs[id].record.debit.value.payload);
  }

  lemma DebitedEnd(env: Env, run: PipelineRun)
    requires HistoryOk(run) && FieldsOk(env, run) && run.at.Finished? && run.record.debit.Some?
    ensures || (run.record.status == Delivered && run.record.debitReversed.None?)
            || (run.record.status == RejectedAbandoned && run.record.debitReversed.Some?)
  {
    hide TokenFor;
  }

  /** A run that took a debit ends in exactly one of three ways. */
  lemma DebitOutcomes(env: Env, evs: seq<PipelineEvent>, st: State, id: Text)
    requires Reachable(env, evs, st) && id in st.runs && st.runs[id].at.Finished? && st.runs[id].record.debit.Some?
    ensures var r := st.runs[id].record;
            || (r.status == Delivered && r.debitReversed.None? && Ref(r) in st.meter.usedDebitRefs
                && Ref(r) !in st.observed.reverseAsked)
            || (r.status == RejectedAbandoned && r.debitReversed == Some(true) && Ref(r) !in st.meter.usedDebitRefs
                && Ref(r) in st.outside.bank.reversals)
            || (r.status == RejectedAbandoned && r.debitReversed == Some(false) && Ref(r) !in st.meter.usedDebitRefs)
  {
    hide Reachable, HistoryOk, FieldsOk, BankOk, OrderOk, AuditOk, Receipt, TokenFor, BankConfirmed, CeremonyOk,
      DispensedOk, DeriveTokenNonce;
    ReachableInvariant(env, evs, st);
    assert RunOk(env, st, id, st.runs[id]);
    DebitedEnd(env, st.runs[id]);
    if st.runs[id].record.status == Delivered {
      DeliveredNotReversed(env, evs, st, id);
      DispensedIsUsed(st, st.runs[id].record.debit.value.payload);
    } else {
      assert st.consumed[Ref(st.runs[id].record)] == id;
      assert Ref(st.runs[id].record) !in st.meter.usedDebitRefs;
      var reversed := st.runs[id].record.debitReversed.value;
      assert st.runs[id].record.debitReversed == if reversed then Some(true) else Some(false);
    }
  }

  lemma DispensedIsUsed(st: State, p: DebitPayload)
    requires DispensedOk(st) && exists i :: 0 <= i < |st.meter.dispensed| && st.meter.dispensed[i] == Paid(p)
    ensures p.debitRef in st.meter.usedDebitRefs
  {
  }
}
