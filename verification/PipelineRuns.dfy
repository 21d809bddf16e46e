/** Every event keeps the invariant, hence every run of events does. */
module PipelineRuns {
  import opened Approvals
  import opened Bank
  import opened Canonical
  import opened Ceremony
  import opened Lists
  import opened Meter
  import opened Pipeline
  import opened PipelineInvariant
  import opened PipelineSteps
  import opened Types
  import opened Verify
  import opened Wrappers

  /** The debit is taken and the outcome is open. */
  predicate DebitTaken(at: Await) {
    !at.PreflightPoll? && !at.DebitReply? && !at.ReversalReply? && !at.Finished?
  }

  lemma RunIsReady(env: Env, st: State, id: Text)
    requires Invariant(env, st) && id in st.runs
    ensures Ready(env, st.runs[id])
    ensures DebitTaken(st.runs[id].at) ==> st.runs[id].record.debit.Some?
    ensures st.runs[id].at.PreflightPoll? || st.runs[id].at.DebitReply? ==> st.runs[id].record.debit.None?
    ensures Terminal(st.runs[id].record.status) <==> st.runs[id].at.Finished?
  {
    hide SharedOk, BankOk, OrderOk, DebitBacked, ReversalBacked, ReceiptBacked, TokenFor, DistinctSigners;
    assert RunOk(env, st, id, st.runs[id]);
  }

  lemma AbandonCommitted(env: Env, st: State, id: Text)
    requires Invariant(env, st) && id in st.runs && DebitTaken(st.runs[id].at)
    ensures Invariant(env, Abandon(st, id, st.runs[id].record))
  {
    hide SharedOk, BankOk, OrderOk, DebitBacked, ReversalBacked, ReceiptBacked, TokenFor, CeremonyOk;
    var run := st.runs[id];
    assert RunOk(env, st, id, run);
    UnfinishedReplaceable(env, st, id, run);
    AbandonKeeps(env, st, id, run.record);
  }

  lemma RejectedIsLocal(env: Env, run: PipelineRun)
    requires (run.at.PreflightPoll? || run.at.DebitReply?) && HistoryOk(run) && FieldsOk(env, run)
    ensures Local(env, run, PipelineRun(Transition(run.record, Rejected), Finished))
  {
    hide TokenFor;
  }

  lemma RejectKeeps(env: Env, st: State, id: Text)
    requires Invariant(env, st) && id in st.runs && (st.runs[id].at.PreflightPoll? || st.runs[id].at.DebitReply?)
    ensures Invariant(env, RejectRun(st, id, st.runs[id].record))
  {
    hide SharedOk, BankOk, OrderOk, DebitBacked, ReversalBacked, ReceiptBacked, HistoryOk, FieldsOk, Local;
    assert RunOk(env, st, id, st.runs[id]);
    RejectedIsLocal(env, st.runs[id]);
    LocalKeeps(env, st, id, PipelineRun(Transition(st.runs[id].record, Rejected), Finished));
  }

  /** A run goes on at the same stage. */
  lemma WaitKeeps(env: Env, st: State, id: Text, at: Await)
    requires Invariant(env, st) && id in st.runs && CeremonyOk(env, at)
    requires || (st.runs[id].at.PreflightPoll? && at.DebitReply?)
             || (st.runs[id].at.ApproverPoll? && at.ApprovalsRead?)
             || ((st.runs[id].at.OnlinePoll? || st.runs[id].at.CeremonyReply?) && at.CeremonyReply?)
    ensures Invariant(env, Put(st, id, PipelineRun(st.runs[id].record, at)))
  {
    hide SharedOk, BankOk, OrderOk, DebitBacked, ReversalBacked, ReceiptBacked, TokenFor, CeremonyOk;
    assert RunOk(env, st, id, st.runs[id]);
    UnfinishedReplaceable(env, st, id, st.runs[id]);
    LocalKeeps(env, st, id, PipelineRun(st.runs[id].record, at));
  }

  lemma PublishedIsLocal(env: Env, run: PipelineRun, tx: Text)
    requires run.at.PublishReply? && HistoryOk(run) && FieldsOk(env, run)
    ensures Local(env, run, PipelineRun(Transition(run.record.(publication := Some(tx)), Published), ApproverPoll))
  {
    hide TokenFor;
    StageAdded(run.record, 2);
  }

  lemma PublishKeeps(env: Env, st: State, id: Text, tx: Text)
    requires Invariant(env, st) && id in st.runs && st.runs[id].at.PublishReply?
    ensures Invariant(env, Put(st, id, PipelineRun(Transition(st.runs[id].record.(publication := Some(tx)), Published),
                                                   ApproverPoll)))
  {
    hide SharedOk, BankOk, OrderOk, DebitBacked, ReversalBacked, ReceiptBacked, HistoryOk, FieldsOk, Local;
    assert RunOk(env, st, id, st.runs[id]);
    PublishedIsLocal(env, st.runs[id], tx);
    LocalKeeps(env, st, id, PipelineRun(Transition(st.runs[id].record.(publication := Some(tx)), Published),
                                        ApproverPoll));
  }

  lemma ApprovedIsLocal(env: Env, run: PipelineRun, n: nat)
    requires run.at.ApprovalsRead? && HistoryOk(run) && FieldsOk(env, run) && n >= env.quorum
    ensures Local(env, run, PipelineRun(Transition(run.record.(approvals := Some(n)), Approved), OnlinePoll))
  {
    hide TokenFor;
    StageAdded(run.record, 3);
  }

  lemma ShortIsUndoable(env: Env, run: PipelineRun, n: nat)
    requires run.at.ApprovalsRead? && HistoryOk(run) && FieldsOk(env, run)
    ensures run.record.debit.Some?
    ensures var undone := PipelineRun(run.record.(approvals := Some(n)), ReversalReply);
            HistoryOk(undone) && FieldsOk(env, undone)
  {
    hide TokenFor;
  }

  lemma ApproveKeeps(env: Env, st: State, id: Text, n: nat)
    requires Invariant(env, st) && id in st.runs && st.runs[id].at.ApprovalsRead?
    ensures Invariant(env, OnCounted(env, st, id, st.runs[id].record, n))
  {
    hide SharedOk, BankOk, OrderOk, DebitBacked, ReversalBacked, ReceiptBacked, HistoryOk, FieldsOk, Local;
    assert RunOk(env, st, id, st.runs[id]);
    if n < env.quorum {
      ShortIsUndoable(env, st.runs[id], n);
      UnfinishedReplaceable(env, st, id, st.runs[id]);
      AbandonKeeps(env, st, id, st.runs[id].record.(approvals := Some(n)));
    } else {
      ApprovedIsLocal(env, st.runs[id], n);
      LocalKeeps(env, st, id, PipelineRun(Transition(st.runs[id].record.(approvals := Some(n)), Approved), OnlinePoll));
    }
  }

  lemma ReadKeeps(env: Env, st: State, id: Text, asOf: nat)
    requires Invariant(env, st) && id in st.runs && st.runs[id].at.ApprovalsRead?
    ensures Invariant(env, OnRead(env, st, id, st.runs[id], asOf))
  {
    hide Invariant, OnCounted, Backstop, ReadThrows, CountSeen;
    BackstopKeeps(env, st, id);
    ApproveKeeps(env, st, id, CountSeen(env, st.outside.ledger, asOf, st.runs[id].record.request));
  }

  lemma SignedIsLocal(env: Env, run: PipelineRun, signerSet: seq<SignerId>)
    requires run.at.CeremonyReply? && run.record.debit.Some? && HistoryOk(run) && FieldsOk(env, run)
    requires |signerSet| == env.threshold && Distinct(signerSet)
    ensures var token := TokenFor(env, run.record.debit.value);
            var signed := Transition(run.record.(token := Some(token), signerSet := signerSet), Signed);
            Local(env, run, PipelineRun(signed, ReceiptReply(None)))
  {
    hide TokenFor;
    StageAdded(run.record, 4);
  }

  lemma SignKeeps(env: Env, st: State, id: Text, signerSet: seq<SignerId>)
    requires Invariant(env, st) && id in st.runs && st.runs[id].at.CeremonyReply? && st.runs[id].record.debit.Some?
    requires |signerSet| == env.threshold && Distinct(signerSet)
    ensures VerifyTokenForMeter(env, st.meter, TokenFor(env, st.runs[id].record.debit.value)) == Accepted
    ensures var token := TokenFor(env, st.runs[id].record.debit.value);
            var signed := Transition(st.runs[id].record.(token := Some(token), signerSet := signerSet), Signed);
            Invariant(env, Put(st, id, PipelineRun(signed, ReceiptReply(None))))
  {
    hide SharedOk, BankOk, OrderOk, DebitBacked, ReversalBacked, ReceiptBacked, TokenFor, VerifyTokenForMeter,
      HistoryOk, FieldsOk, Local;
    var token := TokenFor(env, st.runs[id].record.debit.value);
    var signed := Transition(st.runs[id].record.(token := Some(token), signerSet := signerSet), Signed);
    assert RunOk(env, st, id, st.runs[id]);
    UnfinishedReplaceable(env, st, id, st.runs[id]);
    SignedIsLocal(env, st.runs[id], signerSet);
    TokenStillAccepted(env, st, id);
    LocalKeeps(env, st, id, PipelineRun(signed, ReceiptReply(None)));
  }

  // ---- replies ---------------------------------------------------------------------------

  lemma DebitKeeps(env: Env, st: State, id: Text, answer: BankAnswer)
    requires Invariant(env, st) && id in st.runs && st.runs[id].at.DebitReply?
    requires RunAllows(env, st, st.runs[id], DebitReplied(id, answer))
    ensures Invariant(env, OnDebit(env, st, id, st.runs[id].record, answer))
  {
    hide Invariant, BankConfirmed;
    RequestOf(env, st, id);
    if answer.Answered? && VerifyBankSignature(answer.debit, env.bankKey) && answer.debit.payload.requestId == id {
      ClaimKeeps(env, st, id, answer.debit);
    } else {
      RejectKeeps(env, st, id);
    }
  }

  lemma RequestOf(env: Env, st: State, id: Text)
    requires Invariant(env, st) && id in st.runs
    ensures st.runs[id].record.request.requestId == id
  {
    hide SharedOk, BankOk, OrderOk, HistoryOk, FieldsOk, CeremonyOk, DebitBacked, ReversalBacked, ReceiptBacked;
    assert RunOk(env, st, id, st.runs[id]);
  }

  lemma FirstCeremony(env: Env, online: seq<SignerInfo>)
    requires DistinctSigners(online) && |online| >= env.threshold
    ensures CeremonyOk(env, CeremonyReply(online, {}, 1))
  {
    hide DistinctSigners;
    FullPool(online);
  }

  lemma RefusalShrinks(env: Env, at: Await, who: SignerId)
    requires CeremonyOk(env, at) && at.CeremonyReply? && who in SignerIds(Chosen(at.online, at.refused, env.threshold))
    ensures |Pool(at.online, at.refused + {who})| == |Pool(at.online, at.refused)| - 1
    ensures |Pool(at.online, at.refused + {who})| >= env.threshold ==>
              CeremonyOk(env, CeremonyReply(at.online, at.refused + {who}, at.ceremonies + 1))
  {
    hide DistinctSigners;
    var chosen := Chosen(at.online, at.refused, env.threshold);
    var k :| 0 <= k < |chosen| && SignerIds(chosen)[k] == who;
    assert chosen[k] in chosen;
    PoolShrinks(at.online, at.refused, chosen[k]);
  }

  lemma ChosenDistinct(env: Env, at: Await)
    requires at.CeremonyReply? && CeremonyOk(env, at)
    ensures |SignerIds(Chosen(at.online, at.refused, env.threshold))| == env.threshold
    ensures Distinct(SignerIds(Chosen(at.online, at.refused, env.threshold)))
  {
    PoolDistinct(at.online, at.refused);
  }

  lemma CeremonyHolds(env: Env, st: State, id: Text)
    requires Invariant(env, st) && id in st.runs
    ensures CeremonyOk(env, st.runs[id].at)
  {
    hide SharedOk, BankOk, OrderOk, HistoryOk, FieldsOk, CeremonyOk, DebitBacked, ReversalBacked, ReceiptBacked;
    assert RunOk(env, st, id, st.runs[id]);
  }

  /** What the loop's code relies on: a signed token names the chosen members, a
      refusal one of them. */
  ghost predicate OutcomeFits(env: Env, at: Await, outcome: CeremonyOutcome)
    requires at.CeremonyReply? && |Pool(at.online, at.refused)| >= env.threshold
  {
    && (outcome.TokenSigned? ==> outcome.signerSet == SignerIds(Chosen(at.online, at.refused, env.threshold)))
    && (outcome.Refused? ==> outcome.refuser in SignerIds(Chosen(at.online, at.refused, env.threshold)))
  }

  lemma OutcomesFit(env: Env, r: Record, at: Await, replies: Replies)
    requires at.CeremonyReply? && |Pool(at.online, at.refused)| >= env.threshold && r.debit.Some?
    requires Shaped(env, replies)
    ensures OutcomeFits(env, at, OutcomeOf(env, r, at, replies))
  {
    hide TokenMessage, CeremonyOf, Pool, SignerIds, CeremonyResult;
    var chosen := Chosen(at.online, at.refused, env.threshold);
    OutcomeNamesChosen(env.suite, env.group, chosen, replies, TokenMessage(env, r.debit.value));
  }

  lemma SignedKeeps(env: Env, st: State, id: Text, replies: Replies, outcome: CeremonyOutcome)
    requires Invariant(env, st) && id in st.runs && st.runs[id].at.CeremonyReply? && Ready(env, st.runs[id])
    requires outcome.TokenSigned? && OutcomeFits(env, st.runs[id].at, outcome)
    ensures Invariant(env, OnOutcome(env, st, id, st.runs[id].record, st.runs[id].at, replies, outcome))
  {
    hide Invariant, TokenFor, CeremonyOk, VerifyTokenForMeter, Chosen, Pool, SignerIds;
    var at := st.runs[id].at;
    var ceremony := SignedCeremony(Chosen(at.online, at.refused, env.threshold), replies, outcome.signature);
    var st1 := NoteCeremony(st, id, ceremony);
    ObservedKeeps(env, st, st1);
    CeremonyHolds(env, st, id);
    ChosenDistinct(env, at);
    SignKeeps(env, st1, id, outcome.signerSet);
  }

  lemma OutcomeKeeps(env: Env, st: State, id: Text, replies: Replies, outcome: CeremonyOutcome)
    requires Invariant(env, st) && id in st.runs && st.runs[id].at.CeremonyReply? && Ready(env, st.runs[id])
    requires OutcomeFits(env, st.runs[id].at, outcome)
    ensures Invariant(env, OnOutcome(env, st, id, st.runs[id].record, st.runs[id].at, replies, outcome))
  {
    hide Invariant, TokenFor, CeremonyOk, OnSigned;
    var at := st.runs[id].at;
    match outcome
    case TokenSigned(_, _) => SignedKeeps(env, st, id, replies, outcome);
    case Refused(who) =>
      CeremonyHolds(env, st, id);
      RefusalShrinks(env, at, who);
      if |Pool(at.online, at.refused + {who})| < env.threshold {
        AbandonCommitted(env, st, id);
      } else {
        WaitKeeps(env, st, id, CeremonyReply(at.online, at.refused + {who}, at.ceremonies + 1));
      }
    case _ => AbandonCommitted(env, st, id);
  }

  lemma CeremonyKeeps(env: Env, st: State, id: Text, replies: Replies)
    requires Invariant(env, st) && id in st.runs && st.runs[id].at.CeremonyReply? && Ready(env, st.runs[id])
    requires Shaped(env, replies)
    ensures Invariant(env, OnCeremony(env, st, id, st.runs[id].record, st.runs[id].at, replies))
  {
    hide Invariant, OnOutcome, OutcomeOf, OutcomeFits;
    OutcomesFit(env, st.runs[id].record, st.runs[id].at, replies);
    OutcomeKeeps(env, st, id, replies, OutcomeOf(env, st.runs[id].record, st.runs[id].at, replies));
  }

  /** Only the ledger, the answers and the ceremonies differ. */
  predicate ObservesOnly(st: State, st': State) {
    && st' == st.(outside := st'.outside, observed := st'.observed)
    && st'.outside.bank == st.outside.bank && st'.outside.receipts == st.outside.receipts
    && st'.observed.reverseAsked == st.observed.reverseAsked
  }

  /** What is only observed changes nothing else. */
  lemma ObservedKeeps(env: Env, st: State, st': State)
    requires Invariant(env, st) && ObservesOnly(st, st')
    ensures Invariant(env, st')
  {
    hide RunOk, SharedOk, BankOk, OrderOk, Extends;
    SameLogExtends(st.outside.bank.log);
    ObservedShared(env, st, st');
    assert BankOk(env, st'.outside.bank);
    forall id | id in st'.runs
      ensures RunOk(env, st', id, st'.runs[id])
    {
      RunStays(env, st, st', id, st.runs[id]);
    }
  }

  lemma ObservedShared(env: Env, st: State, st': State)
    requires SharedOk(env, st) && OrderOk(st) && ObservesOnly(st, st')
    ensures SharedOk(env, st') && OrderOk(st')
  {
    hide DeriveTokenNonce, Distinct, MeterInvariant;
    assert ClaimsOk(st') && MeterOk(env, st') && DispensedOk(st') && AskedOk(st') && AuditOk(st');
  }

  lemma ReceiptKeeps(env: Env, st: State, id: Text, ok: bool)
    requires Invariant(env, st) && id in st.runs && st.runs[id].at.ReceiptReply? && Ready(env, st.runs[id])
    ensures Invariant(env, OnReceipt(env, st, id, st.runs[id].record, st.runs[id].at.submitted, ok))
  {
    hide Invariant, DeliverToken, Receipt;
    if ok && st.runs[id].at.submitted.Some? {
      ReceiptDelivers(env, st, id);
      DeliverKeeps(env, st, id);
    } else {
      AbandonCommitted(env, st, id);
    }
  }

  lemma BackstopKeeps(env: Env, st: State, id: Text)
    requires Invariant(env, st) && id in st.runs && !st.runs[id].at.Finished?
    ensures Invariant(env, Backstop(st, id, st.runs[id]))
  {
    hide Invariant;
    RunIsReady(env, st, id);
    if st.runs[id].at.ReversalReply? {
      FinishAbandonKeeps(env, st, id, false);
    } else if st.runs[id].record.debit.Some? {
      AbandonCommitted(env, st, id);
    } else {
      RejectKeeps(env, st, id);
    }
  }

  lemma ResumeKeeps(env: Env, st: State, id: Text, ev: PipelineEvent)
    requires Invariant(env, st) && id in st.runs && Answers(env, ev, st.runs[id].at) && Ready(env, st.runs[id])
    requires RunAllows(env, st, st.runs[id], ev)
    ensures Invariant(env, Resume(env, st, id, st.runs[id], ev))
  {
    hide Invariant, OnDebit, OnCeremony, OnReceipt, OnRead, Abandon, Backstop, RejectRun, Put, CeremonyOk,
      DistinctSigners, CountSeen;
    match ev
    case PreflightPolled(_, online) =>
      EmptyCeremony(env, DebitReply);
      if |online| < env.threshold {
        RejectKeeps(env, st, id);
      } else {
        WaitKeeps(env, st, id, DebitReply);
      }
    case DebitReplied(_, answer) =>
      DebitKeeps(env, st, id, answer);
      HeardKeeps(env, OnDebit(env, st, id, st.runs[id].record, answer), id, answer);
    case PublishReplied(_, tx) =>
      if tx.Some? {
        PublishKeeps(env, st, id, tx.value);
      } else {
        AbandonCommitted(env, st, id);
      }
    case ApproversPolled(_, online) =>
      EmptyCeremony(env, ApprovalsRead);
      if |online| < env.threshold {
        AbandonCommitted(env, st, id);
      } else {
        WaitKeeps(env, st, id, ApprovalsRead);
      }
    case ApprovalsCounted(_, asOf) => ReadKeeps(env, st, id, asOf);
    case SignersPolled(_, online) =>
      if |online| < env.threshold {
        AbandonCommitted(env, st, id);
      } else {
        FirstCeremony(env, online);
        WaitKeeps(env, st, id, CeremonyReply(online, {}, 1));
      }
    case CeremonyEnded(_, replies) => CeremonyKeeps(env, st, id, replies);
    case ReceiptReplied(_, ok) => ReceiptKeeps(env, st, id, ok);
    case ReversalReplied(_, ok) => FinishAbandonKeeps(env, st, id, ok);
    case _ => ThrowKeeps(env, st, id);
  }

  lemma ThrowKeeps(env: Env, st: State, id: Text)
    requires Invariant(env, st) && id in st.runs && !st.runs[id].at.Finished?
    ensures Invariant(env, Backstop(st, id, st.runs[id]))
    ensures Invariant(env, Heard(Backstop(st, id, st.runs[id]), id, NoReply))
  {
    hide Invariant, Backstop, Heard;
    BackstopKeeps(env, st, id);
    HeardKeeps(env, Backstop(st, id, st.runs[id]), id, NoReply);
  }

  lemma HeardKeeps(env: Env, st: State, id: Text, answer: BankAnswer)
    requires Invariant(env, st)
    ensures Invariant(env, Heard(st, id, answer))
  {
    hide Invariant;
    ObservedKeeps(env, st, Heard(st, id, answer));
  }

  lemma EmptyCeremony(env: Env, at: Await)
    requires !at.CeremonyReply?
    ensures CeremonyOk(env, at)
  {
  }

  // ---- new requests and the bank -----------------------------------------------------------

  lemma CreateKeeps(env: Env, st: State, request: Request, merchantOk: bool)
    requires Invariant(env, st) && request.requestId !in st.runs
    ensures Invariant(env, OnCreated(st, request, merchantOk))
  {
    hide BankOk, SharedOk, OrderOk, Extends, TokenFor, BankConfirmed;
    var st' := OnCreated(st, request, merchantOk);
    SameLogExtends(st.outside.bank.log);
    assert RunOk(env, st', request.requestId, st'.runs[request.requestId]);
    CreateKeepsShared(env, st, request, merchantOk);
    CreateKeepsOrder(st, request, merchantOk);
    OthersStay(env, st, st', request.requestId);
  }

  lemma CreateKeepsShared(env: Env, st: State, request: Request, merchantOk: bool)
    requires SharedOk(env, st) && request.requestId !in st.runs
    ensures SharedOk(env, OnCreated(st, request, merchantOk))
  {
    hide DeriveTokenNonce, Retain;
    var st' := OnCreated(st, request, merchantOk);
    assert ClaimsOk(st') && MeterOk(env, st') && DispensedOk(st');
    assert AskedOk(st') && AuditOk(st');
  }

  lemma CreateKeepsOrder(st: State, request: Request, merchantOk: bool)
    requires OrderOk(st) && request.requestId !in st.runs
    ensures OrderOk(OnCreated(st, request, merchantOk))
  {
    var order := [request.requestId] + st.order;
    assert Distinct(order);
    assert Retain(st.order, request.requestId) == if |order| > REQUEST_CAP then order[..REQUEST_CAP] else order;
  }

  lemma DebitKeepsNonces(env: Env, bank: BankState, ev: BankEvent)
    requires NoncesDistinct(env, bank.log) && (ev.Debited? ==> FreshNonce(env, bank, ev.debitRef))
    ensures NoncesDistinct(env, Bank.Apply(env.bankKey, bank, ev).log)
  {
    hide NoncesApart;
  }

  lemma BankKeepsInvariant(env: Env, bank: BankState, ev: BankEvent)
    requires BankOk(env, bank) && (ev.Debited? ==> FreshRef(bank, ev.debitRef) && FreshNonce(env, bank, ev.debitRef))
    ensures BankOk(env, Bank.Apply(env.bankKey, bank, ev))
  {
    hide BankInvariant, NoncesDistinct, FreshRef, FreshNonce;
    DebitKeepsNonces(env, bank, ev);
    match ev {
      case Debited(req, debitRef, at) => DebitKeepsInvariant(env.bankKey, bank, req, debitRef, at);
      case Reversed(debitRef) => ReverseKeepsInvariant(env.bankKey, bank, debitRef);
      case SetMode(mode) => ModeKeepsInvariant(env, bank, mode);
    }
  }

  lemma ModeKeepsInvariant(env: Env, bank: BankState, mode: Mode)
    requires BankInvariant(env.bankKey, bank)
    ensures BankInvariant(env.bankKey, bank.(mode := mode))
  {
  }

  lemma BankStepKeeps(env: Env, st: State, ev: BankEvent)
    requires Invariant(env, st)
    requires ev.Debited? ==> FreshRef(st.outside.bank, ev.debitRef) && FreshNonce(env, st.outside.bank, ev.debitRef)
    ensures Invariant(env, BankActs(env, st, ev))
  {
    hide BankOk, RunOk, SharedOk, OrderOk, Extends, FreshRef, FreshNonce;
    var st' := BankActs(env, st, ev);
    BankKeepsInvariant(env, st.outside.bank, ev);
    BankExtends(env.bankKey, st.outside.bank, ev);
    ReversalsGrow(env.bankKey, st.outside.bank, ev);
    BankShared(env, st, st');
    forall id | id in st.runs
      ensures RunOk(env, st', id, st.runs[id])
    {
      RunStays(env, st, st', id, st.runs[id]);
    }
  }

  lemma ReversalsGrow(bankKey: Text, bank: BankState, ev: BankEvent)
    ensures forall ref :: ref in bank.reversals ==> ref in Bank.Apply(bankKey, bank, ev).reversals
  {
  }

  lemma BankShared(env: Env, st: State, st': State)
    requires SharedOk(env, st) && OrderOk(st) && st' == st.(outside := st.outside.(bank := st'.outside.bank))
    ensures SharedOk(env, st') && OrderOk(st')
  {
    hide DeriveTokenNonce, Distinct, MeterInvariant;
    assert ClaimsOk(st') && MeterOk(env, st') && DispensedOk(st') && AskedOk(st') && AuditOk(st');
  }

  // ---- every event, every run ------------------------------------------------------------------

  lemma RequestKeeps(env: Env, st: State, request: Request, admitted: bool, merchantOk: bool)
    requires Invariant(env, st) && (request.requestId in st.runs ==> request.requestId in st.order)
    ensures Invariant(env, OnRequested(st, request, admitted, merchantOk))
  {
    hide Invariant, OnCreated;
    if request.requestId !in st.order && admitted {
      CreateKeeps(env, st, request, merchantOk);
    }
  }

  lemma RunStepKeeps(env: Env, st: State, ev: PipelineEvent)
    requires Invariant(env, st) && Allows(env, st, ev) && AtRun(ev) && ev.id in st.runs
    ensures Invariant(env, StepRun(env, st, ev.id, st.runs[ev.id], ev))
  {
    hide Invariant, RunAllows, Resume, OnSubmitted, Ready, FreshRef, FreshNonce, Answers;
    if ev.ReceiptSubmitted? {
      SubmittedFresh(env, st, ev);
      if st.runs[ev.id].at == ReceiptReply(None) {
        SubmitKeeps(env, st, ev.id, ev.txHash);
      } else {
        LateReceiptKeeps(env, st, ev.id, ev.txHash);
      }
    } else if Answers(env, ev, st.runs[ev.id].at) && Ready(env, st.runs[ev.id]) {
      ResumeKeeps(env, st, ev.id, ev);
    }
  }

  lemma StepKeeps(env: Env, st: State, ev: PipelineEvent)
    requires Invariant(env, st) && Allows(env, st, ev)
    ensures Invariant(env, Step(env, st, ev))
  {
    hide Invariant, RunAllows, StepRun, OnRequested, FreshRef, FreshNonce, Bank.Apply, DebitCall;
    if ev.AtBank? {
      BankStepKeeps(env, st, ev.bankEvent);
    } else if ev.Posted? {
      ObservedKeeps(env, st, Step(env, st, ev));
    } else if ev.Requested? {
      RequestKeeps(env, st, ev.request, ev.admitted, ev.merchantOk);
    } else if ev.id in st.runs {
      if ev.DebitHandled? {
        BankStepKeeps(env, st, Debited(DebitCall(env, st.runs[ev.id].record.request), ev.debitRef, ev.confirmedAt));
      } else {
        RunStepKeeps(env, st, ev);
      }
    }
  }

  lemma SubmittedFresh(env: Env, st: State, ev: PipelineEvent)
    requires ev.ReceiptSubmitted? && ev.id in st.runs && Allows(env, st, ev)
    ensures ev.txHash !in st.outside.receipts
  {
  }

  lemma IdleInvariant(env: Env)
    ensures Invariant(env, IDLE)
  {
  }

  lemma {:induction false} ProceedKeeps(env: Env, st: State, evs: seq<PipelineEvent>)
    requires Invariant(env, st) && AllAllow(env, st, evs)
    ensures Invariant(env, Proceed(env, st, evs))
    decreases |evs|
  {
    hide Invariant, Allows, Step;
    if evs != [] {
      StepKeeps(env, st, evs[0]);
      ProceedKeeps(env, Step(env, st, evs[0]), evs[1..]);
    }
  }
}
