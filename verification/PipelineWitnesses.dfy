/** Runs that show what can happen: a token delivered from any confirmed debit, a
    debit taken for a rejected request, and a delivered debit reversed by a second
    run of its request. */
module PipelineWitnesses {
  import opened Approvals
  import opened Bank
  import opened Canonical
  import opened Ceremony
  import opened Meter
  import opened Pipeline
  import opened PipelineEvidence
  import opened PipelineInvariant
  import opened PipelineReceipts
  import opened PipelineRuns
  import opened PipelineTheorems
  import opened Types
  import opened Verify
  import opened Wrappers

  lemma {:induction false} ProceedAppend(env: Env, st: State, a: seq<PipelineEvent>, b: seq<PipelineEvent>)
    ensures Proceed(env, st, a + b) == Proceed(env, Proceed(env, st, a), b)
    ensures AllAllow(env, st, a + b) <==> AllAllow(env, st, a) && AllAllow(env, Proceed(env, st, a), b)
    decreases |a|
  {
    hide Step, Allows;
    if a == [] {
      assert a + b == b;
    } else {
      assert (a + b)[1..] == a[1..] + b;
      ProceedAppend(env, Step(env, st, a[0]), a[1..], b);
    }
  }

  lemma ProceedOne(env: Env, st: State, ev: PipelineEvent)
    ensures Proceed(env, st, [ev]) == Step(env, st, ev)
    ensures AllAllow(env, st, [ev]) <==> Allows(env, st, ev)
  {
    hide Step, Allows;
    assert [ev][1..] == [];
    assert Proceed(env, Step(env, st, ev), []) == Step(env, st, ev);
    assert AllAllow(env, Step(env, st, ev), []);
  }

  /** One more step. */
  lemma ProceedStep(env: Env, st: State, evs: seq<PipelineEvent>, ev: PipelineEvent)
    ensures Proceed(env, st, evs + [ev]) == Step(env, Proceed(env, st, evs), ev)
    ensures AllAllow(env, st, evs + [ev]) <==> AllAllow(env, st, evs) && Allows(env, Proceed(env, st, evs), ev)
  {
    hide Step, Allows, Proceed, AllAllow;
    ProceedAppend(env, st, evs, [ev]);
    ProceedOne(env, Proceed(env, st, evs), ev);
  }

  /** A reachable state goes on to a reachable state. */
  lemma ReachableStep(env: Env, evs: seq<PipelineEvent>, st: State, ev: PipelineEvent)
    requires Reachable(env, evs, st) && Allows(env, st, ev)
    ensures Reachable(env, evs + [ev], Step(env, st, ev))
  {
    hide Step, Allows, Proceed, AllAllow;
    ProceedStep(env, IDLE, evs, ev);
  }

  lemma ReachableOn(env: Env, evs: seq<PipelineEvent>, st: State, more: seq<PipelineEvent>)
    requires Reachable(env, evs, st) && AllAllow(env, st, more)
    ensures Reachable(env, evs + more, Proceed(env, st, more))
  {
    hide AllAllow, Proceed;
    ProceedAppend(env, IDLE, evs, more);
  }

  // ---- a debit taken for a rejected request -----------------------------------------------

  /** The bank takes a run's debit and its reply is lost: whatever happened before,
      the request is REJECTED with a confirmed debit in the log that nobody asks
      to reverse. */
  lemma LostReplyRejects(env: Env, evs: seq<PipelineEvent>, st: State, id: Text, debitRef: Text, at: Text)
    returns (evs': seq<PipelineEvent>, st': State)
    requires Reachable(env, evs, st) && id in st.runs && st.runs[id].at.DebitReply?
    requires id != [] && st.runs[id].record.request.meterId != [] && st.outside.bank.mode == Confirm
    requires FindRequest(st.outside.bank.log, id).None?
    requires FreshRef(st.outside.bank, debitRef) && FreshNonce(env, st.outside.bank, debitRef)
    ensures evs' == evs + [DebitHandled(id, debitRef, at)] + [DebitReplied(id, NoReply)] && Reachable(env, evs', st')
    ensures id in st'.runs && st'.runs[id].record.status == Rejected
    ensures exists e :: e in st'.outside.bank.log && ConfirmedFor(e, id)
    ensures var k, request := |st.outside.bank.log|, st.runs[id].record.request;
            && |st'.outside.bank.log| == k + 1 && !st'.outside.bank.log[k].reversed
            && var p := st'.outside.bank.log[k].debit.payload;
            && p.debitRef == debitRef && p.requestId == id && p.meterId == request.meterId
            && p.amountKwh == request.amountKwh && p.amount == env.price(request.amountKwh)
            && p.currency == env.currency
    ensures st'.observed.reverseAsked == st.observed.reverseAsked
  {
    hide Reachable, Invariant, FreshRef, FreshNonce, FindRequest;
    ReachableInvariant(env, evs, st);
    RequestOf(env, st, id);
    var handled, lost := DebitHandled(id, debitRef, at), DebitReplied(id, NoReply);
    ReachableStep(env, evs, st, handled);
    var st1 := Step(env, st, handled);
    HandledIsLogged(env, st, id, debitRef, at);
    ReachableStep(env, evs + [handled], st1, lost);
    evs' := evs + [handled] + [lost];
    st' := Step(env, st1, lost);
  }

  /** The bank confirms the run's own call with exactly the request's fields. */
  lemma HandledIsLogged(env: Env, st: State, id: Text, debitRef: Text, at: Text)
    requires id in st.runs && id != [] && st.runs[id].record.request.requestId == id
    requires st.runs[id].record.request.meterId != []
    requires st.outside.bank.mode == Confirm && FindRequest(st.outside.bank.log, id).None?
    ensures var st' := Step(env, st, DebitHandled(id, debitRef, at));
            var entry := NewEntry(env.bankKey, Confirm, DebitCall(env, st.runs[id].record.request), debitRef, at);
            && st'.runs == st.runs && st'.observed == st.observed
            && st'.outside.bank.log == st.outside.bank.log + [entry] && ConfirmedFor(entry, id)
            && entry in st'.outside.bank.log
  {
    hide FindRequest;
    var entry := NewEntry(env.bankKey, Confirm, DebitCall(env, st.runs[id].record.request), debitRef, at);
    assert (st.outside.bank.log + [entry])[|st.outside.bank.log|] == entry;
  }

  const REQUEST := Request([1], [2], 1, [3], [4])

  const REFERENCE: Text := [5]

  /** Members online: as many as asked for, among the three. */
  const ONLINE: seq<SignerInfo> := [SignerInfo(Utility, 1), SignerInfo(CityA, 2), SignerInfo(CityB, 3)]

  function AfterPreflight(): State {
    IDLE.(runs := map[[1] := PipelineRun(NewRecord(REQUEST), DebitReply)], order := [[1]])
  }

  lemma PreflightReachable(env: Env) returns (evs: seq<PipelineEvent>)
    requires env.threshold <= 3
    ensures Reachable(env, evs, AfterPreflight())
  {
    var asked := Requested(REQUEST, true, true);
    var st := Step(env, IDLE, asked);
    assert [REQUEST.requestId] + [] == [[1]];
    assert st == IDLE.(runs := map[[1] := PipelineRun(NewRecord(REQUEST), PreflightPoll)], order := [[1]]);
    assert Reachable(env, [], IDLE);
    ReachableStep(env, [], IDLE, asked);
    ReachableStep(env, [] + [asked], st, PreflightPolled([1], ONLINE));
    assert Step(env, st, PreflightPolled([1], ONLINE)) == AfterPreflight();
    evs := [] + [asked] + [PreflightPolled([1], ONLINE)];
  }

  /** REJECTED with a debit taken is reachable, in the first run already. */
  lemma RejectedWithDebit(env: Env) returns (evs: seq<PipelineEvent>, st: State)
    requires env.threshold <= 3
    ensures Reachable(env, evs, st) && [1] in st.runs && st.runs[[1]].record.status == Rejected
    ensures exists e :: e in st.outside.bank.log && ConfirmedFor(e, [1])
  {
    hide Reachable;
    evs := PreflightReachable(env);
    evs, st := LostReplyRejects(env, evs, AfterPreflight(), [1], REFERENCE, []);
  }

  // ---- from the debit to the ceremony -----------------------------------------------------

  /** The five replies after a confirmed debit, when nothing fails. */
  function SmoothReplies(id: Text, online: seq<SignerInfo>, asOf: nat, replies: Replies): seq<PipelineEvent> {
    [PublishReplied(id, Some([9])), ApproversPolled(id, online), ApprovalsCounted(id, asOf), SignersPolled(id, online),
     CeremonyEnded(id, replies)]
  }

  /** Nothing but run id's entry differs. */
  ghost predicate SameBut(st: State, st': State, id: Text) {
    id in st'.runs && st' == st.(runs := st'.runs) && OnlyRun(st, st', id)
  }

  /** What a smooth reply leaves of a run. */
  ghost predicate Smooth(st: State, st': State, id: Text) {
    && SameBut(st, st', id) && id in st.runs
    && st'.runs[id].record.debit == st.runs[id].record.debit
    && st'.runs[id].record.request == st.runs[id].record.request
  }

  /** A read at this point answers and finds a quorum. */
  predicate FindsQuorum(env: Env, ledger: seq<Tx>, asOf: nat, request: Request) {
    !ReadThrows(Seen(ledger, asOf), env.members) && CountSeen(env, ledger, asOf, request) >= env.quorum
  }

  lemma SmoothPublication(env: Env, st: State, id: Text, online: seq<SignerInfo>) returns (st': State)
    requires id in st.runs && st.runs[id].at.PublishReply? && |online| >= env.threshold && DistinctSigners(online)
    ensures var st1 := Step(env, st, PublishReplied(id, Some([9])));
            && Allows(env, st, PublishReplied(id, Some([9]))) && Allows(env, st1, ApproversPolled(id, online))
            && st' == Step(env, st1, ApproversPolled(id, online))
    ensures Smooth(st, st', id) && st'.runs[id].at == ApprovalsRead && st'.runs[id].record.status == Published
  {
    hide DistinctSigners, Abandon, HandleDebit;
    st' := Step(env, Step(env, st, PublishReplied(id, Some([9]))), ApproversPolled(id, online));
  }

  lemma SmoothPoll(env: Env, st: State, id: Text, online: seq<SignerInfo>, asOf: nat) returns (st': State)
    requires id in st.runs && st.runs[id].at.ApprovalsRead? && |online| >= env.threshold && DistinctSigners(online)
    requires FindsQuorum(env, st.outside.ledger, asOf, st.runs[id].record.request)
    ensures var st1 := Step(env, st, ApprovalsCounted(id, asOf));
            && Allows(env, st, ApprovalsCounted(id, asOf)) && Allows(env, st1, SignersPolled(id, online))
            && st' == Step(env, st1, SignersPolled(id, online))
    ensures Smooth(st, st', id) && st'.runs[id].at == CeremonyReply(online, {}, 1)
  {
    hide DistinctSigners, Abandon, HandleDebit, CountSeen, ReadThrows, Seen;
    st' := Step(env, Step(env, st, ApprovalsCounted(id, asOf)), SignersPolled(id, online));
  }

  lemma SmoothApproval(env: Env, st: State, id: Text, online: seq<SignerInfo>, asOf: nat,
                       replies: Replies) returns (st': State)
    requires id in st.runs && st.runs[id].at.PublishReply? && |online| >= env.threshold && DistinctSigners(online)
    requires FindsQuorum(env, st.outside.ledger, asOf, st.runs[id].record.request)
    ensures var evs := SmoothReplies(id, online, asOf, replies)[..4];
            st' == Proceed(env, st, evs) && AllAllow(env, st, evs)
    ensures Smooth(st, st', id) && st'.runs[id].at == CeremonyReply(online, {}, 1)
  {
    hide DistinctSigners, Step, Allows, FindsQuorum;
    var evs := SmoothReplies(id, online, asOf, replies);
    var st2 := SmoothPublication(env, st, id, online);
    st' := SmoothPoll(env, st2, id, online, asOf);
    assert evs[..4] == [evs[0], evs[1], evs[2]] + [evs[3]];
    ThreeThen(env, st, evs[0], evs[1], evs[2], [evs[3]]);
    ProceedOne(env, Step(env, st2, evs[2]), evs[3]);
    assert ([evs[0], evs[1], evs[2]] + [evs[3]])[1..] == [evs[1], evs[2]] + [evs[3]];
  }

  lemma ThreeThen(env: Env, st: State, a: PipelineEvent, b: PipelineEvent, c: PipelineEvent, rest: seq<PipelineEvent>)
    ensures Proceed(env, st, [a, b, c] + rest) == Proceed(env, Step(env, Step(env, Step(env, st, a), b), c), rest)
    ensures AllAllow(env, Step(env, st, a), [b, c] + rest) <==>
              && Allows(env, Step(env, st, a), b) && Allows(env, Step(env, Step(env, st, a), b), c)
              && AllAllow(env, Step(env, Step(env, Step(env, st, a), b), c), rest)
  {
    hide Step, Allows;
    var st1 := Step(env, st, a);
    var st2 := Step(env, st1, b);
    assert ([a, b, c] + rest)[1..] == [b, c] + rest;
    assert ([b, c] + rest)[1..] == [c] + rest;
    assert ([c] + rest)[1..] == rest;
    assert Proceed(env, st2, [c] + rest) == Proceed(env, Step(env, st2, c), rest);
    assert AllAllow(env, st2, [c] + rest) <==> Allows(env, st2, c) && AllAllow(env, Step(env, st2, c), rest);
    assert Proceed(env, st1, [b, c] + rest) == Proceed(env, st2, [c] + rest);
  }

  // ---- delivery --------------------------------------------------------------------------

  /** These replies of the first t members online sign the debit's token. */
  ghost predicate Sign(env: Env, online: seq<SignerInfo>, replies: Replies, debit: Debit) {
    && |online| >= env.threshold && Shaped(env, replies)
    && CeremonyOf(env.suite, env.group, online[..env.threshold], replies, TokenMessage(env, debit)).TokenSigned?
  }

  lemma FirstChosen(env: Env, online: seq<SignerInfo>)
    requires |online| >= env.threshold
    ensures Pool(online, {}) == online && Chosen(online, {}, env.threshold) == online[..env.threshold]
  {
    FullPool(online);
  }

  /** What a ceremony that signs does. */
  lemma SignStep(env: Env, st: State, id: Text, online: seq<SignerInfo>,
                 replies: Replies) returns (ceremony: SignedCeremony, signerSet: seq<SignerId>)
    requires id in st.runs && st.runs[id].at == CeremonyReply(online, {}, 1) && st.runs[id].record.debit.Some?
    requires Sign(env, online, replies, st.runs[id].record.debit.value)
    ensures Step(env, st, CeremonyEnded(id, replies)) ==
            OnSigned(env, NoteCeremony(st, id, ceremony), id, st.runs[id].record,
                     TokenFor(env, st.runs[id].record.debit.value), signerSet)
  {
    hide CeremonyOf, TokenMessage, TokenFor, OnSigned, Pool, NoteCeremony;
    FirstChosen(env, online);
    var outcome := CeremonyOf(env.suite, env.group, online[..env.threshold], replies,
                              TokenMessage(env, st.runs[id].record.debit.value));
    ceremony, signerSet := SignedCeremony(online[..env.threshold], replies, outcome.signature), outcome.signerSet;
  }

  /** A ceremony that signs brings a run whose token the meter accepts to the receipt. */
  lemma SignedStep(env: Env, st: State, id: Text, online: seq<SignerInfo>, replies: Replies)
    requires id in st.runs && st.runs[id].at == CeremonyReply(online, {}, 1) && st.runs[id].record.debit.Some?
    requires Sign(env, online, replies, st.runs[id].record.debit.value)
    requires VerifyTokenForMeter(env, st.meter, TokenFor(env, st.runs[id].record.debit.value)) == Accepted
    ensures var st' := Step(env, st, CeremonyEnded(id, replies));
            && id in st'.runs && st'.runs[id].at == ReceiptReply(None) && st'.outside == st.outside
  {
    hide Step, Sign, TokenFor, VerifyTokenForMeter, Transition;
    var ceremony, signerSet := SignStep(env, st, id, online, replies);
  }

  /** A receipt that is sent, reaches the ledger and is confirmed. */
  function ReceiptEvents(id: Text, txHash: Text): seq<PipelineEvent> {
    [ReceiptSubmitted(id, txHash), ReceiptReplied(id, true)]
  }

  lemma ReceiptToDelivery(env: Env, evs: seq<PipelineEvent>, st: State, id: Text, txHash: Text) returns (st': State)
    requires Reachable(env, evs, st) && id in st.runs && st.runs[id].at == ReceiptReply(None)
    requires txHash !in st.outside.receipts && forall tx :: tx in st.outside.receipts ==> st.outside.receipts[tx] != id
    ensures Reachable(env, evs + ReceiptEvents(id, txHash), st') && id in st'.runs
    ensures st'.runs[id].record.status == Delivered
  {
    hide Reachable, TokenFor, VerifyTokenForMeter, Step, Invariant;
    ReachableInvariant(env, evs, st);
    RunIsReady(env, st, id);
    var sent, replied := ReceiptSubmitted(id, txHash), ReceiptReplied(id, true);
    ReachableStep(env, evs, st, sent);
    var st2 := Step(env, st, sent);
    SubmittedStep(env, st, id, txHash);
    ReceiptThenDelivery(env, evs + [sent], st2, id);
    ReachableStep(env, evs + [sent], st2, replied);
    st' := Step(env, st2, replied);
    assert evs + ReceiptEvents(id, txHash) == evs + [sent] + [replied];
  }

  lemma SubmittedStep(env: Env, st: State, id: Text, txHash: Text)
    requires id in st.runs && st.runs[id].at == ReceiptReply(None)
    ensures var st' := Step(env, st, ReceiptSubmitted(id, txHash));
            id in st'.runs && st'.runs[id].at == ReceiptReply(Some(txHash))
  {
  }

  function PostEvents(txs: seq<Tx>): (evs: seq<PipelineEvent>)
    ensures |evs| == |txs| && forall i :: 0 <= i < |txs| ==> evs[i] == Posted(txs[i])
  {
    seq(|txs|, i requires 0 <= i < |txs| => Posted(txs[i]))
  }

  lemma {:induction false} PostAll(env: Env, st: State, txs: seq<Tx>)
    ensures AllAllow(env, st, PostEvents(txs))
    ensures Proceed(env, st, PostEvents(txs)) == st.(outside := st.outside.(ledger := st.outside.ledger + txs))
    decreases |txs|
  {
    hide Allows;
    if txs == [] {
      assert st.outside.ledger + txs == st.outside.ledger;
    } else {
      PostOne(env, st, txs[0]);
      var st1 := Step(env, st, Posted(txs[0]));
      PostAll(env, st1, txs[1..]);
      assert PostEvents(txs)[1..] == PostEvents(txs[1..]);
      assert st.outside.ledger + [txs[0]] + txs[1..] == st.outside.ledger + txs;
    }
  }

  lemma PostOne(env: Env, st: State, tx: Tx)
    ensures Allows(env, st, Posted(tx))
    ensures Step(env, st, Posted(tx)) == st.(outside := st.outside.(ledger := st.outside.ledger + [tx]))
  {
  }

  /** A ceremony of a run whose token the meter accepts, when the replies sign. */
  lemma CeremonyToReceipt(env: Env, evs: seq<PipelineEvent>, st: State, id: Text, online: seq<SignerInfo>,
                          replies: Replies)
    returns (st': State)
    requires Reachable(env, evs, st) && id in st.runs && st.runs[id].at == CeremonyReply(online, {}, 1)
    requires st.runs[id].record.debit.Some? && Sign(env, online, replies, st.runs[id].record.debit.value)
    ensures Allows(env, st, CeremonyEnded(id, replies)) && st' == Step(env, st, CeremonyEnded(id, replies))
    ensures id in st'.runs && st'.runs[id].at == ReceiptReply(None) && st'.outside == st.outside
  {
    hide Reachable, Sign, TokenFor, VerifyTokenForMeter, Step;
    ReceiptThenDelivery(env, evs, st, id);
    SignedStep(env, st, id, online, replies);
    st' := Step(env, st, CeremonyEnded(id, replies));
  }

  /** The posted approvals and the five replies, from a confirmed debit on. */
  function DeliveryEvents(env: Env, request: Request, accounts: seq<Text>, online: seq<SignerInfo>, asOf: nat,
                          replies: Replies)
    : seq<PipelineEvent>
  {
    PostEvents(ApprovalTxs(accounts, HashRequest(env, request)))
      + SmoothReplies(request.requestId, online, asOf, replies)
  }

  /** A run whose read of the approvals throws gives up, and further replies to the
      calls it never made change nothing. */
  lemma ThrowingReadAbandons(env: Env, st: State, id: Text, online: seq<SignerInfo>, asOf: nat,
                             replies: Replies) returns (st': State)
    requires id in st.runs && st.runs[id].at.PublishReply? && |online| >= env.threshold && DistinctSigners(online)
    requires st.runs[id].record.debit.Some? && Ref(st.runs[id].record) != []
    requires ReadThrows(Seen(st.outside.ledger, asOf), env.members)
    ensures st' == Proceed(env, st, SmoothReplies(id, online, asOf, replies))
    ensures AllAllow(env, st, SmoothReplies(id, online, asOf, replies))
    ensures id in st'.runs && st'.runs[id].at.ReversalReply?
  {
    hide DistinctSigners, Step, Allows, ReadThrows, Seen;
    var evs := SmoothReplies(id, online, asOf, replies);
    var st2 := SmoothPublication(env, st, id, online);
    ThrowingRead(env, st2, id, asOf);
    var st3 := Step(env, st2, evs[2]);
    UnansweredSteps(env, st3, id, online, replies);
    st' := st3;
    assert evs == [evs[0], evs[1], evs[2]] + [evs[3], evs[4]];
    ThreeThen(env, st, evs[0], evs[1], evs[2], [evs[3], evs[4]]);
    assert [evs[3], evs[4]][1..] == [evs[4]];
    ProceedOne(env, st3, evs[4]);
    assert Proceed(env, st3, [evs[3], evs[4]]) == Proceed(env, Step(env, st3, evs[3]), [evs[4]]);
    assert evs[1..] == [evs[1], evs[2]] + [evs[3], evs[4]];
  }

  lemma ThrowingRead(env: Env, st: State, id: Text, asOf: nat)
    requires id in st.runs && st.runs[id].at.ApprovalsRead? && !Terminal(st.runs[id].record.status)
    requires st.runs[id].record.debit.Some? && Ref(st.runs[id].record) != []
    requires ReadThrows(Seen(st.outside.ledger, asOf), env.members)
    ensures var st' := Step(env, st, ApprovalsCounted(id, asOf)); id in st'.runs && st'.runs[id].at.ReversalReply?
    ensures Allows(env, st, ApprovalsCounted(id, asOf))
  {
    hide ReadThrows, Seen, CountSeen;
  }

  lemma UnansweredSteps(env: Env, st: State, id: Text, online: seq<SignerInfo>, replies: Replies)
    requires id in st.runs && st.runs[id].at.ReversalReply? && DistinctSigners(online)
    ensures Step(env, st, SignersPolled(id, online)) == st && Allows(env, st, SignersPolled(id, online))
    ensures Step(env, st, CeremonyEnded(id, replies)) == st && Allows(env, st, CeremonyEnded(id, replies))
  {
    hide Resume, Pool;
  }

  /** From any reachable state with a confirmed debit, a quorum of members posts
      approvals, as many members as needed are online and their replies sign: the
      read of the approvals answers, and the token is delivered with its receipt, if
      and only if none of the other transactions in its window is a member's with a
      null approval. Otherwise the run gives up. */
  lemma DebitToDelivery(env: Env, evs: seq<PipelineEvent>, st: State, id: Text, accounts: seq<Text>,
                        online: seq<SignerInfo>, replies: Replies, txHash: Text) returns (st': State)
    requires Reachable(env, evs, st) && id in st.runs && st.runs[id].at.PublishReply? && st.runs[id].record.debit.Some?
    requires Accounts(accounts, env.members) && env.quorum <= |accounts| <= SCAN_LIMIT
    requires DistinctSigners(online) && Sign(env, online, replies, st.runs[id].record.debit.value)
    requires txHash !in st.outside.receipts
    ensures var again := DeliveryEvents(env, st.runs[id].record.request, accounts, online,
                                        |st.outside.ledger| + |accounts|, replies);
            if ReadThrows(Recent(st.outside.ledger, SCAN_LIMIT - |accounts|), env.members) then
              Reachable(env, evs + again, st') && id in st'.runs && st'.runs[id].at.ReversalReply?
            else
              && Reachable(env, evs + again + ReceiptEvents(id, txHash), st')
              && id in st'.runs && st'.runs[id].record.status == Delivered
  {
    hide Reachable, DistinctSigners, Accounts, Sign, Recent, ReadThrows, HashRequest, Invariant, Proceed, AllAllow,
      FindsQuorum, Seen;
    OnlineEnough(env, online, replies, st.runs[id].record.debit.value);
    var request := st.runs[id].record.request;
    var txs, asOf := ApprovalTxs(accounts, HashRequest(env, request)), |st.outside.ledger| + |accounts|;
    var st1 := st.(outside := st.outside.(ledger := st.outside.ledger + txs));
    var smooth := SmoothReplies(id, online, asOf, replies);
    PostAll(env, st, txs);
    ReachableOn(env, evs, st, PostEvents(txs));
    var evs1 := evs + PostEvents(txs);
    ReachableInvariant(env, evs, st);
    PublishingRun(env, st, id);
    NoReceiptYet(env, evs, st, id);
    PostedQuorum(env, st.outside.ledger, accounts, request);
    assert evs + DeliveryEvents(env, request, accounts, online, asOf, replies) == evs1 + smooth;
    if ReadThrows(Recent(st.outside.ledger, SCAN_LIMIT - |accounts|), env.members) {
      st' := ThrowingReadAbandons(env, st1, id, online, asOf, replies);
      ReachableOn(env, evs1, st1, smooth);
    } else {
      var st4 := SmoothApproval(env, st1, id, online, asOf, replies);
      ReachableOn(env, evs1, st1, smooth[..4]);
      var st5 := CeremonyToReceipt(env, evs1 + smooth[..4], st4, id, online, replies);
      ReachableStep(env, evs1 + smooth[..4], st4, CeremonyEnded(id, replies));
      SmoothTail(id, online, asOf, replies);
      assert evs1 + smooth == evs1 + smooth[..4] + [CeremonyEnded(id, replies)];
      st' := ReceiptToDelivery(env, evs1 + smooth, st5, id, txHash);
    }
  }

  lemma OnlineEnough(env: Env, online: seq<SignerInfo>, replies: Replies, debit: Debit)
    requires Sign(env, online, replies, debit)
    ensures |online| >= env.threshold
  {
  }

  /** After the approvals are posted, the newest read finds a quorum or throws. */
  lemma PostedQuorum(env: Env, ledger: seq<Tx>, accounts: seq<Text>, request: Request)
    requires Accounts(accounts, env.members) && env.quorum <= |accounts| <= SCAN_LIMIT
    ensures var txs := ledger + ApprovalTxs(accounts, HashRequest(env, request));
            && (ReadThrows(Seen(txs, |ledger| + |accounts|), env.members) <==>
                ReadThrows(Recent(ledger, SCAN_LIMIT - |accounts|), env.members))
            && (!ReadThrows(Recent(ledger, SCAN_LIMIT - |accounts|), env.members) ==>
                  FindsQuorum(env, txs, |ledger| + |accounts|, request))
  {
    hide Accounts, ReadThrows, Window, Recent, HashRequest;
    PostedApprovalsCount(ledger, accounts, env.members, HashRequest(env, request));
  }

  lemma PublishingRun(env: Env, st: State, id: Text)
    requires Invariant(env, st) && id in st.runs && st.runs[id].at.PublishReply? && st.runs[id].record.debit.Some?
    ensures st.runs[id].record.request.requestId == id && Ref(st.runs[id].record) != []
  {
    hide SharedOk, BankOk, OrderOk, FieldsOk, CeremonyOk, ReversalBacked, ReceiptBacked, BankConfirmed;
    assert RunOk(env, st, id, st.runs[id]);
  }

  // ---- a request id that runs twice ------------------------------------------------------------

  /** Asked again for a delivered request, the route changes nothing if and only if
      the id is still retained. */
  lemma AskedAgainIff(env: Env, evs: seq<PipelineEvent>, st: State, id: Text, merchantOk: bool)
    requires Reachable(env, evs, st) && id in st.runs && st.runs[id].record.status == Delivered
    ensures Step(env, st, Requested(st.runs[id].record.request, true, merchantOk)) == st <==> id in st.order
  {
    hide Reachable, Invariant, Retain;
    ReachableInvariant(env, evs, st);
    RequestOf(env, st, id);
    var st' := Step(env, st, Requested(st.runs[id].record.request, true, merchantOk));
    if id !in st.order {
      assert st'.runs[id].record.status != Delivered;
    }
  }

  /** The events of a second run of a delivered request: the same members answer as
      in the first one, and the bank replays its debit. */
  function SecondRun(r: Record, ceremony: SignedCeremony, asOf: nat): seq<PipelineEvent>
    requires r.debit.Some?
  {
    var id := r.request.requestId;
    [Requested(r.request, true, true), PreflightPolled(id, ceremony.chosen), DebitReplied(id, Answered(r.debit.value))]
    + SmoothReplies(id, ceremony.chosen, asOf, ceremony.replies)
  }

  /** The second run up to its ceremony. */
  lemma RerunToCeremony(env: Env, st: State, id: Text, ceremony: SignedCeremony, asOf: nat) returns (st': State)
    requires Invariant(env, st) && id in st.runs && st.runs[id].record.status == Delivered && id !in st.order
    requires FindsQuorum(env, st.outside.ledger, asOf, st.runs[id].record.request)
    requires DistinctSigners(ceremony.chosen) && |ceremony.chosen| >= env.threshold
    ensures st.runs[id].record.debit.Some? && st.runs[id].record.request.requestId == id
    ensures var again := SecondRun(st.runs[id].record, ceremony, asOf);
            && |again| == 8 && st' == Proceed(env, st, again[..7])
            && AllAllow(env, Step(env, st, again[0]), again[1..7])
    ensures id in st'.runs && st'.runs[id].at == CeremonyReply(ceremony.chosen, {}, 1) && st'.meter == st.meter
    ensures st'.runs[id].record.debit == st.runs[id].record.debit && Ref(st.runs[id].record) != []
  {
    hide Invariant, DistinctSigners, FindsQuorum, Step, Allows, BankConfirmed;
    DeliveredDebit(env, st, id);
    var online, again := ceremony.chosen, SecondRun(st.runs[id].record, ceremony, asOf);
    var smooth := SmoothReplies(id, online, asOf, ceremony.replies);
    var st3 := RerunToDebit(env, st, id, online);
    st' := SmoothApproval(env, st3, id, online, asOf, ceremony.replies);
    ThreeThen(env, st, again[0], again[1], again[2], smooth[..4]);
    assert again[..7] == [again[0], again[1], again[2]] + smooth[..4];
    assert again[1..7] == [again[1], again[2]] + smooth[..4];
  }

  /** Once its id is evicted, a delivered request that is asked for again ends in
      asking the bank to reverse the debit of the delivered token, without any
      call failing. */
  lemma RerunUndoesDelivery(env: Env, evs: seq<PipelineEvent>, st: State, id: Text) returns (asOf: nat, st': State)
    requires Reachable(env, evs, st) && id in st.runs && st.runs[id].record.status == Delivered && id !in st.order
    ensures st.runs[id].record.debit.Some? && id in st.observed.signed
    ensures var again := SecondRun(st.runs[id].record, st.observed.signed[id], asOf);
            && AllAllow(env, Step(env, st, again[0]), again[1..]) && st' == Proceed(env, st, again)
    ensures var ref := Ref(st.runs[id].record);
            ref !in st.observed.reverseAsked && ref in st.meter.usedDebitRefs && ref in st'.observed.reverseAsked
  {
    hide Reachable, Invariant, Evidence, Backs, FindsQuorum, Step, Allows, Proceed, AllAllow, RecordBacked, TokenFor,
      DistinctSigners, Sign, BankConfirmed;
    ReachableEvidence(env, evs, st);
    DeliveredNotReversed(env, evs, st, id);
    DeliveredDebit(env, st, id);
    asOf := DeliveredEvidence(env, st, id);
    var r, ceremony := st.runs[id].record, st.observed.signed[id];
    BackedSigns(env, ceremony, r);
    var st7 := RerunToCeremony(env, st, id, ceremony, asOf);
    var again, ended := SecondRun(r, ceremony, asOf), CeremonyEnded(id, ceremony.replies);
    SpentTokenAbandons(env, st7, id, ceremony.chosen, ceremony.replies);
    st' := Step(env, st7, ended);
    assert again == again[..7] + [ended];
    ProceedStep(env, st, again[..7], ended);
    assert again[1..] == again[1..7] + [ended];
    ProceedStep(env, Step(env, st, again[0]), again[1..7], ended);
    FirstThen(env, st, again[..7]);
    assert again[..7][1..] == again[1..7];
  }

  lemma FirstThen(env: Env, st: State, evs: seq<PipelineEvent>)
    requires evs != []
    ensures Proceed(env, st, evs) == Proceed(env, Step(env, st, evs[0]), evs[1..])
  {
  }

  /** What a delivered run's evidence offers to a second one. */
  lemma DeliveredEvidence(env: Env, st: State, id: Text) returns (asOf: nat)
    requires Invariant(env, st) && Evidence(env, st) && id in st.runs && st.runs[id].record.status == Delivered
    ensures FindsQuorum(env, st.outside.ledger, asOf, st.runs[id].record.request)
    ensures st.runs[id].record.debit.Some? && id in st.observed.signed
    ensures Backs(env, st.observed.signed[id], st.runs[id].record)
  {
    hide SharedOk, BankOk, OrderOk, CeremonyOk, HistoryOk, FieldsOk, DebitBacked, ReversalBacked, ReceiptBacked,
      Backs, CountedAt, ReadThrows, Window, HashRequest, AnswerFits;
    assert RunOk(env, st, id, st.runs[id]);
    DeliveredFields(env, st.runs[id]);
    var r, ledger := st.runs[id].record, st.outside.ledger;
    assert RecordBacked(env, st, id, r);
    asOf :| 0 <= asOf <= |ledger| && !ReadThrows(Window(ledger, asOf), env.members)
            && r.approvals.value == CountedAt(ledger, asOf, env.members, HashRequest(env, r.request));
  }

  lemma BackedSigns(env: Env, ceremony: SignedCeremony, r: Record)
    requires r.debit.Some? && Backs(env, ceremony, r)
    ensures DistinctSigners(ceremony.chosen) && |ceremony.chosen| == env.threshold
    ensures Sign(env, ceremony.chosen, ceremony.replies, r.debit.value)
  {
    hide CeremonyOf, TokenMessage;
    assert ceremony.chosen[..env.threshold] == ceremony.chosen;
  }

  lemma RerunToDebit(env: Env, st: State, id: Text, online: seq<SignerInfo>) returns (st': State)
    requires id in st.runs && st.runs[id].record.debit.Some? && st.runs[id].record.request.requestId == id
    requires id !in st.order
    requires DistinctSigners(online) && |online| >= env.threshold
    requires VerifyBankSignature(st.runs[id].record.debit.value, env.bankKey)
    requires BankConfirmed(st.outside.bank.log, st.runs[id].record.debit.value.payload)
    requires st.runs[id].record.debit.value.payload.requestId == id
    requires Ref(st.runs[id].record) in st.consumed && st.consumed[Ref(st.runs[id].record)] == id
    ensures var st1 := Step(env, st, Requested(st.runs[id].record.request, true, true));
            var st2 := Step(env, st1, PreflightPolled(id, online));
            var third := DebitReplied(id, Answered(st.runs[id].record.debit.value));
            && Allows(env, st1, PreflightPolled(id, online)) && Allows(env, st2, third) && st' == Step(env, st2, third)
    ensures id in st'.runs && st'.runs[id].at == PublishReply && st'.runs[id].record.debit == st.runs[id].record.debit
    ensures st'.runs[id].record.request == st.runs[id].record.request && st'.meter == st.meter
    ensures st'.outside == st.outside
  {
    hide DistinctSigners, BankConfirmed, Retain;
    var r := st.runs[id].record;
    var st1 := Step(env, st, Requested(r.request, true, true));
    assert st1.runs[id] == PipelineRun(NewRecord(r.request), PreflightPoll);
    var st2 := Step(env, st1, PreflightPolled(id, online));
    assert st2.runs[id] == PipelineRun(NewRecord(r.request), DebitReply);
    st' := Step(env, st2, DebitReplied(id, Answered(r.debit.value)));
  }

  lemma SmoothTail(id: Text, online: seq<SignerInfo>, asOf: nat, replies: Replies)
    ensures |SmoothReplies(id, online, asOf, replies)| == 5
    ensures SmoothReplies(id, online, asOf, replies) ==
            SmoothReplies(id, online, asOf, replies)[..4] + [CeremonyEnded(id, replies)]
  {
  }

  lemma DeliveredDebit(env: Env, st: State, id: Text)
    requires Invariant(env, st) && id in st.runs && st.runs[id].record.status == Delivered
    ensures st.runs[id].record.debit.Some? && st.runs[id].record.request.requestId == id
    ensures VerifyBankSignature(st.runs[id].record.debit.value, env.bankKey)
    ensures BankConfirmed(st.outside.bank.log, st.runs[id].record.debit.value.payload)
    ensures st.runs[id].record.debit.value.payload.requestId == id
    ensures Ref(st.runs[id].record) != [] && Ref(st.runs[id].record) in st.consumed
    ensures st.consumed[Ref(st.runs[id].record)] == id
    ensures Ref(st.runs[id].record) in st.meter.usedDebitRefs
  {
    hide SharedOk, BankOk, OrderOk, TokenFor, CeremonyOk, BankConfirmed, Receipt, ReversalBacked;
    assert RunOk(env, st, id, st.runs[id]);
  }

  /** The meter's pre-check refuses a spent token, and the coordinator gives up. */
  lemma SpentTokenAbandons(env: Env, st: State, id: Text, online: seq<SignerInfo>, replies: Replies)
    requires id in st.runs && st.runs[id].at == CeremonyReply(online, {}, 1) && st.runs[id].record.debit.Some?
    requires Sign(env, online, replies, st.runs[id].record.debit.value)
    requires Ref(st.runs[id].record) in st.meter.usedDebitRefs && Ref(st.runs[id].record) != []
    ensures Allows(env, st, CeremonyEnded(id, replies))
    ensures Ref(st.runs[id].record) in Step(env, st, CeremonyEnded(id, replies)).observed.reverseAsked
  {
    hide Step, Sign, Message, DeriveTokenNonce;
    var ceremony, signerSet := SignStep(env, st, id, online, replies);
  }
}
