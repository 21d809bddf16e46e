/** The coordinator's pipeline as a machine over its awaits
    (server/src/coordinator/pipeline.ts:46-82, 268-562): every event resumes one
    run at the call it awaits, so runs interleave in any order, and every call
    may succeed, fail, throw or lose its reply. */
module Pipeline {
  import opened Approvals
  import opened Bank
  import opened Canonical
  import opened Ceremony
  import Codec
  import Frost
  import opened Meter
  import opened Types
  import opened Verify
  import opened Wrappers

  // ---- records --------------------------------------------------------------------

  datatype Status =
    | Pending | DebitConfirmed | Published | Approved | Signed | Recorded
    | Delivered | Rejected | RejectedAbandoned

  predicate Terminal(s: Status) {
    s == Delivered || s == Rejected || s == RejectedAbandoned
  }

  datatype LedgerRecord = LedgerRecord(requestHash: Text, debitRefHash: Text, txHash: Text)

  datatype Record = Record(
    request: Request, status: Status, history: seq<Status>, debit: Option<Debit>, publication: Option<Text>,
    approvals: Option<nat>, token: Option<Token>, signerSet: seq<SignerId>, ledger: Option<LedgerRecord>,
    dispensedKwh: Option<Number>,
    debitReversed: Option<bool>)

  function NewRecord(request: Request): Record {
    Record(request, Pending, [Pending], None, None, None, None, [], None, None, None)
  }

  function Transition(r: Record, s: Status): Record {
    r.(status := s, history := r.history + [s])
  }

  // ---- runs -------------------------------------------------------------------------

  /** The call a run is suspended at. */
  datatype Await =
    | PreflightPoll
    | DebitReply
    | PublishReply
    | ApproverPoll
    | ApprovalsRead
    | OnlinePoll
    | CeremonyReply(online: seq<SignerInfo>, refused: set<SignerId>, ceremonies: nat)
    | ReceiptReply(submitted: Option<Text>)
    | ReversalReply
    | Finished

  datatype PipelineRun = PipelineRun(record: Record, at: Await)

  /** What came back on a run's debit call. */
  datatype BankAnswer = NoReply | NotOk | Answered(debit: Debit)

  /** A ceremony that signed: its members, what they sent and the signature. */
  datatype SignedCeremony = SignedCeremony(chosen: seq<SignerInfo>, replies: Replies, signature: Frost.Signature)

  /** What is not the coordinator's: the bank, the ledger's transactions (oldest
      first), and which run each receipt on the ledger is for. */
  datatype Outside = Outside(bank: BankState, ledger: seq<Tx>, receipts: map<Text, Text>)

  /** What an observer notes: the debits whose reversal was asked for, what each
      debit call came back with, and the ceremony each token comes from. */
  datatype Observed = Observed(reverseAsked: set<Text>, answers: map<Text, BankAnswer>, 
                               signed: map<Text, SignedCeremony>)

  /** The outside, every run started, the retained request ids (newest first), the
      claimed debits, the meter, the audit trail, and what was observed. */
  datatype State = State(
    outside: Outside, runs: map<Text, PipelineRun>, order: seq<Text>, consumed: map<Text, Text>,
    meter: MeterState, audit: seq<LedgerRecord>, observed: Observed)

  const IDLE := State(Outside(BankState(Confirm, [], []), [], map[]), map[], [], map[], EMPTY_METER, [],
                      Observed({}, map[], map[]))

  const REQUEST_CAP := 200

  function Retain(order: seq<Text>, id: Text): seq<Text> {
    if |order| + 1 > REQUEST_CAP then ([id] + order)[..REQUEST_CAP] else [id] + order
  }

  // ---- events -------------------------------------------------------------------------

  datatype PipelineEvent =
    | AtBank(bankEvent: BankEvent)
    | Posted(tx: Tx)
    | Requested(request: Request, admitted: bool, merchantOk: bool)
    | DebitHandled(id: Text, debitRef: Text, confirmedAt: Text)
    | PreflightPolled(id: Text, online: seq<SignerInfo>)
    | DebitReplied(id: Text, answer: BankAnswer)
    | PublishReplied(id: Text, requestTxHash: Option<Text>)
    | ApproversPolled(id: Text, online: seq<SignerInfo>)
    | ApprovalsCounted(id: Text, asOf: nat)
    | SignersPolled(id: Text, online: seq<SignerInfo>)
    | CeremonyEnded(id: Text, replies: Replies)
    | ReceiptSubmitted(id: Text, txHash: Text)
    | ReceiptReplied(id: Text, ok: bool)
    | ReversalReplied(id: Text, ok: bool)
    | CallThrew(id: Text)

  /** Events at a run, as opposed to the bank, the ledger and the request route. */
  predicate AtRun(ev: PipelineEvent) {
    !ev.AtBank? && !ev.Posted? && !ev.Requested? && !ev.DebitHandled?
  }

  // ---- updates of one part of the state --------------------------------------------------

  function BankActs(env: Env, st: State, ev: BankEvent): State {
    st.(outside := st.outside.(bank := Bank.Apply(env.bankKey, st.outside.bank, ev)))
  }

  function AskReversal(st: State, debitRef: Text): State {
    st.(observed := st.observed.(reverseAsked := st.observed.reverseAsked + {debitRef}))
  }

  function Heard(st: State, id: Text, answer: BankAnswer): State {
    st.(observed := st.observed.(answers := st.observed.answers[id := answer]))
  }

  function NoteCeremony(st: State, id: Text, ceremony: SignedCeremony): State {
    st.(observed := st.observed.(signed := st.observed.signed[id := ceremony]))
  }

  // ---- terminal helpers -----------------------------------------------------------------

  function Put(st: State, id: Text, run: PipelineRun): State {
    st.(runs := st.runs[id := run])
  }

  function RejectRun(st: State, id: Text, r: Record): State {
    Put(st, id, PipelineRun(Transition(r, Rejected), Finished))
  }

  function FinishAbandoned(r: Record, reversed: bool): PipelineRun {
    PipelineRun(Transition(r.(debitReversed := Some(reversed)), RejectedAbandoned), Finished)
  }

  /** Ask the bank to reverse the debit and wait, or end at once without one. */
  function Abandon(st: State, id: Text, r: Record): State {
    if r.debit.Some? && r.debit.value.payload.debitRef != [] then
      AskReversal(Put(st, id, PipelineRun(r, ReversalReply)), r.debit.value.payload.debitRef)
    else Put(st, id, FinishAbandoned(r, false))
  }

  /** An exception that nothing else caught. */
  function Backstop(st: State, id: Text, run: PipelineRun): State {
    if Terminal(run.record.status) then st
    else if run.at.ReversalReply? then Put(st, id, FinishAbandoned(run.record, false))
    else if run.record.debit.Some? then Abandon(st, id, run.record)
    else RejectRun(st, id, run.record)
  }

  /** One debit, one token: a reference another request claimed is refused. */
  predicate ClaimedByOther(consumed: map<Text, Text>, debitRef: Text, id: Text) {
    debitRef in consumed && consumed[debitRef] != [] && consumed[debitRef] != id
  }

  function TokenFor(env: Env, debit: Debit): Token {
    var p := BuildTokenPayload(env, debit.payload);
    Token(p, GroupSigned(Message(env, p)))
  }

  // ---- the segments between awaits --------------------------------------------------------

  function OnCreated(st: State, request: Request, merchantOk: bool): State {
    var st' := st.(order := Retain(st.order, request.requestId));
    if merchantOk then Put(st', request.requestId, PipelineRun(NewRecord(request), PreflightPoll))
    else RejectRun(st', request.requestId, NewRecord(request))
  }

  /** The request route: the idempotency check sees the retained ids only. */
  function OnRequested(st: State, request: Request, admitted: bool, merchantOk: bool): State {
    if request.requestId in st.order || !admitted then st else OnCreated(st, request, merchantOk)
  }

  /** What a run asks the bank for. */
  function DebitCall(env: Env, request: Request): DebitRequest {
    DebitRequest(request.requestId, request.merchantId, request.meterId, request.amountKwh,
                 env.price(request.amountKwh), env.currency)
  }

  function OnVerifiedDebit(st: State, id: Text, r: Record, debit: Debit): State {
    var held := r.(debit := Some(debit));
    if ClaimedByOther(st.consumed, debit.payload.debitRef, id) then RejectRun(st, id, held)
    else
      Put(st, id, PipelineRun(Transition(held, DebitConfirmed), PublishReply))
        .(consumed := st.consumed[debit.payload.debitRef := id])
  }

  function OnDebit(env: Env, st: State, id: Text, r: Record, answer: BankAnswer): State {
    if !answer.Answered? then RejectRun(st, id, r)
    else if !VerifyBankSignature(answer.debit, env.bankKey)
      || answer.debit.payload.requestId != r.request.requestId then
      RejectRun(st, id, r)
    else OnVerifiedDebit(st, id, r, answer.debit)
  }

  function OnPublished(st: State, id: Text, r: Record, requestTxHash: Option<Text>): State {
    match requestTxHash
    case None => Abandon(st, id, r)
    case Some(tx) => Put(st, id, PipelineRun(Transition(r.(publication := Some(tx)), Published), ApproverPoll))
  }

  /** The approvals read off the ledger are kept whether or not they are enough. */
  function OnCounted(env: Env, st: State, id: Text, r: Record, n: nat): State {
    var counted := r.(approvals := Some(n));
    if n < env.quorum then Abandon(st, id, counted)
    else Put(st, id, PipelineRun(Transition(counted, Approved), OnlinePoll))
  }

  /** What a read of the ledger shows, possibly stale. */
  function Seen(ledger: seq<Tx>, asOf: nat): seq<Tx> {
    Window(ledger, if asOf <= |ledger| then asOf else |ledger|)
  }

  function CountSeen(env: Env, ledger: seq<Tx>, asOf: nat, request: Request): nat {
    CountedAt(ledger, if asOf <= |ledger| then asOf else |ledger|, env.members, HashRequest(env, request))
  }

  /** The read of the approvals: a null approval of a member makes it throw. */
  function OnRead(env: Env, st: State, id: Text, run: PipelineRun, asOf: nat): State {
    if ReadThrows(Seen(st.outside.ledger, asOf), env.members) then Backstop(st, id, run)
    else OnCounted(env, st, id, run.record, CountSeen(env, st.outside.ledger, asOf, run.record.request))
  }

  function OnSignersPolled(env: Env, st: State, id: Text, r: Record, online: seq<SignerInfo>): State {
    if |online| < env.threshold then Abandon(st, id, r)
    else Put(st, id, PipelineRun(r, CeremonyReply(online, {}, 1)))
  }

  /** The pre-check credits nothing and keeps an unacceptable token off the ledger. */
  function OnSigned(env: Env, st: State, id: Text, r: Record, token: Token, signerSet: seq<SignerId>): State {
    var signed := Transition(r.(token := Some(token), signerSet := signerSet), Signed);
    if VerifyTokenForMeter(env, st.meter, token) != Accepted then Abandon(st, id, signed)
    else Put(st, id, PipelineRun(signed, ReceiptReply(None)))
  }

  /** What a ceremony signs: the bytes of the one token of the debit. */
  function TokenMessage(env: Env, debit: Debit): Codec.Bytes {
    env.utf8(Message(env, BuildTokenPayload(env, debit.payload)))
  }

  predicate Shaped(env: Env, replies: Replies) {
    |replies.round1| == |replies.round2| == env.threshold
  }

  function OnOutcome(env: Env, st: State, id: Text, r: Record, at: Await, replies: Replies,
                     outcome: CeremonyOutcome): State
    requires at.CeremonyReply? && |Pool(at.online, at.refused)| >= env.threshold && r.debit.Some?
  {
    match outcome
    case TokenSigned(signature, signerSet) =>
      var ceremony := SignedCeremony(Chosen(at.online, at.refused, env.threshold), replies, signature);
      OnSigned(env, NoteCeremony(st, id, ceremony), id, r, TokenFor(env, r.debit.value), signerSet)
    case Refused(who) =>
      var refused := at.refused + {who};
      if |Pool(at.online, refused)| < env.threshold then Abandon(st, id, r)
      else Put(st, id, PipelineRun(r, CeremonyReply(at.online, refused, at.ceremonies + 1)))
    case _ => Abandon(st, id, r)
  }

  function OutcomeOf(env: Env, r: Record, at: Await, replies: Replies): CeremonyOutcome
    requires at.CeremonyReply? && |Pool(at.online, at.refused)| >= env.threshold && r.debit.Some?
    requires Shaped(env, replies)
  {
    CeremonyOf(env.suite, env.group, Chosen(at.online, at.refused, env.threshold), replies,
               TokenMessage(env, r.debit.value))
  }

  function OnCeremony(env: Env, st: State, id: Text, r: Record, at: Await, replies: Replies): State
    requires at.CeremonyReply? && |Pool(at.online, at.refused)| >= env.threshold && r.debit.Some?
    requires Shaped(env, replies)
  {
    OnOutcome(env, st, id, r, at, replies, OutcomeOf(env, r, at, replies))
  }

  function Receipt(env: Env, r: Record, txHash: Text): LedgerRecord
    requires r.debit.Some?
  {
    LedgerRecord(HashRequest(env, r.request), env.sha256Hex(r.debit.value.payload.debitRef), txHash)
  }

  /** A confirmed receipt is audited, then the meter takes the token. */
  function OnConfirmedReceipt(env: Env, st: State, id: Text, r: Record, token: Token, ledger: LedgerRecord): State {
    var recorded := Transition(r.(ledger := Some(ledger)), Recorded);
    var st' := st.(audit := [ledger] + st.audit);
    var (meter, result) := DeliverToken(env, st.meter, token);
    if result != Accepted then Abandon(st', id, recorded)
    else
      var delivered := Transition(recorded.(dispensedKwh := Some(token.payload.amountKwh)), Delivered);
      Put(st', id, PipelineRun(delivered, Finished)).(meter := meter)
  }

  function OnReceipt(env: Env, st: State, id: Text, r: Record, submitted: Option<Text>, ok: bool): State
    requires r.debit.Some? && r.token.Some?
  {
    if !ok || submitted.None? then Abandon(st, id, r)
    else OnConfirmedReceipt(env, st, id, r, r.token.value, Receipt(env, r, submitted.value))
  }

  /** What a run holds at each await, so that the code after it makes sense. */
  predicate Ready(env: Env, run: PipelineRun) {
    match run.at
    case CeremonyReply(online, refused, _) => run.record.debit.Some? && |Pool(online, refused)| >= env.threshold
    case ReceiptReply(_) => run.record.debit.Some? && run.record.token.Some?
    case _ => true
  }

  /** An event that answers the call a run awaits; every other event at a run
      changes nothing. */
  predicate Answers(env: Env, ev: PipelineEvent, at: Await) {
    match ev
    case PreflightPolled(_, _) => at.PreflightPoll?
    case DebitReplied(_, _) => at.DebitReply?
    case PublishReplied(_, _) => at.PublishReply?
    case ApproversPolled(_, _) => at.ApproverPoll?
    case ApprovalsCounted(_, _) => at.ApprovalsRead?
    case SignersPolled(_, _) => at.OnlinePoll?
    case CeremonyEnded(_, replies) => at.CeremonyReply? && Shaped(env, replies)
    case ReceiptReplied(_, _) => at.ReceiptReply?
    case ReversalReplied(_, _) => at.ReversalReply?
    case CallThrew(_) => !at.Finished?
    case _ => false
  }

  function Resume(env: Env, st: State, id: Text, run: PipelineRun, ev: PipelineEvent): State
    requires Answers(env, ev, run.at) && Ready(env, run)
  {
    var r := run.record;
    match ev
    case PreflightPolled(_, online) =>
      if |online| < env.threshold then RejectRun(st, id, r) else Put(st, id, PipelineRun(r, DebitReply))
    case DebitReplied(_, answer) => Heard(OnDebit(env, st, id, r, answer), id, answer)
    case PublishReplied(_, tx) => OnPublished(st, id, r, tx)
    case ApproversPolled(_, online) =>
      if |online| < env.threshold then Abandon(st, id, r) else Put(st, id, PipelineRun(r, ApprovalsRead))
    case ApprovalsCounted(_, asOf) => OnRead(env, st, id, run, asOf)
    case SignersPolled(_, online) => OnSignersPolled(env, st, id, r, online)
    case CeremonyEnded(_, replies) => OnCeremony(env, st, id, r, run.at, replies)
    case ReceiptReplied(_, ok) => OnReceipt(env, st, id, r, run.at.submitted, ok)
    case ReversalReplied(_, ok) => Put(st, id, FinishAbandoned(r, ok))
    case _ => if run.at.DebitReply? then Heard(Backstop(st, id, run), id, NoReply) else Backstop(st, id, run)
  }

  /** The receipt reaches the ledger, whether or not the coordinator learns of it:
      while its run waits, or after the call ended without it. */
  function OnSubmitted(st: State, id: Text, run: PipelineRun, txHash: Text): State {
    var st' := st.(outside := st.outside.(receipts := st.outside.receipts[txHash := id]));
    if run.at == ReceiptReply(None) then Put(st', id, run.(at := ReceiptReply(Some(txHash)))) else st'
  }

  function StepRun(env: Env, st: State, id: Text, run: PipelineRun, ev: PipelineEvent): State {
    if ev.ReceiptSubmitted? then OnSubmitted(st, id, run, ev.txHash)
    else if Answers(env, ev, run.at) && Ready(env, run) then Resume(env, st, id, run, ev)
    else st
  }

  /** The bank handles a run's own debit call, whether or not its reply comes back. */
  function OnHandled(env: Env, st: State, id: Text, debitRef: Text, at: Text): State
    requires id in st.runs
  {
    BankActs(env, st, Debited(DebitCall(env, st.runs[id].record.request), debitRef, at))
  }

  function Step(env: Env, st: State, ev: PipelineEvent): State {
    if ev.AtBank? then BankActs(env, st, ev.bankEvent)
    else if ev.Posted? then st.(outside := st.outside.(ledger := st.outside.ledger + [ev.tx]))
    else if ev.Requested? then OnRequested(st, ev.request, ev.admitted, ev.merchantOk)
    else if ev.id !in st.runs then st
    else if ev.DebitHandled? then OnHandled(env, st, ev.id, ev.debitRef, ev.confirmedAt)
    else StepRun(env, st, ev.id, st.runs[ev.id], ev)
  }

  lemma StepIsResume(env: Env, st: State, id: Text, ev: PipelineEvent)
    requires AtRun(ev) && ev.id == id && id in st.runs && Answers(env, ev, st.runs[id].at) && Ready(env, st.runs[id])
    ensures Step(env, st, ev) == Resume(env, st, id, st.runs[id], ev)
  {
    hide Resume, Ready;
  }

  function Proceed(env: Env, st: State, evs: seq<PipelineEvent>): State
    decreases |evs|
  {
    if evs == [] then st else Proceed(env, Step(env, st, evs[0]), evs[1..])
  }

  // ---- hypotheses on what happens ------------------------------------------------------------

  /** Token nonces are collision-free on the references in play. */
  ghost predicate FreshNonce(env: Env, bank: BankState, debitRef: Text) {
    forall i :: 0 <= i < |bank.log| ==>
      NoncesApart(env, bank.log[i].debit.payload.debitRef, debitRef)
  }

  /** The run signed, so that its receipt was sent, and none of it is on the ledger yet. */
  ghost predicate ReceiptDue(st: State, id: Text, run: PipelineRun) {
    run.record.token.Some? && forall tx :: tx in st.outside.receipts ==> st.outside.receipts[tx] != id
  }

  ghost predicate RunAllows(env: Env, st: State, run: PipelineRun, ev: PipelineEvent) {
    match ev
    case PreflightPolled(_, online) => DistinctSigners(online)
    case ApproversPolled(_, online) => DistinctSigners(online)
    case SignersPolled(_, online) => DistinctSigners(online)
    case DebitReplied(_, Answered(debit)) =>
      VerifyBankSignature(debit, env.bankKey) ==> BankConfirmed(st.outside.bank.log, debit.payload)
    case ReceiptSubmitted(id, txHash) => ReceiptDue(st, id, run) && txHash !in st.outside.receipts
    case ReceiptReplied(_, true) => run.at.ReceiptReply? ==> run.at.submitted.Some?
    case ReversalReplied(_, true) =>
      run.record.debit.Some? ==> run.record.debit.value.payload.debitRef in st.outside.bank.reversals
    case _ => true
  }

  /** An evicted request id is not requested again; references and their nonces
      are fresh; bank signatures are not forged; the bank handles only calls that
      were made; a run's one receipt is sent once it signed, under a fresh hash; a
      confirmed receipt was submitted and a confirmed reversal was made. */
  ghost predicate Allows(env: Env, st: State, ev: PipelineEvent) {
    match ev
    case AtBank(Debited(_, debitRef, _)) =>
      FreshRef(st.outside.bank, debitRef) && FreshNonce(env, st.outside.bank, debitRef)
    case AtBank(_) => true
    case Posted(_) => true
    case Requested(request, _, _) =>
      request.requestId != [] && (request.requestId in st.runs ==> request.requestId in st.order)
    case DebitHandled(id, debitRef, _) =>
      && FreshRef(st.outside.bank, debitRef) && FreshNonce(env, st.outside.bank, debitRef)
      && (id in st.runs ==> st.runs[id].at.DebitReply? || id in st.observed.answers)
    case _ => ev.id in st.runs ==> RunAllows(env, st, st.runs[ev.id], ev)
  }

  ghost predicate AllAllow(env: Env, st: State, evs: seq<PipelineEvent>)
    decreases |evs|
  {
    evs == [] || (Allows(env, st, evs[0]) && AllAllow(env, Step(env, st, evs[0]), evs[1..]))
  }
}
