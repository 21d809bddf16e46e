/** The real coordinator among its members, honest or corrupt: every run of the
    pipeline machine with the members' own steps in between is a run of the open
    world, with the same bank, ledger and meter, so what holds for an arbitrary
    sender holds of the coordinator's deliveries. */
module JointWorld {
  import opened Approvals
  import opened Attestation
  import opened Bank
  import opened Canonical
  import opened Ceremony
  import opened Meter
  import opened Pipeline
  import opened PipelineEvidence
  import opened PipelineFrame
  import opened PipelineInvariant
  import opened PipelineRuns
  import opened PipelineSteps
  import opened PipelineTheorems
  import opened PipelineWitnesses
  import opened Printer
  import opened Types
  import opened Verify
  import opened Wrappers
  import Open = OpenWorld
  import OpenWorldTheorems
  import Lists
  import Signer

  datatype Joint = Joint(st: State, w: Open.World)

  const TOGETHER := Joint(IDLE, Open.START)

  /** The coordinator's events, and the members' and the ledger's. */
  datatype JointEvent = AtCoordinator(ev: PipelineEvent) | AtMembers(event: Open.WorldEvent)

  /** The transaction an event at the members puts on the ledger. */
  function Landed(env: Env, ev: Open.WorldEvent): Option<Tx> {
    match ev
    case Posted(tx) => Some(tx)
    case Attested(account, txHash, refusing, h, request, debit) =>
      Some(Tx(account, [ApprovalMemo(h, Attest(env, refusing, h, request, debit))], txHash))
    case _ => None
  }

  /** What a step of the coordinator is to the world. */
  function WorldEvents(env: Env, st: State, ev: PipelineEvent): seq<Open.WorldEvent> {
    if ev.AtBank? then [Open.AtBank(ev.bankEvent)]
    else if ev.DebitHandled? && ev.id in st.runs then
      [Open.AtBank(Debited(DebitCall(env, st.runs[ev.id].record.request), ev.debitRef, ev.confirmedAt))]
    else if Presents(st, ev) then [Open.Presented(st.runs[ev.id].record.token.value)]
    else []
  }

  function Act(env: Env, c: Open.Consortium, j: Joint, e: JointEvent): Joint {
    match e
    case AtCoordinator(ev) => Joint(Step(env, j.st, ev), Open.Play(env, c, j.w, WorldEvents(env, j.st, ev)))
    case AtMembers(ev) =>
      var st := if Landed(env, ev).Some? then Step(env, j.st, Posted(Landed(env, ev).value)) else j.st;
      Joint(st, Open.Step(env, c, j.w, ev))
  }

  function ActAll(env: Env, c: Open.Consortium, j: Joint, es: seq<JointEvent>): Joint
    decreases |es|
  {
    if es == [] then j else ActAll(env, c, Act(env, c, j, es[0]), es[1..])
  }

  // ---- what may happen ------------------------------------------------------------------------

  /** The ceremony of an event signs the token of the run's debit. */
  predicate SignsToken(env: Env, st: State, ev: PipelineEvent) {
    && ev.CeremonyEnded? && ev.id in st.runs && Answers(env, ev, st.runs[ev.id].at) && Ready(env, st.runs[ev.id])
    && OutcomeOf(env, st.runs[ev.id].record, st.runs[ev.id].at, ev.replies).TokenSigned?
  }

  /** The group signature needs shares, and no honest member's share is accepted
      that it did not release. */
  ghost predicate SharesReleased(env: Env, c: Open.Consortium, j: Joint, ev: PipelineEvent) {
    SignsToken(env, j.st, ev) ==>
      var at := j.st.runs[ev.id].at;
      var message := TokenFor(env, j.st.runs[ev.id].record.debit.value).signature.message;
      forall s :: s in SignerIds(Chosen(at.online, at.refused, env.threshold)) ==>
        s in Open.Contributors(c, j.w, message)
  }

  predicate OfMembers(ev: Open.WorldEvent) {
    ev.Posted? || ev.Attested? || ev.AtSigner? || ev.LedgerRead?
  }

  /** Each side's own hypotheses, and that shares are not forged. */
  ghost predicate Admits(env: Env, c: Open.Consortium, j: Joint, e: JointEvent) {
    match e
    case AtCoordinator(ev) => !ev.Posted? && Allows(env, j.st, ev) && SharesReleased(env, c, j, ev)
    case AtMembers(ev) => OfMembers(ev) && Open.Allowed(env, c, j.w, ev)
  }

  ghost predicate AdmitsAll(env: Env, c: Open.Consortium, j: Joint, es: seq<JointEvent>)
    decreases |es|
  {
    es == [] || (Admits(env, c, j, es[0]) && AdmitsAll(env, c, Act(env, c, j, es[0]), es[1..]))
  }

  // ---- the tokens the runs hold --------------------------------------------------------------------

  predicate KeepsToken(st: State, id: Text, r: Record) {
    id in st.runs && st.runs[id].record.token == r.token
  }

  lemma PreflightKeepsToken(env: Env, st: State, id: Text, r: Record, online: seq<SignerInfo>)
    ensures KeepsToken(Resume(env, st, id, PipelineRun(r, PreflightPoll), PreflightPolled(id, online)), id, r)
  {
  }

  lemma DebitKeepsToken(env: Env, st: State, id: Text, r: Record, answer: BankAnswer)
    ensures KeepsToken(Resume(env, st, id, PipelineRun(r, DebitReply), DebitReplied(id, answer)), id, r)
  {
  }

  lemma ReadKeepsToken(env: Env, st: State, id: Text, r: Record, asOf: nat)
    requires id in st.runs && st.runs[id] == PipelineRun(r, ApprovalsRead)
    ensures KeepsToken(Resume(env, st, id, PipelineRun(r, ApprovalsRead), ApprovalsCounted(id, asOf)), id, r)
  {
    hide OnCounted, Backstop, ReadThrows, CountSeen;
    BackstopLeaves(st, id, st.runs[id]);
    CountLeaves(env, st, id, r, CountSeen(env, st.outside.ledger, asOf, r.request));
  }

  lemma ThrowKeepsToken(env: Env, st: State, id: Text)
    requires id in st.runs && !st.runs[id].at.Finished? && Ready(env, st.runs[id])
    ensures KeepsToken(Resume(env, st, id, st.runs[id], CallThrew(id)), id, st.runs[id].record)
  {
    hide Abandon;
    AbandonLeaves(st, id, st.runs[id].record);
  }

  lemma OtherKeepsToken(env: Env, st: State, id: Text, run: PipelineRun, ev: PipelineEvent)
    requires Answers(env, ev, run.at) && Ready(env, run)
    requires ev.PublishReplied? || ev.ApproversPolled? || ev.SignersPolled? || ev.ReceiptReplied? || ev.ReversalReplied?
    ensures KeepsToken(Resume(env, st, id, run, ev), id, run.record)
  {
    hide Resume, Ready, Answers;
    OthersLeave(env, st, id, run, ev);
  }

  /** The token of a run whose ceremony ended. */
  lemma CeremonyToken(env: Env, st: State, id: Text, replies: Replies)
    requires id in st.runs && st.runs[id].at.CeremonyReply? && Ready(env, st.runs[id]) && Shaped(env, replies)
    ensures var r, st' := st.runs[id].record, Resume(env, st, id, st.runs[id], CeremonyEnded(id, replies));
            && id in st'.runs
            && (SignsToken(env, st, CeremonyEnded(id, replies)) ==>
                st'.runs[id].record.token == Some(TokenFor(env, r.debit.value)))
            && (!SignsToken(env, st, CeremonyEnded(id, replies)) ==> st'.runs[id].record.token == r.token)
  {
    hide OnCeremony, OutcomeOf, TokenFor, Pool;
    CeremonyTokenAfter(env, st, id, replies);
  }

  /** A reply keeps a run's token, or is the ceremony that signed it. */
  lemma TokenAfter(env: Env, st: State, id: Text, ev: PipelineEvent)
    requires Invariant(env, st) && id in st.runs && AtRun(ev) && ev.id == id && Answers(env, ev, st.runs[id].at)
    ensures Ready(env, st.runs[id])
    ensures var r, st' := st.runs[id].record, Resume(env, st, id, st.runs[id], ev);
            || KeepsToken(st', id, r)
            || (SignsToken(env, st, ev) && r.debit.Some? && id in st'.runs
                && st'.runs[id].record.token == Some(TokenFor(env, r.debit.value)))
  {
    hide Invariant, Resume, TokenFor, SignsToken, Pool, CeremonyOk, Shaped;
    RunHolds(env, st, id);
    var run := st.runs[id];
    if ev.PreflightPolled? {
      PreflightKeepsToken(env, st, id, run.record, ev.online);
    } else if ev.DebitReplied? {
      DebitKeepsToken(env, st, id, run.record, ev.answer);
    } else if ev.ApprovalsCounted? {
      ReadKeepsToken(env, st, id, run.record, ev.asOf);
    } else if ev.CeremonyEnded? {
      CeremonyToken(env, st, id, ev.replies);
    } else if ev.CallThrew? {
      ThrowKeepsToken(env, st, id);
    } else {
      OtherKeepsToken(env, st, id, run, ev);
    }
  }

  lemma CeremonyTokenAfter(env: Env, st: State, id: Text, replies: Replies)
    requires id in st.runs && st.runs[id].at.CeremonyReply? && Ready(env, st.runs[id]) && Shaped(env, replies)
    ensures var r, at := st.runs[id].record, st.runs[id].at;
            var st' := OnCeremony(env, st, id, r, at, replies);
            && id in st'.runs
            && st'.runs[id].record.token ==
               if OutcomeOf(env, r, at, replies).TokenSigned? then Some(TokenFor(env, r.debit.value)) else r.token
  {
    hide Abandon, OutcomeOf, TokenFor, OnSigned, Chosen, Pool;
    var r, at := st.runs[id].record, st.runs[id].at;
    var outcome := OutcomeOf(env, r, at, replies);
    AbandonLeaves(st, id, r);
    if outcome.TokenSigned? {
      var ceremony := SignedCeremony(Chosen(at.online, at.refused, env.threshold), replies, outcome.signature);
      SignedLeaves(env, NoteCeremony(st, id, ceremony), id, r, TokenFor(env, r.debit.value), outcome.signerSet);
    }
  }

  // ---- the joint invariant ----------------------------------------------------------------------------

  /** Enough members can have contributed to the run's token. */
  ghost predicate TokenBacked(env: Env, c: Open.Consortium, w: Open.World, r: Record) {
    r.token.Some? && r.token.value.signature.GroupSigned? ==>
      |Open.Contributors(c, w, r.token.value.signature.message)| >= env.threshold
  }

  ghost predicate TokensBacked(env: Env, c: Open.Consortium, w: Open.World, runs: map<Text, PipelineRun>) {
    forall id :: id in runs ==> TokenBacked(env, c, w, runs[id].record)
  }

  /** One bank, one ledger, one meter. */
  ghost predicate SameWorld(st: State, w: Open.World) {
    st.outside.bank == w.bank && st.outside.ledger == w.ledger && st.meter == w.meter
  }

  ghost predicate JointInvariant(env: Env, c: Open.Consortium, j: Joint) {
    Invariant(env, j.st) && SameWorld(j.st, j.w) && TokensBacked(env, c, j.w, j.st.runs)
  }

  /** What a member released stays released. */
  ghost predicate Releases(w: Open.World, w': Open.World) {
    forall s :: s in w.signers ==> s in w'.signers && w.signers[s].signings <= w'.signers[s].signings
  }

  lemma SignerGrows(env: Env, st: Signer.SignerState, ev: Signer.SignerEvent)
    ensures st.signings <= Signer.Apply(env, st, ev).signings
  {
    hide Signer.Sweep, RunWall1TokenChecks;
  }

  lemma WorldReleases(env: Env, c: Open.Consortium, w: Open.World, ev: Open.WorldEvent)
    ensures Releases(w, Open.Step(env, c, w, ev))
  {
    hide Signer.Apply, DeliverToken, Bank.Apply, Open.ReadCount, Attest;
    if ev.AtSigner? && ev.signer in w.signers {
      SignerGrows(env, w.signers[ev.signer], ev.signerEvent);
    }
    if ev.LedgerRead? && ev.reader in w.signers {
      SignerGrows(env, w.signers[ev.reader],
                  Signer.LedgerAnswered(ev.call, Open.ReadCount(env, c, w, ev.reader, ev.call, ev.asOf),
                                        ev.signingThrows));
    }
  }

  lemma ContributorsGrow(c: Open.Consortium, w: Open.World, w': Open.World, message: Text)
    requires Releases(w, w')
    ensures Open.Contributors(c, w, message) <= Open.Contributors(c, w', message)
    ensures |Open.Contributors(c, w, message)| <= |Open.Contributors(c, w', message)|
  {
    forall s | s in Open.Contributors(c, w, message)
      ensures s in Open.Contributors(c, w', message)
    {
      if s !in c.corrupt {
        var i :| 0 <= i < |w.signers[s].signings| && w.signers[s].signings[i].released
                 && w.signers[s].signings[i].body.message == message;
        assert w'.signers[s].signings[i] == w.signers[s].signings[i];
      }
    }
    SubsetSize(Open.Contributors(c, w, message), Open.Contributors(c, w', message));
  }

  lemma BackingGrows(env: Env, c: Open.Consortium, w: Open.World, w': Open.World, runs: map<Text, PipelineRun>)
    requires TokensBacked(env, c, w, runs) && Releases(w, w')
    ensures TokensBacked(env, c, w', runs)
  {
    hide Open.Contributors, Releases;
    forall id | id in runs
      ensures TokenBacked(env, c, w', runs[id].record)
    {
      if runs[id].record.token.Some? && runs[id].record.token.value.signature.GroupSigned? {
        ContributorsGrow(c, w, w', runs[id].record.token.value.signature.message);
      }
    }
  }

  /** The distinct members of a ceremony contribute to the token it signs. */
  lemma SignedIsBacked(env: Env, c: Open.Consortium, j: Joint, ev: PipelineEvent)
    requires Invariant(env, j.st) && SignsToken(env, j.st, ev) && SharesReleased(env, c, j, ev)
    ensures j.st.runs[ev.id].record.debit.Some?
    ensures var token := TokenFor(env, j.st.runs[ev.id].record.debit.value);
            |Open.Contributors(c, j.w, token.signature.message)| >= env.threshold
  {
    hide Invariant, OutcomeOf, Open.Contributors, Message, DeriveTokenNonce, Pool, CeremonyOk;
    var run := j.st.runs[ev.id];
    CeremonyHolds(env, j.st, ev.id);
    ChosenDistinct(env, run.at);
    var ids := SignerIds(Chosen(run.at.online, run.at.refused, env.threshold));
    Lists.DistinctSize(ids);
    SubsetSize((set s | s in ids), Open.Contributors(c, j.w, TokenFor(env, run.record.debit.value).signature.message));
  }

  lemma StepBacks(env: Env, c: Open.Consortium, j: Joint, ev: PipelineEvent)
    requires JointInvariant(env, c, j) && Admits(env, c, j, AtCoordinator(ev))
    ensures TokensBacked(env, c, j.w, Step(env, j.st, ev).runs)
  {
    hide Invariant, Allows, SharesReleased, SignsToken, TokenFor, Answers, Step;
    var st := j.st;
    var st' := Step(env, st, ev);
    forall id | id in st'.runs
      ensures TokenBacked(env, c, j.w, st'.runs[id].record)
    {
      if id !in st.runs {
        NewRunHoldsNone(env, st, ev, id);
      } else if AtRun(ev) && ev.id == id && Answers(env, ev, st.runs[id].at) {
        AnsweredBacks(env, c, j, ev);
      } else {
        UnansweredStays(env, st, ev, id);
      }
    }
  }

  lemma NewRunHoldsNone(env: Env, st: State, ev: PipelineEvent, id: Text)
    requires id !in st.runs && id in Step(env, st, ev).runs && Invariant(env, st)
    ensures Step(env, st, ev).runs[id].record.token.None?
  {
    hide Invariant, Resume, Ready, Answers, Retain, Bank.Apply;
    if AtRun(ev) && ev.id in st.runs && !ev.ReceiptSubmitted? {
      RunIsReady(env, st, ev.id);
      if Answers(env, ev, st.runs[ev.id].at) {
        ResumeOnly(env, st, ev.id, st.runs[ev.id], ev);
      }
    }
  }

  lemma AnsweredBacks(env: Env, c: Open.Consortium, j: Joint, ev: PipelineEvent)
    requires JointInvariant(env, c, j) && AtRun(ev) && ev.id in j.st.runs && Answers(env, ev, j.st.runs[ev.id].at)
    requires SharesReleased(env, c, j, ev)
    ensures ev.id in Step(env, j.st, ev).runs && TokenBacked(env, c, j.w, Step(env, j.st, ev).runs[ev.id].record)
  {
    hide Invariant, SharesReleased, SignsToken, TokenFor, Resume, Ready, Open.Contributors;
    TokenAfter(env, j.st, ev.id, ev);
    assert TokenBacked(env, c, j.w, j.st.runs[ev.id].record);
    if SignsToken(env, j.st, ev) {
      SignedIsBacked(env, c, j, ev);
    }
  }

  // ---- every step of the coordinator is a step of the world --------------------------------------------

  /** The token presented after a confirmed receipt is one the world may see. */
  lemma PresentedIsAllowed(env: Env, c: Open.Consortium, j: Joint, ev: PipelineEvent)
    requires TokensBacked(env, c, j.w, j.st.runs) && Presents(j.st, ev)
    ensures Open.Allowed(env, c, j.w, Open.Presented(j.st.runs[ev.id].record.token.value))
  {
    hide Open.Contributors;
    assert TokenBacked(env, c, j.w, j.st.runs[ev.id].record);
  }

  lemma BankEventIsAllowed(env: Env, c: Open.Consortium, j: Joint, ev: PipelineEvent)
    requires SameWorld(j.st, j.w) && Allows(env, j.st, ev) && (ev.AtBank? || (ev.DebitHandled? && ev.id in j.st.runs))
    ensures var we := WorldEvents(env, j.st, ev);
            && |we| == 1 && Open.Allowed(env, c, j.w, we[0])
            && Open.Step(env, c, j.w, we[0]) == j.w.(bank := Step(env, j.st, ev).outside.bank)
            && Step(env, j.st, ev) == j.st.(outside := j.st.outside.(bank := Step(env, j.st, ev).outside.bank))
  {
    hide FreshNonce, Bank.Apply, DebitCall;
  }

  lemma CoordinatorActs(env: Env, c: Open.Consortium, j: Joint, ev: PipelineEvent)
    requires JointInvariant(env, c, j) && Admits(env, c, j, AtCoordinator(ev))
    ensures Open.AllAllowed(env, c, j.w, WorldEvents(env, j.st, ev))
    ensures SameWorld(Step(env, j.st, ev), Open.Play(env, c, j.w, WorldEvents(env, j.st, ev)))
    ensures Releases(j.w, Open.Play(env, c, j.w, WorldEvents(env, j.st, ev)))
  {
    hide Invariant, TokensBacked, Allows, SharesReleased, Step, Open.Allowed, Releases, Open.Play, Open.AllAllowed,
      DeliverToken;
    var we := WorldEvents(env, j.st, ev);
    Open.PlayNone(env, c, j.w);
    SameReleases(j.w);
    if ev.AtBank? || (ev.DebitHandled? && ev.id in j.st.runs) {
      BankEventIsAllowed(env, c, j, ev);
      Open.PlayOne(env, c, j.w, we[0]);
      WorldReleases(env, c, j.w, we[0]);
    } else if ev.DebitHandled? {
      UnknownHandled(env, j.st, ev);
    } else {
      StepCore(env, j.st, ev);
      if Presents(j.st, ev) {
        PresentedIsAllowed(env, c, j, ev);
        Open.PlayOne(env, c, j.w, we[0]);
        WorldReleases(env, c, j.w, we[0]);
        PresentedStep(env, c, j.w, j.st.runs[ev.id].record.token.value);
      }
    }
  }

  lemma UnknownHandled(env: Env, st: State, ev: PipelineEvent)
    requires ev.DebitHandled? && ev.id !in st.runs
    ensures Step(env, st, ev) == st
  {
  }

  lemma PresentedStep(env: Env, c: Open.Consortium, w: Open.World, token: Token)
    ensures Open.Step(env, c, w, Open.Presented(token)) == w.(meter := DeliverToken(env, w.meter, token).0)
  {
    hide DeliverToken;
  }

  lemma SameReleases(w: Open.World)
    ensures Releases(w, w)
  {
  }

  lemma MembersAct(env: Env, c: Open.Consortium, j: Joint, ev: Open.WorldEvent)
    requires JointInvariant(env, c, j) && Admits(env, c, j, AtMembers(ev))
    ensures JointInvariant(env, c, Act(env, c, j, AtMembers(ev)))
  {
    hide Invariant, TokensBacked, Signer.Apply, Attest, Releases;
    var j' := Act(env, c, j, AtMembers(ev));
    if Landed(env, ev).Some? {
      StepKeeps(env, j.st, Posted(Landed(env, ev).value));
    }
    WorldReleases(env, c, j.w, ev);
    BackingGrows(env, c, j.w, j'.w, j.st.runs);
  }

  lemma ActKeeps(env: Env, c: Open.Consortium, j: Joint, e: JointEvent)
    requires JointInvariant(env, c, j) && Admits(env, c, j, e)
    ensures JointInvariant(env, c, Act(env, c, j, e))
  {
    hide Invariant, TokensBacked, SameWorld, Allows, SharesReleased, Step, WorldEvents, Releases, Open.Play,
      Open.AllAllowed;
    match e
    case AtCoordinator(ev) =>
      CoordinatorActs(env, c, j, ev);
      StepBacks(env, c, j, ev);
      StepKeeps(env, j.st, ev);
      BackingGrows(env, c, j.w, Open.Play(env, c, j.w, WorldEvents(env, j.st, ev)), Step(env, j.st, ev).runs);
    case AtMembers(ev) => MembersAct(env, c, j, ev);
  }

  // ---- every joint run ---------------------------------------------------------------------------------

  /** The coordinator's side of a joint event, as events of the machine. */
  function CoordinatorEvents(env: Env, e: JointEvent): seq<PipelineEvent> {
    match e
    case AtCoordinator(ev) => [ev]
    case AtMembers(ev) => if Landed(env, ev).Some? then [Posted(Landed(env, ev).value)] else []
  }

  function WorldSide(env: Env, j: Joint, e: JointEvent): seq<Open.WorldEvent> {
    match e
    case AtCoordinator(ev) => WorldEvents(env, j.st, ev)
    case AtMembers(ev) => [ev]
  }

  /** A joint event is a few events on each side. */
  lemma ActIsBoth(env: Env, c: Open.Consortium, j: Joint, e: JointEvent)
    requires JointInvariant(env, c, j) && Admits(env, c, j, e)
    ensures var pipeline, world := CoordinatorEvents(env, e), WorldSide(env, j, e);
            && AllAllow(env, j.st, pipeline) && Proceed(env, j.st, pipeline) == Act(env, c, j, e).st
            && Open.AllAllowed(env, c, j.w, world) && Open.Play(env, c, j.w, world) == Act(env, c, j, e).w
  {
    hide JointInvariant, SharesReleased, Step, WorldEvents, Open.Step, Open.Allowed, Open.Play, Open.AllAllowed,
      AllAllow, Proceed, Attest;
    match e
    case AtCoordinator(ev) =>
      ProceedOne(env, j.st, ev);
      CoordinatorActs(env, c, j, ev);
    case AtMembers(ev) =>
      Open.PlayOne(env, c, j.w, ev);
      ProceedNone(env, j.st);
      if Landed(env, ev).Some? {
        ProceedOne(env, j.st, Posted(Landed(env, ev).value));
        PostOne(env, j.st, Landed(env, ev).value);
      }
  }

  lemma ProceedNone(env: Env, st: State)
    ensures Proceed(env, st, []) == st && AllAllow(env, st, [])
  {
  }

  lemma {:induction false} JointFrom(env: Env, c: Open.Consortium, j: Joint, es: seq<JointEvent>)
    returns (pipeline: seq<PipelineEvent>, world: seq<Open.WorldEvent>)
    requires JointInvariant(env, c, j) && AdmitsAll(env, c, j, es)
    ensures JointInvariant(env, c, ActAll(env, c, j, es))
    ensures AllAllow(env, j.st, pipeline) && Proceed(env, j.st, pipeline) == ActAll(env, c, j, es).st
    ensures Open.AllAllowed(env, c, j.w, world) && Open.Play(env, c, j.w, world) == ActAll(env, c, j, es).w
    decreases |es|
  {
    hide JointInvariant, Admits, Act, AllAllow, Proceed, Open.AllAllowed, Open.Play, CoordinatorEvents, WorldSide;
    if es == [] {
      pipeline, world := [], [];
      ProceedNone(env, j.st);
      Open.PlayNone(env, c, j.w);
    } else {
      ActKeeps(env, c, j, es[0]);
      ActIsBoth(env, c, j, es[0]);
      var first, early := CoordinatorEvents(env, es[0]), WorldSide(env, j, es[0]);
      var j1 := Act(env, c, j, es[0]);
      var later, after := JointFrom(env, c, j1, es[1..]);
      pipeline, world := first + later, early + after;
      ProceedAppend(env, j.st, first, later);
      Open.PlayAppend(env, c, j.w, early, after);
    }
  }

  lemma TogetherInvariant(env: Env, c: Open.Consortium)
    ensures JointInvariant(env, c, TOGETHER)
  {
    hide Invariant;
    IdleInvariant(env);
  }

  /** However the coordinator and the members interleave, the coordinator's side is a
      run of the pipeline machine and the other a run of the open world, and both
      see the same bank, ledger and meter. */
  lemma JointRun(env: Env, c: Open.Consortium, es: seq<JointEvent>)
    returns (pipeline: seq<PipelineEvent>, world: seq<Open.WorldEvent>)
    requires AdmitsAll(env, c, TOGETHER, es)
    ensures Reachable(env, pipeline, ActAll(env, c, TOGETHER, es).st)
    ensures OpenWorldTheorems.Reachable(env, c, world, ActAll(env, c, TOGETHER, es).w)
    ensures SameWorld(ActAll(env, c, TOGETHER, es).st, ActAll(env, c, TOGETHER, es).w)
  {
    hide AdmitsAll, ActAll, AllAllow, Proceed, Open.AllAllowed, Open.Play, Invariant, TokensBacked, SameWorld;
    TogetherInvariant(env, c);
    pipeline, world := JointFrom(env, c, TOGETHER, es);
  }

  /** With fewer than `threshold` corrupt members, behind every delivered token
      stands an honest member that released a share of exactly its message, after
      validating a debit the bank confirmed for the request, with approvals of that
      very request by a quorum on the ledger. */
  lemma DeliveredByHonest(env: Env, c: Open.Consortium, es: seq<JointEvent>, id: Text)
    returns (s: SignerId, signing: Signer.Signing)
    requires Open.Setting(env, c) && AdmitsAll(env, c, TOGETHER, es)
    requires id in ActAll(env, c, TOGETHER, es).st.runs
    requires ActAll(env, c, TOGETHER, es).st.runs[id].record.status == Delivered
    ensures var j := ActAll(env, c, TOGETHER, es);
            var r := j.st.runs[id].record;
            && s !in c.corrupt && s in j.w.signers && signing in j.w.signers[s].signings && signing.released
            && r.token.Some? && signing.body.tokenPayload == r.token.value.payload
            && signing.body.message == Message(env, r.token.value.payload)
            && |Approving(env.members, j.st.outside.ledger, HashRequest(env, signing.body.request))| >= env.quorum
    ensures var log := ActAll(env, c, TOGETHER, es).st.outside.bank.log;
            var request, p := signing.body.request, signing.body.debit.payload;
            && (exists k :: 0 <= k < |log| && log[k].outcome == Outcome.Confirmed && log[k].debit == signing.body.debit)
            && signing.body.debit.bankSignature == SignedBy(env.bankKey, p)
            && p.requestId == request.requestId && p.meterId == request.meterId && p.amountKwh == request.amountKwh
            && p.amount == env.price(request.amountKwh) && p.currency == env.currency
  {
    hide AdmitsAll, ActAll, AllAllow, Proceed, Open.AllAllowed, Open.Play, Invariant, Open.Setting, Reachable,
      OpenWorldTheorems.Reachable, ValidateDebitForRequest, BankConfirmed, Approving, HashRequest, Message,
      Open.Contributors, Signs, Receipt, OpenWorldTheorems.PaidFor, BuildTokenPayload, NumberPrinter;
    var j := ActAll(env, c, TOGETHER, es);
    var pipeline, world := JointRun(env, c, es);
    TogetherInvariant(env, c);
    var p, q := JointFrom(env, c, TOGETHER, es);
    DeliveredHasEvidence(env, pipeline, j.st, id);
    assert TokenBacked(env, c, j.w, j.st.runs[id].record);
    s, signing := HonestSigning(env, c, j.w, j.st.runs[id].record.token.value.signature.message);
    OpenWorldTheorems.PartialsHaveQuorum(env, c, world, j.w, s, signing);
    SettingPrints(env, c);
    MessageInjective(env, signing.body.tokenPayload, j.st.runs[id].record.token.value.payload);
  }

  lemma SettingPrints(env: Env, c: Open.Consortium)
    requires Open.Setting(env, c)
    ensures NumberPrinter(env.number)
  {
  }

  /** An approver that is honest: a quorum outnumbers the corrupt members. */
  lemma HonestApprover(members: map<Text, SignerId>, ledger: seq<Tx>, h: Text, corrupt: set<SignerId>, quorum: nat)
    returns (s: SignerId)
    requires |Approving(members, ledger, h)| >= quorum > |corrupt|
    ensures s in Approving(members, ledger, h) && s !in corrupt
  {
    hide Approves;
    var all := Approving(members, ledger, h);
    if all <= corrupt {
      SubsetSize(all, corrupt);
    }
    s :| s in all && s !in corrupt;
  }

  /** Of one request the bank has one debit. */
  lemma SamePaid(bankKey: Text, bank: BankState, p: DebitPayload, k: nat)
    requires OneEntryEach(bank.log) && BankConfirmed(bank.log, p) && k < |bank.log|
    requires bank.log[k].debit.payload.requestId == p.requestId
    ensures bank.log[k].debit.payload == p
  {
    var i :| 0 <= i < |bank.log| && bank.log[i].debit.payload == p && bank.log[i].outcome == Outcome.Confirmed;
    assert i == k;
  }

  /** The debit a run holds, and what the run's delivery dispensed. */
  lemma HeldDebit(env: Env, pipeline: seq<PipelineEvent>, st: State, id: Text)
    requires Reachable(env, pipeline, st) && id in st.runs && st.runs[id].record.status == Delivered
    ensures var r := st.runs[id].record;
            && r.request.requestId == id && r.debit.Some? && r.debit.value.payload.requestId == id
            && OneEntryEach(st.outside.bank.log) && BankConfirmed(st.outside.bank.log, r.debit.value.payload)
            && var p := r.debit.value.payload;
            exists i :: 0 <= i < |st.meter.dispensed|
                        && st.meter.dispensed[i] == Dispense(p.meterId, p.amountKwh, p.debitRef)
  {
    hide Reachable, SharedOk, OrderOk, HistoryOk, FieldsOk, CeremonyOk, ReversalBacked, ReceiptBacked, BankConfirmed,
      NoncesDistinct, EntriesOk, ReversalsOk, OneEntryEach;
    ReachableInvariant(env, pipeline, st);
    DeliveredNotReversed(env, pipeline, st, id);
    assert RunOk(env, st, id, st.runs[id]);
  }

  /** A delivered request got what it asked for, at the consortium's price: with fewer
      than `quorum` corrupt members, what was dispensed is the request's units to the
      request's meter, under a debit the bank signed and confirmed for exactly this
      request at the price of those units. */
  lemma DeliveredAsRequested(env: Env, c: Open.Consortium, es: seq<JointEvent>, id: Text) returns (k: nat, i: nat)
    requires Open.Setting(env, c) && |c.corrupt| < env.quorum && AdmitsAll(env, c, TOGETHER, es)
    requires id in ActAll(env, c, TOGETHER, es).st.runs
    requires ActAll(env, c, TOGETHER, es).st.runs[id].record.status == Delivered
    ensures var st := ActAll(env, c, TOGETHER, es).st;
            var request := st.runs[id].record.request;
            && request.requestId == id && k < |st.outside.bank.log| && i < |st.meter.dispensed|
            && var entry := st.outside.bank.log[k];
            && var p := entry.debit.payload;
            && st.runs[id].record.debit.Some? && st.runs[id].record.debit.value.payload == p
            && entry.outcome == Outcome.Confirmed && entry.debit.bankSignature == SignedBy(env.bankKey, p)
            && p.requestId == id && p.meterId == request.meterId && p.amountKwh == request.amountKwh
            && p.amount == env.price(request.amountKwh) && p.currency == env.currency
            && st.meter.dispensed[i] == Dispense(request.meterId, request.amountKwh, p.debitRef)
  {
    hide AdmitsAll, ActAll, Invariant, Open.Setting, Reachable, OpenWorldTheorems.Reachable, BankConfirmed, Approving,
      HashRequest, Signs, Receipt, TokenFor, OneEntryEach, OpenWorldTheorems.PaidFor, Open.Endorsed,
      Open.SignersInvariant, Open.LedgerInvariant, Open.DispenseInvariant, EntriesOk, ReversalsOk;
    var j := ActAll(env, c, TOGETHER, es);
    var pipeline, world := JointRun(env, c, es);
    DeliveredHasEvidence(env, pipeline, j.st, id);
    HeldDebit(env, pipeline, j.st, id);
    var request, p := j.st.runs[id].record.request, j.st.runs[id].record.debit.value.payload;
    var s := HonestApprover(env.members, j.w.ledger, HashRequest(env, request), c.corrupt, env.quorum);
    OpenWorldTheorems.ReachableInvariant(env, c, world, j.w);
    OpenWorldTheorems.HonestApproverEndorsed(env, c, j.w, request, s);
    OpenWorldTheorems.EndorsedIsPaid(env, j.w.bank, request);
    k := PaidEntry(env, j.w.bank.log, request);
    SamePaid(env.bankKey, j.w.bank, p, k);
    i :| 0 <= i < |j.st.meter.dispensed|
         && j.st.meter.dispensed[i] == Dispense(p.meterId, p.amountKwh, p.debitRef);
  }

  lemma PaidEntry(env: Env, log: seq<Entry>, request: Request) returns (k: nat)
    requires OpenWorldTheorems.PaidFor(env, log, request)
    ensures k < |log| && log[k].outcome == Outcome.Confirmed
    ensures var p := log[k].debit.payload;
            && log[k].debit.bankSignature == SignedBy(env.bankKey, p) && p.requestId == request.requestId
            && p.meterId == request.meterId && p.amountKwh == request.amountKwh
            && p.amount == env.price(request.amountKwh) && p.currency == env.currency
  {
    k :| 0 <= k < |log| && log[k].outcome == Outcome.Confirmed
         && log[k].debit.bankSignature == SignedBy(env.bankKey, log[k].debit.payload)
         && log[k].debit.payload.requestId == request.requestId && log[k].debit.payload.meterId == request.meterId
         && log[k].debit.payload.amountKwh == request.amountKwh
         && log[k].debit.payload.amount == env.price(request.amountKwh)
         && log[k].debit.payload.currency == env.currency;
  }

  lemma HonestSigning(env: Env, c: Open.Consortium, w: Open.World, message: Text) returns (s: SignerId,
                      signing: Signer.Signing)
    requires Open.Setting(env, c) && |Open.Contributors(c, w, message)| >= env.threshold
    ensures s !in c.corrupt && s in w.signers && signing in w.signers[s].signings && signing.released
    ensures signing.body.message == message
  {
    hide Open.Contributors;
    s := Open.HonestContributor(env, c, w, message);
    var i :| 0 <= i < |w.signers[s].signings| && w.signers[s].signings[i].released
             && w.signers[s].signings[i].body.message == message;
    signing := w.signers[s].signings[i];
  }
}
