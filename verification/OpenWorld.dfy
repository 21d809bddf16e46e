/** The protocol when the coordinator is an arbitrary sender and fewer than
    `threshold` members are corrupt: whatever is presented, to whom and in which
    order, the honest members and the meter alone keep one debit to one token
    (server/src/signer/index.ts:169-234, 267-357, server/src/signer/verify.ts:93-128,
    server/src/coordinator/meter.ts:22-47, server/src/bank/index.ts:69-158). */
module OpenWorld {
  import opened Approvals
  import opened Attestation
  import opened Bank
  import opened Canonical
  import opened Meter
  import opened Printer
  import opened Signer
  import opened Types
  import opened Verify
  import opened Wrappers

  /** The members that do as they please. */
  datatype Consortium = Consortium(corrupt: set<SignerId>)

  datatype World = World(bank: BankState, ledger: seq<Tx>, signers: map<SignerId, SignerState>, meter: MeterState)

  const START := World(BankState(Confirm, [], []), [], map s | s in ALL_SIGNERS :: BOOTED, EMPTY_METER)

  datatype WorldEvent =
    | AtBank(bankEvent: BankEvent)
    | Posted(tx: Tx)
    | Attested(account: Text, txHash: Text, refusing: bool, requestHash: Text, request: Request, debit: Debit)
    | AtSigner(signer: SignerId, signerEvent: SignerEvent)
    | LedgerRead(reader: SignerId, call: nat, asOf: Option<nat>, signingThrows: bool)
    | Presented(token: Token)

  // ---- steps ------------------------------------------------------------------------

  /** What the awaited ledger read gives a waiting call; a stale view is allowed, and
      a view with a member's null approval makes the read throw. */
  function ReadCount(env: Env, c: Consortium, w: World, s: SignerId, call: nat, asOf: Option<nat>): Option<nat> {
    if asOf.None? || asOf.value > |w.ledger| || s !in w.signers || call !in w.signers[s].pending then None
    else if ReadThrows(Window(w.ledger, asOf.value), env.members) then None
    else Some(CountedAt(w.ledger, asOf.value, env.members, HashRequest(env, w.signers[s].pending[call].body.request)))
  }

  function Step(env: Env, c: Consortium, w: World, ev: WorldEvent): World {
    match ev
    case AtBank(e) => w.(bank := Bank.Apply(env.bankKey, w.bank, e))
    case Posted(tx) => w.(ledger := w.ledger + [tx])
    case Attested(account, txHash, refusing, h, request, debit) =>
      w.(ledger := w.ledger + [Tx(account, [ApprovalMemo(h, Attest(env, refusing, h, request, debit))], txHash)])
    case AtSigner(s, e) =>
      if s in w.signers then w.(signers := w.signers[s := Signer.Apply(env, w.signers[s], e)]) else w
    case LedgerRead(s, call, asOf, throws) =>
      if s !in w.signers then w
      else
        var answer := LedgerAnswered(call, ReadCount(env, c, w, s, call, asOf), throws);
        w.(signers := w.signers[s := Signer.Apply(env, w.signers[s], answer)])
    case Presented(token) => w.(meter := DeliverToken(env, w.meter, token).0)
  }

  function Play(env: Env, c: Consortium, w: World, evs: seq<WorldEvent>): World
    decreases |evs|
  {
    if evs == [] then w else Play(env, c, Step(env, c, w, evs[0]), evs[1..])
  }

  // ---- what the sender cannot do -------------------------------------------------------

  /** The bank's signature exists only on payloads the bank confirmed. */
  ghost predicate BankUnforged(env: Env, w: World, debit: Debit) {
    VerifyBankSignature(debit, env.bankKey) ==> BankConfirmed(w.bank.log, debit.payload)
  }

  ghost predicate Released(st: SignerState, message: Text) {
    exists i :: 0 <= i < |st.signings| && st.signings[i].released && st.signings[i].body.message == message
  }

  /** Who can contribute a partial signature on a message. */
  ghost function Contributors(c: Consortium, w: World, message: Text): set<SignerId> {
    set s | s in ALL_SIGNERS && (s in c.corrupt || (s in w.signers && Released(w.signers[s], message)))
  }

  /** The group signature exists only with `threshold` partials. */
  ghost predicate GroupUnforged(env: Env, c: Consortium, w: World, token: Token) {
    token.signature.GroupSigned? ==> |Contributors(c, w, token.signature.message)| >= env.threshold
  }

  ghost predicate Allowed(env: Env, c: Consortium, w: World, ev: WorldEvent) {
    match ev
    case AtBank(Debited(_, debitRef, _)) => FreshRef(w.bank, debitRef)
    case AtBank(_) => true
    case Posted(tx) => tx.account in env.members ==> env.members[tx.account] in c.corrupt
    case Attested(account, _, _, _, _, debit) =>
      account in env.members && env.members[account] !in c.corrupt && BankUnforged(env, w, debit)
    case AtSigner(s, Round2Called(_, Some(body), _)) => BankUnforged(env, w, body.debit)
    case AtSigner(s, e) => !e.LedgerAnswered?
    case LedgerRead(_, _, _, _) => true
    case Presented(token) => GroupUnforged(env, c, w, token)
  }

  ghost predicate AllAllowed(env: Env, c: Consortium, w: World, evs: seq<WorldEvent>)
    decreases |evs|
  {
    evs == [] || (Allowed(env, c, w, evs[0]) && AllAllowed(env, c, Step(env, c, w, evs[0]), evs[1..]))
  }

  lemma PlayOne(env: Env, c: Consortium, w: World, ev: WorldEvent)
    ensures Play(env, c, w, [ev]) == Step(env, c, w, ev)
    ensures AllAllowed(env, c, w, [ev]) <==> Allowed(env, c, w, ev)
  {
    hide Step, Allowed;
    assert [ev][1..] == [];
    assert Play(env, c, Step(env, c, w, ev), []) == Step(env, c, w, ev);
    assert AllAllowed(env, c, Step(env, c, w, ev), []);
  }

  lemma PlayNone(env: Env, c: Consortium, w: World)
    ensures Play(env, c, w, []) == w && AllAllowed(env, c, w, [])
  {
  }

  lemma {:induction false} PlayAppend(env: Env, c: Consortium, w: World, a: seq<WorldEvent>,
                                      b: seq<WorldEvent>)
    ensures Play(env, c, w, a + b) == Play(env, c, Play(env, c, w, a), b)
    ensures AllAllowed(env, c, w, a + b) <==>
            AllAllowed(env, c, w, a) && AllAllowed(env, c, Play(env, c, w, a), b)
    decreases |a|
  {
    hide Step, Allowed;
    if a == [] {
      assert a + b == b;
    } else {
      assert (a + b)[1..] == a[1..] + b;
      PlayAppend(env, c, Step(env, c, w, a[0]), a[1..], b);
    }
  }

  /** The standing hypotheses. */
  ghost predicate Setting(env: Env, c: Consortium) {
    && NumberPrinter(env.number) && CollisionFree(env.sha256Hex)
    && c.corrupt <= ALL_SIGNERS && |c.corrupt| < env.threshold
  }

  // ---- the invariant ---------------------------------------------------------------------

  /** A body that passed the member's checks and whose debit the bank confirmed. */
  ghost predicate Checked(env: Env, log: seq<Entry>, body: Round2Body) {
    RunWall1TokenChecks(env, body) == None && BankConfirmed(log, body.debit.payload)
  }

  /** A member validated a bank-confirmed debit for this very request. */
  ghost predicate Endorsed(env: Env, log: seq<Entry>, request: Request) {
    exists debit :: ValidateDebitForRequest(env, request, debit) == None && BankConfirmed(log, debit.payload)
  }

  ghost predicate MemberInvariant(env: Env, c: Consortium, log: seq<Entry>, ledger: seq<Tx>, st: SignerState) {
    && (forall k :: k in st.pending ==> Checked(env, log, st.pending[k].body))
    && (forall i :: 0 <= i < |st.signings| ==>
          && Checked(env, log, st.signings[i].body)
          && |Approving(env.members, ledger, HashRequest(env, st.signings[i].body.request))| >= env.quorum)
  }

  ghost predicate SignersInvariant(env: Env, c: Consortium, log: seq<Entry>, ledger: seq<Tx>, signers: map<SignerId,
                                   SignerState>) {
    forall s :: s in signers ==> MemberInvariant(env, c, log, ledger, signers[s])
  }

  /** An honest member's approval is of a request it validated. */
  ghost predicate HonestApproval(env: Env, log: seq<Entry>, tx: Tx) {
    forall h :: FirstVerdict(tx.memos, h) == Some(Approve) ==>
                  exists request :: HashRequest(env, request) == h && Endorsed(env, log, request)
  }

  ghost predicate LedgerInvariant(env: Env, c: Consortium, log: seq<Entry>, ledger: seq<Tx>) {
    forall i ::
      0 <= i < |ledger| && ledger[i].account in env.members && env.members[ledger[i].account] !in c.corrupt ==>
                  HonestApproval(env, log, ledger[i])
  }

  ghost predicate ConfirmedDispense(log: seq<Entry>, d: Dispense) {
    exists i :: 0 <= i < |log| && log[i].outcome == Outcome.Confirmed && log[i].debit.payload.debitRef == d.debitRef
                && log[i].debit.payload.meterId == d.meterId && log[i].debit.payload.amountKwh == d.amountKwh
  }

  ghost predicate DispenseInvariant(log: seq<Entry>, meter: MeterState) {
    && MeterInvariant(meter)
    && forall i :: 0 <= i < |meter.dispensed| ==> ConfirmedDispense(log, meter.dispensed[i])
  }

  ghost predicate Invariant(env: Env, c: Consortium, w: World) {
    && BankInvariant(env.bankKey, w.bank)
    && SignersInvariant(env, c, w.bank.log, w.ledger, w.signers)
    && LedgerInvariant(env, c, w.bank.log, w.ledger)
    && DispenseInvariant(w.bank.log, w.meter)
  }

  // ---- what only grows ----------------------------------------------------------------------

  lemma DispensesStay(log: seq<Entry>, log': seq<Entry>)
    requires Extends(log, log')
    ensures forall d :: ConfirmedDispense(log, d) ==> ConfirmedDispense(log', d)
  {
    forall d | ConfirmedDispense(log, d)
      ensures ConfirmedDispense(log', d)
    {
      var i :| 0 <= i < |log| && log[i].outcome == Outcome.Confirmed && log[i].debit.payload.debitRef == d.debitRef
               && log[i].debit.payload.meterId == d.meterId && log[i].debit.payload.amountKwh == d.amountKwh;
      assert log'[i].debit == log[i].debit;
    }
  }

  lemma EndorsedStays(env: Env, log: seq<Entry>, log': seq<Entry>)
    requires Extends(log, log')
    ensures forall r :: Endorsed(env, log, r) ==> Endorsed(env, log', r)
    ensures forall tx :: HonestApproval(env, log, tx) ==> HonestApproval(env, log', tx)
  {
    hide ValidateDebitForRequest, HashRequest, FirstVerdict, BankConfirmed;
    ConfirmedStays(log, log');
    forall tx | HonestApproval(env, log, tx)
      ensures HonestApproval(env, log', tx)
    {
      forall h | FirstVerdict(tx.memos, h) == Some(Approve)
        ensures exists request :: HashRequest(env, request) == h && Endorsed(env, log', request)
      {
        var request :| HashRequest(env, request) == h && Endorsed(env, log, request);
      }
    }
  }

  lemma MemberStays(env: Env, c: Consortium, log: seq<Entry>, log': seq<Entry>, ledger: seq<Tx>, ledger': seq<Tx>,
                    st: SignerState)
    requires MemberInvariant(env, c, log, ledger, st) && Extends(log, log')
    requires ledger' == ledger || (ledger' != [] && ledger'[..|ledger'| - 1] == ledger)
    ensures MemberInvariant(env, c, log', ledger', st)
  {
    hide RunWall1TokenChecks, HashRequest, BankConfirmed, Approving;
    ConfirmedStays(log, log');
    if ledger' != ledger {
      assert ledger' == ledger + [ledger'[|ledger|]];
      forall i | 0 <= i < |st.signings|
        ensures |Approving(env.members, ledger', HashRequest(env, st.signings[i].body.request))| >= env.quorum
      {
        ApprovingGrows(env.members, ledger, [ledger'[|ledger|]], HashRequest(env, st.signings[i].body.request));
      }
    }
  }

  // ---- each kind of step keeps the invariant ---------------------------------------------------

  lemma BankStepKeeps(env: Env, c: Consortium, w: World, ev: BankEvent)
    requires Invariant(env, c, w) && Allowed(env, c, w, AtBank(ev))
    ensures Invariant(env, c, Step(env, c, w, AtBank(ev)))
  {
    hide BankInvariant, MemberInvariant, HonestApproval, ConfirmedDispense, MeterInvariant, Extends;
    var w' := Step(env, c, w, AtBank(ev));
    match ev {
      case Debited(req, debitRef, at) => DebitKeepsInvariant(env.bankKey, w.bank, req, debitRef, at);
      case Reversed(debitRef) => ReverseKeepsInvariant(env.bankKey, w.bank, debitRef);
      case SetMode(mode) => SetModeKeeps(env, w.bank, mode);
    }
    BankExtends(env.bankKey, w.bank, ev);
    DispensesStay(w.bank.log, w'.bank.log);
    EndorsedStays(env, w.bank.log, w'.bank.log);
    forall s | s in w.signers
      ensures MemberInvariant(env, c, w'.bank.log, w.ledger, w.signers[s])
    {
      MemberStays(env, c, w.bank.log, w'.bank.log, w.ledger, w.ledger, w.signers[s]);
    }
  }

  lemma SetModeKeeps(env: Env, st: BankState, mode: Mode)
    requires BankInvariant(env.bankKey, st)
    ensures BankInvariant(env.bankKey, st.(mode := mode))
  {
  }

  /** A new transaction that keeps the ledger's invariant keeps everything. */
  lemma PostKeeps(env: Env, c: Consortium, w: World, tx: Tx)
    requires Invariant(env, c, w)
    requires tx.account in env.members && env.members[tx.account] !in c.corrupt ==> HonestApproval(env, w.bank.log, tx)
    ensures Invariant(env, c, w.(ledger := w.ledger + [tx]))
  {
    hide BankInvariant, MemberInvariant, HonestApproval, DispenseInvariant, Extends;
    SameLogExtends(w.bank.log);
    var ledger' := w.ledger + [tx];
    assert ledger'[..|ledger'| - 1] == w.ledger;
    forall s | s in w.signers
      ensures MemberInvariant(env, c, w.bank.log, ledger', w.signers[s])
    {
      MemberStays(env, c, w.bank.log, w.bank.log, w.ledger, ledger', w.signers[s]);
    }
  }

  lemma AttestIsHonest(env: Env, c: Consortium, w: World, ev: WorldEvent)
    requires ev.Attested? && Allowed(env, c, w, ev)
    ensures HonestApproval(env, w.bank.log,
                           Tx(ev.account, [ApprovalMemo(ev.requestHash,
                               Attest(env, ev.refusing, ev.requestHash, ev.request, ev.debit))], ev.txHash))
  {
    hide HashRequest, BankConfirmed;
    var verdict := Attest(env, ev.refusing, ev.requestHash, ev.request, ev.debit);
    var memos := [ApprovalMemo(ev.requestHash, verdict)];
    forall h | FirstVerdict(memos, h) == Some(Approve)
      ensures exists request :: HashRequest(env, request) == h && Endorsed(env, w.bank.log, request)
    {
      assert memos[1..] == [] && FirstVerdict([], h) == None;
      assert FirstVerdict(memos, h) == if h == ev.requestHash then Some(verdict) else None;
      assert h == ev.requestHash && verdict == Approve;
      assert HashRequest(env, ev.request) == h && Endorsed(env, w.bank.log, ev.request);
    }
  }

  /** A member event changes the waiting calls and the signings as the checks allow. */
  lemma MemberStepKeeps(env: Env, c: Consortium, log: seq<Entry>, ledger: seq<Tx>, st: SignerState, ev: SignerEvent)
    requires MemberInvariant(env, c, log, ledger, st) && !ev.LedgerAnswered?
    requires ev.Round2Called? && ev.body.Some? && RunWall1TokenChecks(env, ev.body.value) == None ==>
               BankConfirmed(log, ev.body.value.debit.payload)
    ensures MemberInvariant(env, c, log, ledger, Signer.Apply(env, st, ev))
  {
    hide RunWall1TokenChecks, BankConfirmed, HashRequest, Approving;
  }

  lemma ChecksVerifyBank(env: Env, body: Round2Body)
    requires RunWall1TokenChecks(env, body) == None
    ensures VerifyBankSignature(body.debit, env.bankKey)
    ensures ValidateDebitForRequest(env, body.request, body.debit) == None
    ensures body.message == Message(env, body.tokenPayload)
    ensures body.tokenPayload == BuildTokenPayload(env, body.debit.payload)
  {
    hide Message, DeriveTokenNonce;
  }

  lemma AtSignerKeeps(env: Env, c: Consortium, w: World, s: SignerId, ev: SignerEvent)
    requires Invariant(env, c, w) && Allowed(env, c, w, AtSigner(s, ev))
    ensures Invariant(env, c, Step(env, c, w, AtSigner(s, ev)))
  {
    hide BankInvariant, MemberInvariant, LedgerInvariant, DispenseInvariant, RunWall1TokenChecks, BankConfirmed,
      Signer.Apply;
    if s in w.signers {
      if ev.Round2Called? && ev.body.Some? && RunWall1TokenChecks(env, ev.body.value) == None {
        ChecksVerifyBank(env, ev.body.value);
      }
      MemberStepKeeps(env, c, w.bank.log, w.ledger, w.signers[s], ev);
    }
  }

  lemma AnswerKeeps(env: Env, c: Consortium, log: seq<Entry>, ledger: seq<Tx>, st: SignerState,
                    call: nat, count: Option<nat>, throws: bool)
    requires MemberInvariant(env, c, log, ledger, st)
    requires call in st.pending && count.Some? ==>
               count.value <= |Approving(env.members, ledger, HashRequest(env, st.pending[call].body.request))|
    ensures MemberInvariant(env, c, log, ledger, Signer.Apply(env, st, LedgerAnswered(call, count, throws)))
  {
    hide RunWall1TokenChecks, BankConfirmed, HashRequest, Approving;
  }

  lemma ReadKeeps(env: Env, c: Consortium, w: World, s: SignerId, call: nat, asOf: Option<nat>, throws: bool)
    requires Invariant(env, c, w)
    ensures Invariant(env, c, Step(env, c, w, LedgerRead(s, call, asOf, throws)))
  {
    hide BankInvariant, MemberInvariant, LedgerInvariant, DispenseInvariant, Signer.Apply, CountedAt, HashRequest,
      Approving;
    if s in w.signers {
      var count := ReadCount(env, c, w, s, call, asOf);
      if count.Some? {
        CountedOnLedger(w.ledger, asOf.value, env.members, HashRequest(env, w.signers[s].pending[call].body.request));
      }
      AnswerKeeps(env, c, w.bank.log, w.ledger, w.signers[s], call, count, throws);
    }
  }

  /** A group signature that exists is the work of an honest member too. */
  lemma HonestContributor(env: Env, c: Consortium, w: World, message: Text) returns (s: SignerId)
    requires |c.corrupt| < env.threshold <= |Contributors(c, w, message)|
    ensures s !in c.corrupt && s in w.signers && Released(w.signers[s], message)
  {
    hide Released;
    var all := Contributors(c, w, message);
    if all <= c.corrupt {
      SubsetSize(all, c.corrupt);
    }
    s :| s in all && s !in c.corrupt;
  }

  /** A member's partial on a token's message fixes the token to a confirmed debit. */
  lemma PartialFixesToken(env: Env, log: seq<Entry>, body: Round2Body, p: TokenPayload)
    requires NumberPrinter(env.number) && Checked(env, log, body) && body.message == Message(env, p)
    ensures ConfirmedDispense(log, Dispense(p.meterId, p.amountKwh, p.debitRef))
  {
    hide RunWall1TokenChecks, Message, DeriveTokenNonce, NumberPrinter;
    ChecksVerifyBank(env, body);
    MessageInjective(env, body.tokenPayload, p);
    var i :| 0 <= i < |log| && log[i].debit.payload == body.debit.payload && log[i].outcome == Outcome.Confirmed;
    assert log[i].debit.payload.debitRef == p.debitRef;
  }

  lemma AcceptedIsConfirmed(env: Env, c: Consortium, w: World, token: Token)
    requires Setting(env, c) && Invariant(env, c, w) && GroupUnforged(env, c, w, token)
    requires VerifyTokenForMeter(env, w.meter, token) == Accepted
    ensures var p := token.payload; ConfirmedDispense(w.bank.log, Dispense(p.meterId, p.amountKwh, p.debitRef))
  {
    hide Checked, Message, NumberPrinter, CollisionFree, BankInvariant, LedgerInvariant, DispenseInvariant,
      ConfirmedDispense, Contributors, Approving;
    var message := Message(env, token.payload);
    var s := HonestContributor(env, c, w, message);
    var st := w.signers[s];
    var i :| 0 <= i < |st.signings| && st.signings[i].released && st.signings[i].body.message == message;
    PartialFixesToken(env, w.bank.log, st.signings[i].body, token.payload);
  }

  lemma PresentedKeeps(env: Env, c: Consortium, w: World, token: Token)
    requires Setting(env, c) && Invariant(env, c, w) && GroupUnforged(env, c, w, token)
    ensures Invariant(env, c, Step(env, c, w, Presented(token)))
  {
    hide Setting, BankInvariant, SignersInvariant, LedgerInvariant, ConfirmedDispense, MeterInvariant, GroupUnforged,
      Message;
    DeliverKeepsInvariant(env, w.meter, token);
    if VerifyTokenForMeter(env, w.meter, token) == Accepted {
      AcceptedIsConfirmed(env, c, w, token);
    }
  }

  lemma StepKeeps(env: Env, c: Consortium, w: World, ev: WorldEvent)
    requires Setting(env, c) && Invariant(env, c, w) && Allowed(env, c, w, ev)
    ensures Invariant(env, c, Step(env, c, w, ev))
  {
    hide Setting, Invariant, HonestApproval, Attest;
    match ev
    case AtBank(e) => BankStepKeeps(env, c, w, e);
    case Posted(tx) => PostKeeps(env, c, w, tx);
    case Attested(account, txHash, refusing, h, request, debit) =>
      AttestIsHonest(env, c, w, ev);
      PostKeeps(env, c, w, Tx(account, [ApprovalMemo(h, Attest(env, refusing, h, request, debit))], txHash));
    case AtSigner(s, e) => AtSignerKeeps(env, c, w, s, e);
    case LedgerRead(s, call, asOf, throws) => ReadKeeps(env, c, w, s, call, asOf, throws);
    case Presented(token) => PresentedKeeps(env, c, w, token);
  }

  lemma {:induction false} RunKeeps(env: Env, c: Consortium, w: World, evs: seq<WorldEvent>)
    requires Setting(env, c) && Invariant(env, c, w) && AllAllowed(env, c, w, evs)
    ensures Invariant(env, c, Play(env, c, w, evs))
    decreases |evs|
  {
    hide Setting, Invariant, Allowed, Step;
    if evs != [] {
      StepKeeps(env, c, w, evs[0]);
      RunKeeps(env, c, Step(env, c, w, evs[0]), evs[1..]);
    }
  }

  lemma StartInvariant(env: Env, c: Consortium)
    ensures Invariant(env, c, START)
  {
  }
}
