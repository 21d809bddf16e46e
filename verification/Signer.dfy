/** One consortium member: the session table and the two ceremony rounds
    (server/src/signer/index.ts:79-95, 143-163, 267-357). A nonce pair made in
    round 1 is named by a number; the await between the session lookup and the
    signature splits round 2 into a beginning and an end. */
module Signer {
  import opened Canonical
  import opened Lists
  import opened Types
  import opened Verify
  import opened Wrappers

  const SESSION_TTL_MS := 300_000

  datatype Session = Session(nonce: nat, createdAt: int)

  /** A round-2 call waiting for the ledger, with the session it looked up. */
  datatype PendingCall = PendingCall(sessionId: Text, nonce: nat, body: Round2Body)

  /** One entry into round2Sign; `released` when it did not throw. */
  datatype Signing = Signing(nonce: nat, body: Round2Body, released: bool)

  datatype SignerState = SignerState(
    online: bool, refuse: bool, keysPresent: bool,
    sessions: map<Text, Session>, pending: map<nat, PendingCall>,
    nextNonce: nat, nextCall: nat, signings: seq<Signing>)

  const BOOTED := SignerState(true, false, true, map[], map[], 0, 0, [])

  datatype Reply =
    | Status(code: int)
    | Waiting(call: nat) // no answer yet: the ledger read is awaited
    | NoAnswer           // the ledger read threw

  // ---- the handlers as functions of the state -----------------------------------

  function Sweep(sessions: map<Text, Session>, now: int): map<Text, Session> {
    map id | id in sessions && !(sessions[id].createdAt < now - SESSION_TTL_MS) :: sessions[id]
  }

  function Round1(st: SignerState, sessionId: Text, now: int): (SignerState, Reply) {
    if !st.online || !st.keysPresent then (st, Status(503))
    else if sessionId == [] then (st, Status(400))
    else
      (st.(sessions := Sweep(st.sessions, now)[sessionId := Session(st.nextNonce, now)], nextNonce := st.nextNonce + 1),
       Status(200))
  }

  /** Round 2 up to the ledger read. No session id, or no body, stands for a
      request that fails the shape checks. */
  function Round2Begin(env: Env, st: SignerState, sessionId: Option<Text>, body: Option<Round2Body>, now: int)
    : (SignerState, Reply)
  {
    if !st.online then (st, Status(503))
    else
      var swept := st.(sessions := Sweep(st.sessions, now));
      if st.refuse then
        (if sessionId.Some? then swept.(sessions := swept.sessions - {sessionId.value}) else swept, Status(403))
      else if sessionId.None? || sessionId.value !in swept.sessions then (swept, Status(400))
      else if !st.keysPresent then (swept, Status(503))
      else if body.None? then (swept, Status(400))
      else
        match RunWall1TokenChecks(env, body.value)
        case Some(failure) => (swept.(sessions := swept.sessions - {sessionId.value}), Status(failure.status))
        case None =>
          var call := PendingCall(sessionId.value, swept.sessions[sessionId.value].nonce, body.value);
          (swept.(pending := st.pending[st.nextCall := call], nextCall := st.nextCall + 1), Waiting(st.nextCall))
  }

  /** Round 2 from the ledger read on. No count stands for a read that threw: the
      call ends there and its session stays in the table. */
  function Round2Finish(env: Env, st: SignerState, call: nat, count: Option<nat>, signingThrows: bool): (SignerState,
                        Reply)
    requires call in st.pending
  {
    var p := st.pending[call];
    var ended := st.(pending := st.pending - {call});
    match count
    case None => (ended, NoAnswer)
    case Some(n) =>
      var consumed := ended.(sessions := st.sessions - {p.sessionId});
      if n < env.quorum then (consumed, Status(409))
      else
        (consumed.(signings := st.signings + [Signing(p.nonce, p.body, !signingThrows)]),
         Status(if signingThrows then 500 else 200))
  }

  // ---- runs of one signer ---------------------------------------------------------

  datatype SignerEvent =
    | SetOnline(online: bool)
    | SetRefuse(refuse: bool)
    | SweepTick(now: int)
    | Round1Called(sessionId: Text, now: int)
    | Round2Called(maybeSession: Option<Text>, body: Option<Round2Body>, now: int)
    | LedgerAnswered(call: nat, count: Option<nat>, signingThrows: bool)

  function Apply(env: Env, st: SignerState, ev: SignerEvent): SignerState {
    match ev
    case SetOnline(b) => st.(online := b)
    case SetRefuse(b) => st.(refuse := b)
    case SweepTick(now) => st.(sessions := Sweep(st.sessions, now))
    case Round1Called(sid, now) => Round1(st, sid, now).0
    case Round2Called(sid, body, now) => Round2Begin(env, st, sid, body, now).0
    case LedgerAnswered(call, count, throws) =>
      if call in st.pending then Round2Finish(env, st, call, count, throws).0 else st
  }

  function Run(env: Env, st: SignerState, evs: seq<SignerEvent>): SignerState
    decreases |evs|
  {
    if evs == [] then st else Run(env, Apply(env, st, evs[0]), evs[1..])
  }

  /** A call on this session would look up nonces that a waiting call already holds. */
  predicate Overlaps(st: SignerState, sessionId: Option<Text>) {
    && sessionId.Some? && sessionId.value in st.sessions
    && exists c :: c in st.pending && st.pending[c].nonce == st.sessions[sessionId.value].nonce
  }

  ghost predicate NonOverlapping(env: Env, st: SignerState, evs: seq<SignerEvent>)
    decreases |evs|
  {
    evs == [] ||
    (&& (evs[0].Round2Called? ==> !Overlaps(st, evs[0].maybeSession))
     && NonOverlapping(env, Apply(env, st, evs[0]), evs[1..]))
  }

  ghost function NoncesUsed(st: SignerState): (r: seq<nat>)
    ensures |r| == |st.signings| && forall i :: 0 <= i < |r| ==> r[i] == st.signings[i].nonce
  {
    seq(|st.signings|, i requires 0 <= i < |st.signings| => st.signings[i].nonce)
  }

  // ---- every nonce pair signs at most once -----------------------------------------

  /** No nonce or call number is taken before it is given out. */
  ghost predicate Numbered(st: SignerState) {
    && (forall id :: id in st.sessions ==> st.sessions[id].nonce < st.nextNonce)
    && (forall c :: c in st.pending ==> st.pending[c].nonce < st.nextNonce && c < st.nextCall)
    && (forall s :: s in st.signings ==> s.nonce < st.nextNonce)
  }

  /** A nonce is in one session, and a waiting call's nonce in no session but the call's own. */
  ghost predicate SessionsApart(st: SignerState) {
    && (forall id, id' ::
          id in st.sessions && id' in st.sessions && st.sessions[id].nonce == st.sessions[id'].nonce ==> id == id')
    && (forall c, id :: c in st.pending && id in st.sessions && st.pending[c].nonce == st.sessions[id].nonce ==>
        id == st.pending[c].sessionId)
  }

  /** A nonce is in one session and one waiting call at most, and that call is on that session. */
  ghost predicate Apart(st: SignerState) {
    && SessionsApart(st)
    && (forall c, c' :: c in st.pending && c' in st.pending && st.pending[c].nonce == st.pending[c'].nonce ==> c == c')
  }

  /** A nonce that signed is in no session and no waiting call. */
  ghost predicate Spent(st: SignerState) {
    && (forall s, id :: s in st.signings && id in st.sessions ==> s.nonce != st.sessions[id].nonce)
    && (forall s, c :: s in st.signings && c in st.pending ==> s.nonce != st.pending[c].nonce)
  }

  ghost predicate NonceInvariant(st: SignerState) {
    Numbered(st) && Apart(st) && Spent(st) && Distinct(NoncesUsed(st))
  }

  /** Sessions and waiting calls only go away, and nothing signs. */
  ghost predicate Shrinks(st: SignerState, st': SignerState) {
    && (forall id :: id in st'.sessions ==> id in st.sessions && st'.sessions[id] == st.sessions[id])
    && (forall c :: c in st'.pending ==> c in st.pending && st'.pending[c] == st.pending[c])
    && st'.signings == st.signings && st'.nextNonce == st.nextNonce && st'.nextCall == st.nextCall
  }

  lemma ShrinkingKeepsNonces(st: SignerState, st': SignerState)
    requires NonceInvariant(st) && Shrinks(st, st')
    ensures NonceInvariant(st')
  {
    assert NoncesUsed(st') == NoncesUsed(st);
  }

  /** A fresh nonce enters a session. */
  lemma DrawingKeepsNonces(st: SignerState, sessionId: Text, now: int)
    requires NonceInvariant(st)
    ensures NonceInvariant(st.(sessions := st.sessions[sessionId := Session(st.nextNonce, now)],
                               nextNonce := st.nextNonce + 1))
  {
    var st' := st.(sessions := st.sessions[sessionId := Session(st.nextNonce, now)], nextNonce := st.nextNonce + 1);
    assert NoncesUsed(st') == NoncesUsed(st);
    assert Numbered(st');
    assert Apart(st');
    assert Spent(st');
  }

  /** A call that overlaps no other begins to wait. */
  lemma WaitingKeepsNonces(st: SignerState, sessionId: Text, body: Round2Body)
    requires NonceInvariant(st) && sessionId in st.sessions && !Overlaps(st, Some(sessionId))
    ensures var call := PendingCall(sessionId, st.sessions[sessionId].nonce, body);
            NonceInvariant(st.(pending := st.pending[st.nextCall := call], nextCall := st.nextCall + 1))
  {
    var st' := st.(pending := st.pending[st.nextCall := PendingCall(sessionId, st.sessions[sessionId].nonce, body)],
                   nextCall := st.nextCall + 1);
    assert NoncesUsed(st') == NoncesUsed(st);
    assert Numbered(st');
    assert Apart(st');
    assert Spent(st');
  }

  /** A nonce that is in no session and no waiting call, and did not sign, signs. */
  lemma SigningKeepsNonces(st: SignerState, s: Signing)
    requires NonceInvariant(st) && s.nonce < st.nextNonce && s.nonce !in NoncesUsed(st)
    requires forall id :: id in st.sessions ==> st.sessions[id].nonce != s.nonce
    requires forall c :: c in st.pending ==> st.pending[c].nonce != s.nonce
    ensures NonceInvariant(st.(signings := st.signings + [s]))
  {
    var st' := st.(signings := st.signings + [s]);
    assert NoncesUsed(st') == NoncesUsed(st) + [s.nonce];
    assert Numbered(st') && Apart(st') && Spent(st');
  }

  lemma BeginKeepsNonces(env: Env, st: SignerState, sessionId: Option<Text>, body: Option<Round2Body>, now: int)
    requires NonceInvariant(st) && !Overlaps(st, sessionId)
    ensures NonceInvariant(Round2Begin(env, st, sessionId, body, now).0)
  {
    hide RunWall1TokenChecks, NonceInvariant;
    var swept := st.(sessions := Sweep(st.sessions, now));
    var (st', reply) := Round2Begin(env, st, sessionId, body, now);
    if reply.Waiting? {
      ShrinkingKeepsNonces(st, swept);
      WaitingKeepsNonces(swept, sessionId.value, body.value);
    } else {
      ShrinkingKeepsNonces(st, st');
    }
  }

  lemma FinishKeepsNonces(env: Env, st: SignerState, call: nat, count: Option<nat>, throws: bool)
    requires NonceInvariant(st) && call in st.pending
    ensures NonceInvariant(Round2Finish(env, st, call, count, throws).0)
  {
    var st' := Round2Finish(env, st, call, count, throws).0;
    var before := st'.(signings := st.signings);
    ShrinkingKeepsNonces(st, before);
    if count.Some? && count.value >= env.quorum {
      SigningKeepsNonces(before, Signing(st.pending[call].nonce, st.pending[call].body, !throws));
    }
  }

  lemma StepKeepsNonces(env: Env, st: SignerState, ev: SignerEvent)
    requires NonceInvariant(st) && (ev.Round2Called? ==> !Overlaps(st, ev.maybeSession))
    ensures NonceInvariant(Apply(env, st, ev))
  {
    hide RunWall1TokenChecks, NonceInvariant, Round2Begin, Round2Finish;
    match ev
    case Round1Called(sid, now) =>
      var swept := st.(sessions := Sweep(st.sessions, now));
      ShrinkingKeepsNonces(st, swept);
      DrawingKeepsNonces(swept, sid, now);
    case Round2Called(sid, body, now) =>
      BeginKeepsNonces(env, st, sid, body, now);
    case LedgerAnswered(call, count, throws) =>
      if call in st.pending {
        FinishKeepsNonces(env, st, call, count, throws);
      }
    case _ =>
      ShrinkingKeepsNonces(st, Apply(env, st, ev));
  }

  lemma {:induction false} RunKeepsNonces(env: Env, st: SignerState, evs: seq<SignerEvent>)
    requires NonceInvariant(st) && NonOverlapping(env, st, evs)
    ensures NonceInvariant(Run(env, st, evs))
    decreases |evs|
  {
    if evs != [] {
      StepKeepsNonces(env, st, evs[0]);
      RunKeepsNonces(env, Apply(env, st, evs[0]), evs[1..]);
    }
  }

  /** Without overlapping calls, every nonce pair enters round2Sign at most once:
      across refusals, failed checks, missing quorum, failed ledger reads,
      overwritten sessions and sweeps. */
  lemma NoncesSignOnce(env: Env, evs: seq<SignerEvent>)
    requires NonOverlapping(env, BOOTED, evs)
    ensures Distinct(NoncesUsed(Run(env, BOOTED, evs)))
  {
    RunKeepsNonces(env, BOOTED, evs);
  }

  // ---- calls in pairs of rounds -------------------------------------------------------

  /** Every round 2 follows a round 1 of its own: `drawn` holds the sessions whose
      last round 1 drew nonces that no round 2 presented yet. */
  ghost predicate Paired(env: Env, st: SignerState, evs: seq<SignerEvent>, drawn: set<Text>)
    decreases |evs|
  {
    if evs == [] then true
    else
      var st' := Apply(env, st, evs[0]);
      match evs[0]
      case Round1Called(sid, _) => Paired(env, st', evs[1..], if Draws(st, sid) then drawn + {sid} else drawn)
      case Round2Called(Some(sid), _, _) => sid in drawn && Paired(env, st', evs[1..], drawn - {sid})
      case _ => Paired(env, st', evs[1..], drawn)
  }

  /** No waiting call holds the nonces these sessions hold. */
  ghost predicate Unpresented(st: SignerState, drawn: set<Text>) {
    forall sid :: sid in drawn ==> !Overlaps(st, Some(sid))
  }

  lemma Round1Unpresented(st: SignerState, sid: Text, now: int, drawn: set<Text>)
    requires Numbered(st) && Unpresented(st, drawn)
    ensures Unpresented(Round1(st, sid, now).0, if Draws(st, sid) then drawn + {sid} else drawn)
  {
  }

  lemma Round2Unpresented(env: Env, st: SignerState, sid: Option<Text>, body: Option<Round2Body>, now: int,
                          drawn: set<Text>)
    requires SessionInvariant(st) && Unpresented(st, drawn)
    ensures Unpresented(Round2Begin(env, st, sid, body, now).0, if sid.Some? then drawn - {sid.value} else drawn)
  {
    hide RunWall1TokenChecks;
  }

  lemma OthersUnpresented(env: Env, st: SignerState, ev: SignerEvent, drawn: set<Text>)
    requires Unpresented(st, drawn) && !ev.Round1Called? && !ev.Round2Called?
    ensures Unpresented(Apply(env, st, ev), drawn)
  {
  }

  /** Calls made in pairs of rounds never overlap, whatever times out in between: a
      coordinator that asks a member for a share only after that ceremony's own
      commitment cannot make it reuse a nonce pair. */
  lemma {:induction false} PairedDoNotOverlap(env: Env, st: SignerState, evs: seq<SignerEvent>, drawn: set<Text>)
    requires SessionInvariant(st) && Unpresented(st, drawn) && Paired(env, st, evs, drawn)
    ensures NonOverlapping(env, st, evs)
    decreases |evs|
  {
    hide Apply, SessionInvariant, Overlaps, Draws;
    if evs != [] {
      var ev, st' := evs[0], Apply(env, st, evs[0]);
      StepKeepsSessions(env, st, ev);
      match ev
      case Round1Called(sid, now) =>
        Round1Step(env, st, sid, now, drawn);
        PairedDoNotOverlap(env, st', evs[1..], if Draws(st, sid) then drawn + {sid} else drawn);
      case Round2Called(Some(sid), body, now) =>
        Round2Step(env, st, Some(sid), body, now, drawn);
        PairedDoNotOverlap(env, st', evs[1..], drawn - {sid});
      case Round2Called(None, body, now) =>
        Round2Step(env, st, None, body, now, drawn);
        NoSessionNoOverlap(st);
        PairedDoNotOverlap(env, st', evs[1..], drawn);
      case _ =>
        OthersUnpresented(env, st, ev, drawn);
        PairedDoNotOverlap(env, st', evs[1..], drawn);
    }
  }

  lemma Round1Step(env: Env, st: SignerState, sid: Text, now: int, drawn: set<Text>)
    requires SessionInvariant(st) && Unpresented(st, drawn)
    ensures Unpresented(Apply(env, st, Round1Called(sid, now)), if Draws(st, sid) then drawn + {sid} else drawn)
  {
    hide Unpresented, Round1, Draws;
    Round1Unpresented(st, sid, now, drawn);
  }

  lemma Round2Step(env: Env, st: SignerState, sid: Option<Text>, body: Option<Round2Body>, now: int, drawn: set<Text>)
    requires SessionInvariant(st) && Unpresented(st, drawn)
    ensures Unpresented(Apply(env, st, Round2Called(sid, body, now)), if sid.Some? then drawn - {sid.value} else drawn)
  {
    hide Unpresented, Round2Begin, SessionInvariant;
    Round2Unpresented(env, st, sid, body, now, drawn);
  }

  lemma NoSessionNoOverlap(st: SignerState)
    ensures !Overlaps(st, None)
  {
  }

  /** Hence such calls sign at most once with every nonce pair. */
  lemma PairedSignOnce(env: Env, evs: seq<SignerEvent>)
    requires Paired(env, BOOTED, evs, {})
    ensures Distinct(NoncesUsed(Run(env, BOOTED, evs)))
  {
    BootedSessions();
    PairedDoNotOverlap(env, BOOTED, evs, {});
    NoncesSignOnce(env, evs);
  }

  /** When two waiting calls hold one nonce, letting both reach the ledger signs with it twice. */
  lemma SharedNonceSignsTwice(env: Env, st: SignerState, c: nat, d: nat) returns (evs: seq<SignerEvent>)
    requires c != d && c in st.pending && d in st.pending && st.pending[c].nonce == st.pending[d].nonce
    ensures NonOverlapping(env, st, evs) && !Distinct(NoncesUsed(Run(env, st, evs)))
  {
    var first, second := LedgerAnswered(c, Some(env.quorum), false), LedgerAnswered(d, Some(env.quorum), false);
    evs := [first, second];
    var st1 := Apply(env, st, first);
    var st2 := Apply(env, st1, second);
    assert evs[1..] == [second] && [second][1..] == [];
    assert Run(env, st, evs) == Run(env, st1, [second]) == Run(env, st2, []) == st2;
    assert NonOverlapping(env, st1, [second]);
    var n := |st.signings|;
    assert NoncesUsed(st2)[n] == NoncesUsed(st2)[n + 1];
  }

  /** The hypothesis is exact: when a call is admitted to wait, some continuation
      without further overlaps reuses a nonce if and only if the call overlapped. */
  lemma ReuseIffOverlap(env: Env, st: SignerState, sessionId: Option<Text>, body: Option<Round2Body>, now: int)
    requires NonceInvariant(st) && Round2Begin(env, st, sessionId, body, now).1.Waiting?
    ensures var st' := Round2Begin(env, st, sessionId, body, now).0;
            Overlaps(st, sessionId) <==>
            exists evs :: NonOverlapping(env, st', evs) && !Distinct(NoncesUsed(Run(env, st', evs)))
  {
    hide RunWall1TokenChecks, NonOverlapping, Run, Distinct;
    var (st', reply) := Round2Begin(env, st, sessionId, body, now);
    if Overlaps(st, sessionId) {
      var c :| c in st.pending && st.pending[c].nonce == st.sessions[sessionId.value].nonce;
      var evs := SharedNonceSignsTwice(env, st', c, reply.call);
    } else {
      BeginKeepsNonces(env, st, sessionId, body, now);
      forall evs | NonOverlapping(env, st', evs)
        ensures Distinct(NoncesUsed(Run(env, st', evs)))
      {
        RunKeepsNonces(env, st', evs);
      }
    }
  }

  /** Two overlapping calls on one session do sign twice with one nonce pair. */
  lemma OverlapReusesNonce(env: Env, sessionId: Text, body: Round2Body)
    requires sessionId != [] && RunWall1TokenChecks(env, body) == None
    ensures NoncesUsed(Run(env, BOOTED, [
                Round1Called(sessionId, 0),
                Round2Called(Some(sessionId), Some(body), 0),
                Round2Called(Some(sessionId), Some(body), 0),
                LedgerAnswered(0, Some(env.quorum), false),
                LedgerAnswered(1, Some(env.quorum), false)])) == [0, 0]
  {
    hide RunWall1TokenChecks, Round1, Round2Begin, Round2Finish, Apply;
    var draw, call := Round1Called(sessionId, 0), Round2Called(Some(sessionId), Some(body), 0);
    var e3, e4 := LedgerAnswered(0, Some(env.quorum), false), LedgerAnswered(1, Some(env.quorum), false);
    var s2 := TwoWaiting(env, sessionId, body);
    var s3 := Apply(env, s2, e3);
    var s4 := Apply(env, s3, e4);
    BothSign(env, s2, e3, e4);
    assert Run(env, s3, [e4]) == Run(env, s4, []) == s4 by {
      assert [e4][1..] == [];
    }
    assert [e3, e4][1..] == [e4];
    assert Run(env, s2, [e3, e4]) == s4;
    assert [call, e3, e4][1..] == [e3, e4];
    assert [call, call, e3, e4][1..] == [call, e3, e4];
    assert [draw, call, call, e3, e4][1..] == [call, call, e3, e4];
    var s0 := Apply(env, BOOTED, draw);
    assert Run(env, Apply(env, s0, call), [call, e3, e4]) == Run(env, s2, [e3, e4]);
    assert Run(env, s0, [call, call, e3, e4]) == s4;
  }

  lemma TwoWaiting(env: Env, sessionId: Text, body: Round2Body) returns (s2: SignerState)
    requires sessionId != [] && RunWall1TokenChecks(env, body) == None
    ensures var call := Round2Called(Some(sessionId), Some(body), 0);
            s2 == Apply(env, Apply(env, Apply(env, BOOTED, Round1Called(sessionId, 0)), call), call)
    ensures s2.pending == map[0 := PendingCall(sessionId, 0, body), 1 := PendingCall(sessionId, 0, body)]
    ensures s2.signings == []
  {
    hide RunWall1TokenChecks;
    var call := Round2Called(Some(sessionId), Some(body), 0);
    var s0 := Apply(env, BOOTED, Round1Called(sessionId, 0));
    assert s0.sessions == map[sessionId := Session(0, 0)] && Sweep(s0.sessions, 0) == s0.sessions;
    var s1 := Apply(env, s0, call);
    assert s1.sessions == s0.sessions && s1.pending == map[0 := PendingCall(sessionId, 0, body)] && s1.nextCall == 1;
    s2 := Apply(env, s1, call);
  }

  lemma BothSign(env: Env, st: SignerState, a: SignerEvent, b: SignerEvent)
    requires 0 in st.pending && 1 in st.pending && st.pending[0].nonce == st.pending[1].nonce == 0 && st.signings == []
    requires a == LedgerAnswered(0, Some(env.quorum), false) && b == LedgerAnswered(1, Some(env.quorum), false)
    ensures NoncesUsed(Apply(env, Apply(env, st, a), b)) == [0, 0]
  {
    var st1 := Apply(env, st, a);
    assert 1 in st1.pending && st1.signings == [Signing(0, st.pending[0].body, true)];
    assert Apply(env, st1, b).signings == [Signing(0, st.pending[0].body, true), Signing(0, st.pending[1].body, true)];
  }

  // ---- when a presented nonce pair goes away ---------------------------------------------

  /** Session id holds nonce pair n. */
  predicate HeldBy(st: SignerState, id: Text, n: nat) {
    id in st.sessions && st.sessions[id].nonce == n
  }

  predicate Held(st: SignerState, n: nat) {
    exists id :: id in st.sessions && st.sessions[id].nonce == n
  }

  /** n's session is over its lifetime, so a sweep deletes it. */
  predicate Expired(st: SignerState, n: nat, now: int) {
    exists id :: id in st.sessions && st.sessions[id].nonce == n && st.sessions[id].createdAt < now - SESSION_TTL_MS
  }

  /** How an event takes n out of the table: a sweep after its lifetime, a new
      round 1 on its session, a refusal, a failed check or an answered ledger
      read of a call on its session. */
  predicate Removes(env: Env, st: SignerState, ev: SignerEvent, n: nat) {
    match ev
    case SetOnline(_) => false
    case SetRefuse(_) => false
    case SweepTick(now) => Expired(st, n, now)
    case Round1Called(sid, now) => Draws(st, sid) && (Expired(st, n, now) || HeldBy(st, sid, n))
    case Round2Called(sid, body, now) =>
      st.online && (Expired(st, n, now) || (sid.Some? && HeldBy(st, sid.value, n) && DeletesSession(env, st, body)))
    case LedgerAnswered(call, count, _) =>
      call in st.pending && count.Some? && HeldBy(st, st.pending[call].sessionId, n)
  }

  /** A round-2 call deletes its session before the ledger read. */
  predicate DeletesSession(env: Env, st: SignerState, body: Option<Round2Body>) {
    st.refuse || (st.keysPresent && body.Some? && RunWall1TokenChecks(env, body.value).Some?)
  }

  ghost predicate Removed(env: Env, st: SignerState, evs: seq<SignerEvent>, n: nat)
    decreases |evs|
  {
    evs != [] && (Removes(env, st, evs[0], n) || Removed(env, Apply(env, st, evs[0]), evs[1..], n))
  }

  /** What holds in every run, overlapping calls or not: a nonce pair is in one
      session, and a waiting call's pair is in the session it was called on or gone. */
  ghost predicate SessionInvariant(st: SignerState) {
    Numbered(st) && SessionsApart(st)
  }

  lemma DrawKeepsSessions(st: SignerState, sessionId: Text, now: int)
    requires SessionInvariant(st)
    ensures SessionInvariant(st.(sessions := st.sessions[sessionId := Session(st.nextNonce, now)],
                                 nextNonce := st.nextNonce + 1))
  {
  }

  lemma Round1KeepsSessions(st: SignerState, sessionId: Text, now: int)
    requires SessionInvariant(st)
    ensures SessionInvariant(Round1(st, sessionId, now).0)
  {
    hide Sweep, SessionInvariant;
    SweepKeepsSessions(st, now);
    DrawKeepsSessions(st.(sessions := Sweep(st.sessions, now)), sessionId, now);
  }

  lemma SweepKeepsSessions(st: SignerState, now: int)
    requires SessionInvariant(st)
    ensures SessionInvariant(st.(sessions := Sweep(st.sessions, now)))
  {
  }

  /** A call on a held session begins to wait, overlapping or not. */
  lemma WaitKeepsSessions(st: SignerState, sessionId: Text, body: Round2Body)
    requires SessionInvariant(st) && sessionId in st.sessions
    ensures var call := PendingCall(sessionId, st.sessions[sessionId].nonce, body);
            SessionInvariant(st.(pending := st.pending[st.nextCall := call], nextCall := st.nextCall + 1))
  {
  }

  lemma BeginKeepsSessions(env: Env, st: SignerState, sessionId: Option<Text>, body: Option<Round2Body>, now: int)
    requires SessionInvariant(st)
    ensures SessionInvariant(Round2Begin(env, st, sessionId, body, now).0)
  {
    hide RunWall1TokenChecks, Sweep, SessionInvariant;
    var swept := st.(sessions := Sweep(st.sessions, now));
    SweepKeepsSessions(st, now);
    var (st', reply) := Round2Begin(env, st, sessionId, body, now);
    if reply.Waiting? {
      WaitKeepsSessions(swept, sessionId.value, body.value);
    } else if st.online {
      ShrinkingKeepsSessions(swept, st');
    }
  }

  lemma ShrinkingKeepsSessions(st: SignerState, st': SignerState)
    requires SessionInvariant(st) && Shrinks(st, st')
    ensures SessionInvariant(st')
  {
  }

  /** What an answered ledger read does to the sessions. */
  lemma AnsweredSessions(env: Env, st: SignerState, call: nat, count: Option<nat>, throws: bool)
    requires call in st.pending
    ensures Round2Finish(env, st, call, count, throws).0.sessions ==
            if count.Some? then st.sessions - {st.pending[call].sessionId} else st.sessions
  {
  }

  lemma AnsweredRest(env: Env, st: SignerState, call: nat, count: Option<nat>, throws: bool)
    requires call in st.pending
    ensures var st' := Round2Finish(env, st, call, count, throws).0;
            && st'.pending == st.pending - {call} && st'.nextNonce == st.nextNonce && st'.nextCall == st.nextCall
            && forall s :: s in st'.signings ==> s in st.signings || s.nonce == st.pending[call].nonce
  {
  }

  lemma AnswerKeepsSessions(env: Env, st: SignerState, call: nat, count: Option<nat>, throws: bool)
    requires SessionInvariant(st)
    ensures SessionInvariant(Apply(env, st, LedgerAnswered(call, count, throws)))
  {
    hide Round2Finish;
    if call in st.pending {
      AnsweredSessions(env, st, call, count, throws);
      AnsweredRest(env, st, call, count, throws);
      assert Numbered(Round2Finish(env, st, call, count, throws).0);
    }
  }

  lemma StepKeepsSessions(env: Env, st: SignerState, ev: SignerEvent)
    requires SessionInvariant(st)
    ensures SessionInvariant(Apply(env, st, ev))
  {
    hide Round1, Round2Begin, Round2Finish, SessionInvariant;
    match ev
    case Round1Called(sid, now) => Round1KeepsSessions(st, sid, now);
    case Round2Called(sid, body, now) => BeginKeepsSessions(env, st, sid, body, now);
    case LedgerAnswered(call, count, throws) => AnswerKeepsSessions(env, st, call, count, throws);
    case _ => ShrinkingKeepsSessions(st, Apply(env, st, ev));
  }

  lemma {:induction false} RunKeepsSessions(env: Env, st: SignerState, evs: seq<SignerEvent>)
    requires SessionInvariant(st)
    ensures SessionInvariant(Run(env, st, evs))
    decreases |evs|
  {
    hide SessionInvariant, Apply;
    if evs != [] {
      StepKeepsSessions(env, st, evs[0]);
      RunKeepsSessions(env, Apply(env, st, evs[0]), evs[1..]);
    }
  }

  lemma SweepHolds(st: SignerState, now: int, n: nat)
    requires SessionInvariant(st)
    ensures forall id :: HeldBy(st.(sessions := Sweep(st.sessions, now)), id, n) <==>
            HeldBy(st, id, n) && !Expired(st, n, now)
  {
  }

  /** A fresh nonce under a session leaves the other sessions alone. */
  lemma FreshHolds(st: SignerState, sid: Text, now: int, id: Text, n: nat)
    requires n < st.nextNonce
    ensures HeldBy(st.(sessions := st.sessions[sid := Session(st.nextNonce, now)]), id, n) <==>
            id != sid && HeldBy(st, id, n)
  {
    if id != sid {
      assert id in st.sessions[sid := Session(st.nextNonce, now)] <==> id in st.sessions;
    }
  }

  predicate Draws(st: SignerState, sid: Text) {
    st.online && st.keysPresent && sid != []
  }

  lemma DrawnSessions(st: SignerState, sid: Text, now: int)
    ensures Round1(st, sid, now).0.sessions ==
            if Draws(st, sid) then Sweep(st.sessions, now)[sid := Session(st.nextNonce, now)] else st.sessions
  {
  }

  lemma DrawHolds(st: SignerState, sid: Text, now: int, n: nat)
    requires SessionInvariant(st) && n < st.nextNonce
    ensures var st' := Round1(st, sid, now).0;
            Held(st', n) <==> Held(st, n) && !(Draws(st, sid) && (Expired(st, n, now) || HeldBy(st, sid, n)))
  {
    hide Round1, Sweep, Expired, Held, Draws, SessionInvariant, HeldBy;
    var st', swept := Round1(st, sid, now).0, st.(sessions := Sweep(st.sessions, now));
    SomeHolder(st, n);
    SomeHolder(st', n);
    DrawnSessions(st, sid, now);
    if Draws(st, sid) {
      SweepHolds(st, now, n);
      OneHolder(st, n);
      forall id
        ensures HeldBy(st', id, n) <==> HeldBy(st, id, n) && !Expired(st, n, now) && id != sid
      {
        FreshHolds(swept, sid, now, id, n);
        SameSessions(st', swept.(sessions := swept.sessions[sid := Session(st.nextNonce, now)]), id, n);
      }
    } else {
      forall id
        ensures HeldBy(st', id, n) <==> HeldBy(st, id, n)
      {
        SameSessions(st', st, id, n);
      }
    }
  }

  lemma SameSessions(st: SignerState, st': SignerState, id: Text, n: nat)
    requires st.sessions == st'.sessions
    ensures HeldBy(st, id, n) <==> HeldBy(st', id, n)
  {
  }

  lemma OneHolder(st: SignerState, n: nat)
    requires SessionInvariant(st)
    ensures forall id, id' :: HeldBy(st, id, n) && HeldBy(st, id', n) ==> id == id'
  {
  }

  lemma SomeHolder(st: SignerState, n: nat)
    ensures Held(st, n) <==> exists id :: HeldBy(st, id, n)
  {
    if Held(st, n) {
      var id :| id in st.sessions && st.sessions[id].nonce == n;
      assert HeldBy(st, id, n);
    }
  }

  lemma BeginHolds(env: Env, st: SignerState, sid: Option<Text>, body: Option<Round2Body>, now: int, n: nat)
    requires SessionInvariant(st)
    ensures var st' := Round2Begin(env, st, sid, body, now).0;
            Held(st', n) <==>
            Held(st, n)
            && !(st.online && (Expired(st, n, now)
                               || (sid.Some? && HeldBy(st, sid.value, n) && DeletesSession(env, st, body))))
  {
    hide Sweep, Expired, RunWall1TokenChecks;
    SweepHolds(st, now, n);
    SomeHolder(st, n);
    var st' := Round2Begin(env, st, sid, body, now).0;
    SomeHolder(st', n);
    forall id
      ensures HeldBy(st', id, n) <==>
              HeldBy(st, id, n)
              && !(st.online && (Expired(st, n, now)
                                 || (sid.Some? && HeldBy(st, sid.value, n) && DeletesSession(env, st, body))))
    {
      var swept := st.(sessions := Sweep(st.sessions, now));
      assert HeldBy(swept, id, n) <==> HeldBy(st, id, n) && !Expired(st, n, now);
    }
  }

  /** An event takes a pair out of the table exactly when `Removes` says so. */
  lemma StepHolds(env: Env, st: SignerState, ev: SignerEvent, n: nat)
    requires SessionInvariant(st) && n < st.nextNonce
    ensures Held(Apply(env, st, ev), n) <==> Held(st, n) && !Removes(env, st, ev, n)
  {
    hide Round1, Round2Begin, Expired, Sweep;
    SomeHolder(st, n);
    SomeHolder(Apply(env, st, ev), n);
    match ev
    case SweepTick(now) => SweepHolds(st, now, n);
    case Round1Called(sid, now) => DrawHolds(st, sid, now, n);
    case Round2Called(sid, body, now) => BeginHolds(env, st, sid, body, now, n);
    case LedgerAnswered(call, count, throws) => AnswerHolds(env, st, call, count, throws, n);
    case _ => assert forall id :: HeldBy(Apply(env, st, ev), id, n) <==> HeldBy(st, id, n);
  }

  lemma AnswerHolds(env: Env, st: SignerState, call: nat, count: Option<nat>, throws: bool, n: nat)
    requires SessionInvariant(st)
    ensures Held(Apply(env, st, LedgerAnswered(call, count, throws)), n) <==>
            Held(st, n) && !(call in st.pending && count.Some? && HeldBy(st, st.pending[call].sessionId, n))
  {
    hide Round2Finish;
    var st' := Apply(env, st, LedgerAnswered(call, count, throws));
    if call in st.pending {
      AnsweredSessions(env, st, call, count, throws);
    }
    SomeHolder(st, n);
    SomeHolder(st', n);
    assert forall id, id' :: HeldBy(st, id, n) && HeldBy(st, id', n) ==> id == id';
    forall id
      ensures HeldBy(st', id, n) <==>
              HeldBy(st, id, n) && !(call in st.pending && count.Some? && st.pending[call].sessionId == id)
    {
    }
  }

  lemma NumbersGrow(env: Env, st: SignerState, ev: SignerEvent)
    ensures st.nextNonce <= Apply(env, st, ev).nextNonce && st.nextCall <= Apply(env, st, ev).nextCall
  {
    hide RunWall1TokenChecks, Sweep;
  }

  lemma {:induction false} RunHolds(env: Env, st: SignerState, evs: seq<SignerEvent>, n: nat)
    requires SessionInvariant(st) && n < st.nextNonce
    ensures Held(Run(env, st, evs), n) <==> Held(st, n) && !Removed(env, st, evs, n)
    decreases |evs|
  {
    hide SessionInvariant, Apply, Held, Removes;
    if evs != [] {
      StepKeepsSessions(env, st, evs[0]);
      NumbersGrow(env, st, evs[0]);
      StepHolds(env, st, evs[0], n);
      RunHolds(env, Apply(env, st, evs[0]), evs[1..], n);
    }
  }

  /** A waiting call stays what it was until it ends. */
  lemma {:induction false} WaitingStays(env: Env, st: SignerState, evs: seq<SignerEvent>, call: nat)
    requires call < st.nextCall && call in Run(env, st, evs).pending
    ensures call in st.pending && Run(env, st, evs).pending[call] == st.pending[call]
    decreases |evs|
  {
    hide Apply;
    if evs != [] {
      NumbersGrow(env, st, evs[0]);
      WaitingStays(env, Apply(env, st, evs[0]), evs[1..], call);
      StepWaits(env, st, evs[0], call);
    }
  }

  lemma StepWaits(env: Env, st: SignerState, ev: SignerEvent, call: nat)
    requires call < st.nextCall && call in Apply(env, st, ev).pending
    ensures call in st.pending && Apply(env, st, ev).pending[call] == st.pending[call]
  {
    hide RunWall1TokenChecks, Sweep;
  }

  /** A nonce pair whose call was admitted to wait is gone when the call ends if
      and only if the ledger read answered or the pair was removed meanwhile. */
  lemma ConsumedIff(env: Env, evs: seq<SignerEvent>, sessionId: Text, body: Round2Body, now: int,
                    more: seq<SignerEvent>, count: Option<nat>, throws: bool)
    requires Round2Begin(env, Run(env, BOOTED, evs), Some(sessionId), Some(body), now).1.Waiting?
    requires var (st, reply) := Round2Begin(env, Run(env, BOOTED, evs), Some(sessionId), Some(body), now);
             reply.call in Run(env, st, more).pending
    ensures var (st, reply) := Round2Begin(env, Run(env, BOOTED, evs), Some(sessionId), Some(body), now);
            && reply.call in st.pending && HeldBy(st, sessionId, st.pending[reply.call].nonce)
            && (!Held(Apply(env, Run(env, st, more), LedgerAnswered(reply.call, count, throws)),
                      st.pending[reply.call].nonce) <==>
                count.Some? || Removed(env, st, more, st.pending[reply.call].nonce))
  {
    hide RunWall1TokenChecks, Run, Removed, Removes, Apply, SessionInvariant, Held;
    var st0 := Run(env, BOOTED, evs);
    BootedSessions();
    RunKeepsSessions(env, BOOTED, evs);
    var (st, reply) := Round2Begin(env, st0, Some(sessionId), Some(body), now);
    BeginKeepsSessions(env, st0, Some(sessionId), Some(body), now);
    var n := st.pending[reply.call].nonce;
    PendingBounds(st, reply.call);
    SomeHolder(st, n);
    assert HeldBy(st, sessionId, n);
    RunHolds(env, st, more, n);
    WaitingStays(env, st, more, reply.call);
    RunKeepsSessions(env, st, more);
    EndOfCall(env, Run(env, st, more), reply.call, count, throws);
  }

  lemma BootedSessions()
    ensures SessionInvariant(BOOTED)
  {
  }

  lemma PendingBounds(st: SignerState, call: nat)
    requires SessionInvariant(st) && call in st.pending
    ensures call < st.nextCall && st.pending[call].nonce < st.nextNonce
  {
  }

  /** An answered read ends the life of the call's pair; a read that threw does not. */
  lemma EndOfCall(env: Env, st: SignerState, call: nat, count: Option<nat>, throws: bool)
    requires SessionInvariant(st) && call in st.pending
    ensures Held(Apply(env, st, LedgerAnswered(call, count, throws)), st.pending[call].nonce) <==>
            count.None? && Held(st, st.pending[call].nonce)
  {
    hide Apply;
    var n := st.pending[call].nonce;
    AnswerHolds(env, st, call, count, throws, n);
    SomeHolder(st, n);
    assert forall id :: HeldBy(st, id, n) ==> id == st.pending[call].sessionId;
  }

  /** A presented pair whose body fails the checks, or that meets a refusal, is gone at once. */
  lemma FailedCheckConsumes(env: Env, evs: seq<SignerEvent>, sessionId: Text, body: Option<Round2Body>, now: int,
                            n: nat)
    requires HeldBy(Run(env, BOOTED, evs), sessionId, n) && Run(env, BOOTED, evs).online
    requires DeletesSession(env, Run(env, BOOTED, evs), body)
    ensures !Held(Apply(env, Run(env, BOOTED, evs), Round2Called(Some(sessionId), body, now)), n)
  {
    hide RunWall1TokenChecks, Run, SessionInvariant, Expired, Round2Begin;
    BootedSessions();
    RunKeepsSessions(env, BOOTED, evs);
    BeginHolds(env, Run(env, BOOTED, evs), Some(sessionId), body, now, n);
  }

  /** The input at which a presented session is not consumed: its ledger read
      throws, and the session is there to be presented again. */
  lemma ThrownReadKeepsSession(env: Env, sessionId: Text, body: Round2Body, throws: bool)
    requires sessionId != [] && RunWall1TokenChecks(env, body) == None
    ensures var st := Run(env, BOOTED, [Round1Called(sessionId, 0), Round2Called(Some(sessionId), Some(body), 0),
                                        LedgerAnswered(0, None, throws)]);
            && st.sessions == map[sessionId := Session(0, 0)] && st.pending == map[]
            && Round2Begin(env, st, Some(sessionId), Some(body), 0).1 == Waiting(1)
  {
    hide RunWall1TokenChecks;
    var call, end := Round2Called(Some(sessionId), Some(body), 0), LedgerAnswered(0, None, throws);
    var s0 := Apply(env, BOOTED, Round1Called(sessionId, 0));
    assert s0.sessions == map[sessionId := Session(0, 0)];
    var s1 := Apply(env, s0, call);
    assert s1.pending == map[0 := PendingCall(sessionId, 0, body)] && s1.sessions == s0.sessions;
    var s2 := Apply(env, s1, end);
    assert [Round1Called(sessionId, 0), call, end][1..] == [call, end] && [call, end][1..] == [end] && [end][1..] == [];
    assert Run(env, s1, [end]) == Run(env, s2, []) == s2;
    assert Run(env, s0, [call, end]) == s2;
    assert s2.pending == map[] && s2.sessions == s0.sessions;
    assert Sweep(s2.sessions, 0) == s2.sessions;
  }

  // ---- the service ------------------------------------------------------------------

  /** The process: its flags and its session table are changed in place. The
      calls awaiting the ledger and the record of signings are what the runtime
      and an observer would see. */
  class SignerService {
    var online: bool
    var refuse: bool
    var keysPresent: bool
    var sessions: map<Text, Session>
    var pending: map<nat, PendingCall>
    var nextNonce: nat
    var nextCall: nat
    var signings: seq<Signing>

    function View(): SignerState
      reads this
    {
      SignerState(online, refuse, keysPresent, sessions, pending, nextNonce, nextCall, signings)
    }

    constructor ()
      ensures View() == BOOTED
    {
      online, refuse, keysPresent := true, false, true;
      sessions, pending, nextNonce, nextCall, signings := map[], map[], 0, 0, [];
    }

    method SweepExpiredSessions(now: int)
      modifies this`sessions
      ensures sessions == Sweep(old(sessions), now)
    {
      var cutoff := now - SESSION_TTL_MS;
      var ids := sessions.Keys;
      while ids != {}
        invariant ids <= old(sessions).Keys
        invariant sessions == map id | id in old(sessions) && (id in ids || !(old(sessions)[id].createdAt < cutoff))
                                :: old(sessions)[id]
        decreases |ids|
      {
        var id :| id in ids;
        if sessions[id].createdAt < cutoff {
          sessions := sessions - {id};
        }
        ids := ids - {id};
      }
    }

    method HandleRound1(sessionId: Text, now: int) returns (reply: Reply)
      modifies this
      ensures (View(), reply) == Round1(old(View()), sessionId, now)
    {
      if !online {
        return Status(503);
      }
      if !keysPresent {
        return Status(503);
      }
      if sessionId == [] {
        return Status(400);
      }
      SweepExpiredSessions(now);
      var nonce := nextNonce;
      nextNonce := nextNonce + 1;
      sessions := sessions[sessionId := Session(nonce, now)];
      return Status(200);
    }

    method HandleRound2(env: Env, sessionId: Option<Text>, body: Option<Round2Body>, now: int) returns (reply: Reply)
      modifies this
      ensures (View(), reply) == Round2Begin(env, old(View()), sessionId, body, now)
    {
      if !online {
        return Status(503);
      }
      SweepExpiredSessions(now);
      if refuse {
        if sessionId.Some? {
          sessions := sessions - {sessionId.value};
        }
        return Status(403);
      }
      if sessionId.None? || sessionId.value !in sessions {
        return Status(400);
      }
      var session := sessions[sessionId.value];
      if !keysPresent {
        return Status(503);
      }
      if body.None? {
        return Status(400);
      }
      var failure := RunWall1TokenChecks(env, body.value);
      if failure.Some? {
        sessions := sessions - {sessionId.value};
        return Status(failure.value.status);
      }
      reply := Waiting(nextCall);
      pending := pending[nextCall := PendingCall(sessionId.value, session.nonce, body.value)];
      nextCall := nextCall + 1;
    }

    /** What follows the awaited ledger read of a waiting call. */
    method ResumeRound2(env: Env, call: nat, count: Option<nat>, signingThrows: bool) returns (reply: Reply)
      requires call in pending
      modifies this
      ensures (View(), reply) == Round2Finish(env, old(View()), call, count, signingThrows)
    {
      var p := pending[call];
      pending := pending - {call};
      if count.None? {
        return NoAnswer;
      }
      if count.value < env.quorum {
        sessions := sessions - {p.sessionId};
        return Status(409);
      }
      signings := signings + [Signing(p.nonce, p.body, !signingThrows)];
      reply := Status(if signingThrows then 500 else 200);
      sessions := sessions - {p.sessionId};
    }
  }

  lemma {:induction false} RunSnoc(env: Env, st: SignerState, evs: seq<SignerEvent>, ev: SignerEvent)
    ensures Run(env, st, evs + [ev]) == Apply(env, Run(env, st, evs), ev)
    decreases |evs|
  {
    hide Apply;
    if evs == [] {
      assert [] + [ev] == [ev] && [ev][1..] == [];
      assert Run(env, Apply(env, st, ev), []) == Apply(env, st, ev);
    } else {
      assert (evs + [ev])[1..] == evs[1..] + [ev];
      RunSnoc(env, Apply(env, st, evs[0]), evs[1..], ev);
    }
  }

  /** One event at the process. */
  method Handle(env: Env, signer: SignerService, ev: SignerEvent)
    modifies signer
    ensures signer.View() == Apply(env, old(signer.View()), ev)
  {
    hide Sweep, Round1, Round2Begin, Round2Finish;
    match ev
    case SetOnline(b) => signer.online := b;
    case SetRefuse(b) => signer.refuse := b;
    case SweepTick(now) => signer.SweepExpiredSessions(now);
    case Round1Called(sid, now) => var reply := signer.HandleRound1(sid, now);
    case Round2Called(sid, body, now) => var reply := signer.HandleRound2(env, sid, body, now);
    case LedgerAnswered(call, count, throws) =>
      if call in signer.pending {
        var reply := signer.ResumeRound2(env, call, count, throws);
      }
  }

  /** A member that boots and meets these events ends as the machine does, and so
      signs at most once with every nonce pair when no calls overlapped. */
  method Serve(env: Env, evs: seq<SignerEvent>) returns (signer: SignerService)
    ensures fresh(signer) && signer.View() == Run(env, BOOTED, evs)
    ensures NonOverlapping(env, BOOTED, evs) ==> Distinct(NoncesUsed(signer.View()))
  {
    hide Apply, NonOverlapping, Distinct;
    signer := new SignerService();
    assert evs[..0] == [];
    for k := 0 to |evs|
      invariant fresh(signer) && signer.View() == Run(env, BOOTED, evs[..k])
    {
      assert evs[..k + 1] == evs[..k] + [evs[k]];
      RunSnoc(env, BOOTED, evs[..k], evs[k]);
      Handle(env, signer, evs[k]);
    }
    assert evs[..|evs|] == evs;
    if NonOverlapping(env, BOOTED, evs) {
      NoncesSignOnce(env, evs);
    }
  }
}
