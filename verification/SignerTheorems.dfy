/** When a member admits a round-2 call and when it signs, condition by condition
    (server/src/signer/index.ts:79-95, 143-163, 267-357). */
module SignerTheorems {
  import opened Canonical
  import opened Signer
  import opened Types
  import opened Verify
  import opened Wrappers

  /** The session was made at most five minutes ago. */
  predicate Fresh(st: SignerState, sid: Text, now: int) {
    sid in st.sessions && st.sessions[sid].createdAt >= now - 300_000
  }

  /** A round-2 call is admitted exactly when the member is online, willing and holds
      its keys, the session is at most five minutes old, and the body passes every
      check; it then waits with that session's nonces and exactly that body. */
  lemma AdmittedIff(env: Env, st: SignerState, sid: Option<Text>, body: Option<Round2Body>, now: int)
    ensures var (st', reply) := Round2Begin(env, st, sid, body, now);
            && (reply.Waiting? <==>
                && st.online && !st.refuse && st.keysPresent && sid.Some? && Fresh(st, sid.value, now)
                && body.Some? && RunWall1TokenChecks(env, body.value) == None)
            && (reply.Waiting? ==>
                  && reply == Waiting(st.nextCall) && st'.nextCall == st.nextCall + 1
                  && st'.pending == st.pending[st.nextCall := PendingCall(sid.value, st.sessions[sid.value].nonce,
                                                                          body.value)])
            && (!reply.Waiting? ==> st'.pending == st.pending && st'.nextCall == st.nextCall)
            && st'.signings == st.signings
  {
    hide RunWall1TokenChecks;
  }

  /** The status a call gets at once: 503 from a member that is offline or without its
      keys, 403 from one that refuses, 401 for a debit the bank did not sign for this
      request at this price, and 400 for a session that is missing or expired, a body of
      the wrong shape, or a token or message that is not the debit's. */
  lemma StatusIff(env: Env, st: SignerState, sid: Option<Text>, body: Option<Round2Body>, now: int)
    ensures var reply := Round2Begin(env, st, sid, body, now).1;
            var willing := st.online && !st.refuse;
            var known := sid.Some? && Fresh(st, sid.value, now);
            var checked := willing && known && st.keysPresent && body.Some?;
            var unpaid := body.Some? && ValidateDebitForRequest(env, body.value.request, body.value.debit).Some?;
            var unbound := body.Some? && RunWall1TokenChecks(env, body.value).Some? && !unpaid;
            && (reply == Status(503) <==> (!st.online || (willing && known && !st.keysPresent)))
            && (reply == Status(403) <==> (st.online && st.refuse))
            && (reply == Status(401) <==> (checked && unpaid))
            && (reply == Status(400) <==>
                (willing && (!known || (st.keysPresent && body.None?) || (checked && unbound))))
  {
    hide RunWall1TokenChecks, ValidateDebitForRequest, BuildTokenPayload, Message;
    if body.Some? {
      FirstFailure(env, body.value);
      FailureKinds(env, body.value);
    }
  }

  lemma FailureKinds(env: Env, body: Round2Body)
    ensures RunWall1TokenChecks(env, body).Some? ==>
              && (RunWall1TokenChecks(env, body).value.status == 401 <==>
                  ValidateDebitForRequest(env, body.request, body.debit).Some?)
              && RunWall1TokenChecks(env, body).value.status in {400, 401}
    ensures RunWall1TokenChecks(env, body) == None ==>
              ValidateDebitForRequest(env, body.request, body.debit) == None
  {
    hide Message, DeriveTokenNonce;
  }

  /** After its ledger read a call signs exactly when the read counted a quorum, once,
      with the nonces and the body it waited with; the share is released and answered
      with 200 unless signing throws. Its session goes unless the read threw. */
  lemma SignsIffQuorum(env: Env, st: SignerState, call: nat, count: Option<nat>, throws: bool)
    requires call in st.pending
    ensures var p := st.pending[call];
            var (st', reply) := Round2Finish(env, st, call, count, throws);
            var quorum := count.Some? && count.value >= env.quorum;
            && (st'.signings == st.signings + [Signing(p.nonce, p.body, !throws)] <==> quorum)
            && (st'.signings == st.signings <==> !quorum)
            && (reply == Status(200) <==> quorum && !throws) && (reply == Status(500) <==> quorum && throws)
            && (reply == Status(409) <==> count.Some? && !quorum) && (reply == NoAnswer <==> count.None?)
            && st'.sessions == (if count.Some? then st.sessions - {p.sessionId} else st.sessions)
            && call !in st'.pending && forall c :: c != call ==> (c in st'.pending <==> c in st.pending)
  {
    assert |st.signings + [Signing(st.pending[call].nonce, st.pending[call].body, !throws)]| == |st.signings| + 1;
  }

  /** Round 1 answers 200 exactly when the member is online with its key share and the
      session is named; then and only then a pair that was never drawn before is held
      for five minutes under that session. */
  lemma CommitsIff(st: SignerState, sid: Text, now: int)
    requires Numbered(st)
    ensures var (st', reply) := Round1(st, sid, now);
            var drawn := st.online && st.keysPresent && sid != [];
            && (reply == Status(200) <==> drawn)
            && (reply == Status(503) <==> !st.online || !st.keysPresent)
            && (reply == Status(400) <==> st.online && st.keysPresent && sid == [])
            && (!drawn ==> st' == st)
            && (drawn ==>
                  && sid in st'.sessions && st'.sessions[sid].createdAt == now
                  && (forall id :: id in st.sessions ==> st.sessions[id].nonce != st'.sessions[sid].nonce)
                  && (forall c :: c in st.pending ==> st.pending[c].nonce != st'.sessions[sid].nonce)
                  && (forall s :: s in st.signings ==> s.nonce != st'.sessions[sid].nonce)
                  && forall id :: id != sid ==>
                       (id in st'.sessions <==> Fresh(st, id, now))
                       && (id in st'.sessions ==> st'.sessions[id] == st.sessions[id]))
  {
  }
}
