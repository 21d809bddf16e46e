/** The refusal loop of one run and the machine's events at its ceremonies are the
    same thing. */
module PipelineSpares {
  import opened Canonical
  import opened Ceremony
  import opened Lists
  import opened Pipeline
  import opened PipelineWitnesses
  import opened Types
  import opened Wrappers

  /** The first n ceremonies of a script, as events at run id. */
  function CeremonyEvents(id: Text, script: nat -> Replies, n: nat): (evs: seq<PipelineEvent>)
    ensures |evs| == n && forall k :: 0 <= k < n ==> evs[k] == CeremonyEnded(id, script(k))
  {
    seq(n, k requires 0 <= k < n => CeremonyEnded(id, script(k)))
  }

  ghost predicate ScriptShaped(env: Env, script: nat -> Replies) {
    forall k :: Shaped(env, script(k))
  }

  /** Where the loop stands after these refusals: at the next ceremony, or giving up. */
  function AfterRefusals(env: Env, st: State, id: Text, r: Record, online: seq<SignerInfo>,
                         refusals: seq<SignerId>): State {
    if |Pool(online, RefusedBy(refusals))| < env.threshold then Abandon(st, id, r)
    else Put(st, id, PipelineRun(r, CeremonyReply(online, RefusedBy(refusals), |refusals| + 1)))
  }

  /** A run of id at its first ceremony, with its debit. */
  predicate AtCeremonies(env: Env, st: State, id: Text, online: seq<SignerInfo>) {
    && id in st.runs && st.runs[id].at == CeremonyReply(online, {}, 1) && st.runs[id].record.debit.Some?
    && |Pool(online, {})| >= env.threshold
  }

  lemma NoRefusalsYet(env: Env, st: State, id: Text, online: seq<SignerInfo>)
    requires AtCeremonies(env, st, id, online)
    ensures AfterRefusals(env, st, id, st.runs[id].record, online, []) == st
  {
    hide Pool, Abandon;
    assert RefusedBy([]) == {};
    assert st.runs[id := st.runs[id]] == st.runs;
  }

  /** What a run held before it is put again does not matter. */
  lemma PutTwice(st: State, id: Text, before: PipelineRun, r: Record, run: PipelineRun)
    ensures Abandon(Put(st, id, before), id, r) == Abandon(st, id, r)
    ensures Put(Put(st, id, before), id, run) == Put(st, id, run)
  {
    hide FinishAbandoned;
    assert st.runs[id := before][id := run] == st.runs[id := run];
    assert st.runs[id := before][id := PipelineRun(r, ReversalReply)] == st.runs[id := PipelineRun(r, ReversalReply)];
    assert st.runs[id := before][id := FinishAbandoned(r, false)] == st.runs[id := FinishAbandoned(r, false)];
  }

  /** The event of a ceremony whose outcome is known. */
  lemma CeremonyStep(env: Env, st: State, id: Text, at: Await, replies: Replies, outcome: CeremonyOutcome)
    requires id in st.runs && st.runs[id].at == at && at.CeremonyReply? && Ready(env, st.runs[id])
    requires Shaped(env, replies)
    requires CeremonyResult(env.suite, env.group, Chosen(at.online, at.refused, env.threshold), replies,
                            TokenMessage(env, st.runs[id].record.debit.value), outcome)
    ensures Allows(env, st, CeremonyEnded(id, replies))
    ensures Step(env, st, CeremonyEnded(id, replies)) ==
            OnOutcome(env, st, id, st.runs[id].record, at, replies, outcome)
  {
    hide CeremonyResult, CeremonyOf, TokenMessage, OnOutcome, Pool;
    ResultIsOutcome(env.suite, env.group, Chosen(at.online, at.refused, env.threshold), replies,
                    TokenMessage(env, st.runs[id].record.debit.value), outcome);
  }

  lemma RefusalStep(env: Env, st: State, id: Text, r: Record, online: seq<SignerInfo>, refusals: seq<SignerId>,
                    who: SignerId, replies: Replies)
    requires r.debit.Some? && Shaped(env, replies)
    requires CeremonyWas(env.suite, env.group, env.threshold, online, refusals, replies,
                         TokenMessage(env, r.debit.value), Refused(who))
    ensures var st1 := AfterRefusals(env, st, id, r, online, refusals);
            && Allows(env, st1, CeremonyEnded(id, replies))
            && Step(env, st1, CeremonyEnded(id, replies)) == AfterRefusals(env, st, id, r, online, refusals + [who])
  {
    hide CeremonyResult, TokenMessage, Pool, Step, Allows, Abandon, Put;
    var at := CeremonyReply(online, RefusedBy(refusals), |refusals| + 1);
    var st1 := AfterRefusals(env, st, id, r, online, refusals);
    PutHolds(st, id, PipelineRun(r, at));
    CeremonyStep(env, st1, id, at, replies, Refused(who));
    assert RefusedBy(refusals + [who]) == RefusedBy(refusals) + {who};
    PutTwice(st, id, PipelineRun(r, at), r,
             PipelineRun(r, CeremonyReply(online, RefusedBy(refusals + [who]), |refusals| + 2)));
  }

  lemma PutHolds(st: State, id: Text, run: PipelineRun)
    ensures id in Put(st, id, run).runs && Put(st, id, run).runs[id] == run
  {
  }

  lemma {:induction false} RefusalsPlayed(env: Env, st: State, id: Text, online: seq<SignerInfo>,
                                          refusals: seq<SignerId>,
                                          script: nat -> Replies, n: nat)
    requires AtCeremonies(env, st, id, online) && ScriptShaped(env, script) && n <= |refusals|
    requires AllRefused(env.suite, env.group, env.threshold, online, refusals, script,
                        TokenMessage(env, st.runs[id].record.debit.value))
    ensures AllAllow(env, st, CeremonyEvents(id, script, n))
    ensures Proceed(env, st, CeremonyEvents(id, script, n)) ==
            AfterRefusals(env, st, id, st.runs[id].record, online, refusals[..n])
  {
    hide CeremonyWas, TokenMessage, Pool, AfterRefusals, Step, Allows, Distinct;
    var r := st.runs[id].record;
    if n == 0 {
      NoRefusalsYet(env, st, id, online);
      assert refusals[..0] == [];
    } else {
      RefusalsPlayed(env, st, id, online, refusals, script, n - 1);
      RefusalStep(env, st, id, r, online, refusals[..n - 1], refusals[n - 1], script(n - 1));
      assert refusals[..n] == refusals[..n - 1] + [refusals[n - 1]];
      assert CeremonyEvents(id, script, n) == CeremonyEvents(id, script, n - 1) + [CeremonyEnded(id, script(n - 1))];
      ProceedStep(env, st, CeremonyEvents(id, script, n - 1), CeremonyEnded(id, script(n - 1)));
    }
  }

  /** When the loop ends with no member to spare, the same replies as events abandon
      the run; when it ends with an outcome, they lead to that outcome's segment. */
  lemma LoopIsEvents(env: Env, st: State, id: Text, online: seq<SignerInfo>, script: nat -> Replies,
                     refusals: seq<SignerId>, result: LoopResult)
    requires AtCeremonies(env, st, id, online) && ScriptShaped(env, script)
    requires LoopEnds(env.suite, env.group, env.threshold, online, script,
                      TokenMessage(env, st.runs[id].record.debit.value), refusals, result)
    ensures var r, n := st.runs[id].record, |refusals|;
            match result
            case SignersRefused =>
              && AllAllow(env, st, CeremonyEvents(id, script, n))
              && Proceed(env, st, CeremonyEvents(id, script, n)) == Abandon(st, id, r)
            case Ended(outcome) =>
              var at := CeremonyReply(online, RefusedBy(refusals), n + 1);
              && |Pool(online, RefusedBy(refusals))| >= env.threshold
              && AllAllow(env, st, CeremonyEvents(id, script, n + 1))
              && Proceed(env, st, CeremonyEvents(id, script, n + 1)) ==
                 OnOutcome(env, Put(st, id, PipelineRun(r, at)), id, r, at, script(n), outcome)
  {
    hide CeremonyResult, TokenMessage, Pool, Step, Allows, Abandon, Put, OnOutcome, AllRefused, Proceed, AllAllow;
    var r, n := st.runs[id].record, |refusals|;
    RefusalsPlayed(env, st, id, online, refusals, script, n);
    assert refusals[..n] == refusals;
    if result.Ended? {
      var at := CeremonyReply(online, RefusedBy(refusals), n + 1);
      PutHolds(st, id, PipelineRun(r, at));
      CeremonyStep(env, Put(st, id, PipelineRun(r, at)), id, at, script(n), result.outcome);
      assert CeremonyEvents(id, script, n + 1) == CeremonyEvents(id, script, n) + [CeremonyEnded(id, script(n))];
      ProceedStep(env, st, CeremonyEvents(id, script, n), CeremonyEnded(id, script(n)));
    }
  }
}
