/** A member's attestations on the ledger and the map that is to keep them to one
    per request (server/src/signer/index.ts:72, 169-223). The handler looks the
    request up, awaits the posting, and only then records it. */
module Attestation {
  import opened Approvals
  import opened Canonical
  import opened Lists
  import opened Types
  import opened Verify
  import opened Wrappers

  /** What a member says of an on-chain request. */
  function Attest(env: Env, refusing: bool, requestHash: Text, request: Request, debit: Debit): Verdict {
    if HashRequest(env, request) != requestHash then Reject
    else if refusing then Reject
    else if ValidateDebitForRequest(env, request, debit).Some? then Reject
    else Approve
  }

  /** A member approves a request if and only if it hashes to the on-chain request,
      the member is not refusing, and the bank signed a debit for this request, its
      meter and its units at the member's own price in the one currency. */
  lemma ApprovesIff(env: Env, refusing: bool, requestHash: Text, request: Request, debit: Debit)
    ensures Attest(env, refusing, requestHash, request, debit) == Approve <==>
            && !refusing && HashRequest(env, request) == requestHash
            && debit.bankSignature == SignedBy(env.bankKey, debit.payload)
            && debit.payload.requestId == request.requestId && debit.payload.meterId == request.meterId
            && debit.payload.amountKwh == request.amountKwh
            && debit.payload.amount == env.price(request.amountKwh) && debit.payload.currency == env.currency
    ensures Attest(env, refusing, requestHash, request, debit) in {Approve, Reject}
  {
    hide HashRequest;
    DebitPassesIff(env, request, debit);
  }

  datatype Post = Post(requestHash: Text, verdict: Verdict)

  /** `posting` holds the calls awaiting their posting, `inFlight` the transactions
      that have not reached the ledger, by call; a transaction outlives a call that
      threw. `posted` is what the ledger shows of this member, as request hashes. */
  datatype AttesterState = AttesterState(
    approvedOnChain: map<Text, Verdict>, posting: map<nat, Post>, inFlight: map<nat, Text>, nextCall: nat,
    posted: seq<Text>)

  const FRESH := AttesterState(map[], map[], map[], 0, [])

  /** A transaction reaches the ledger or lapses, and a call's posting answers or
      throws, in any order. */
  datatype AttesterEvent =
    | ValidateCalled(requestHash: Text, verdict: Verdict)
    | ReachedLedger(call: nat)
    | Lapsed(call: nat)
    | PostAnswered(call: nat, ok: bool)

  /** The handler up to the posting; None is a posting under way. */
  function Validate(st: AttesterState, requestHash: Text, verdict: Verdict): (AttesterState, Option<Verdict>) {
    if requestHash in st.approvedOnChain then (st, Some(st.approvedOnChain[requestHash]))
    else
      (st.(posting := st.posting[st.nextCall := Post(requestHash, verdict)],
           inFlight := st.inFlight[st.nextCall := requestHash],
           nextCall := st.nextCall + 1), None)
  }

  /** The handler after the posting answered or threw. */
  function Answered(st: AttesterState, call: nat, ok: bool): AttesterState
    requires call in st.posting
  {
    var ended := st.(posting := st.posting - {call});
    var post := st.posting[call];
    if ok then ended.(approvedOnChain := st.approvedOnChain[post.requestHash := post.verdict]) else ended
  }

  function Apply(st: AttesterState, ev: AttesterEvent): AttesterState {
    match ev
    case ValidateCalled(h, v) => Validate(st, h, v).0
    case ReachedLedger(call) =>
      if call !in st.inFlight then st
      else st.(inFlight := st.inFlight - {call}, posted := st.posted + [st.inFlight[call]])
    case Lapsed(call) => st.(inFlight := st.inFlight - {call})
    case PostAnswered(call, ok) => if call in st.posting then Answered(st, call, ok) else st
  }

  function Run(st: AttesterState, evs: seq<AttesterEvent>): AttesterState
    decreases |evs|
  {
    if evs == [] then st else Run(Apply(st, evs[0]), evs[1..])
  }

  // ---- how often a request is attested -------------------------------------------------

  /** A transaction for the request is on its way, whether its call still waits or threw. */
  predicate InFlight(st: AttesterState, h: Text) {
    exists c :: c in st.inFlight && st.inFlight[c] == h
  }

  /** A call is answered from the map, or is for a request that is neither on the
      ledger nor in flight from any earlier call. */
  predicate Orderly(st: AttesterState, ev: AttesterEvent) {
    match ev
    case ValidateCalled(h, _) => h in st.approvedOnChain || (h !in st.posted && !InFlight(st, h))
    case _ => true
  }

  ghost predicate AllOrderly(st: AttesterState, evs: seq<AttesterEvent>)
    decreases |evs|
  {
    evs == [] || (Orderly(st, evs[0]) && AllOrderly(Apply(st, evs[0]), evs[1..]))
  }

  /** The transactions for a request that have not reached the ledger. */
  function Unposted(st: AttesterState, h: Text): set<nat> {
    set c | c in st.inFlight && st.inFlight[c] == h
  }

  function TimesPosted(st: AttesterState, h: Text): nat {
    multiset(st.posted)[h]
  }

  /** How often the ledger may come to show a request without another call for it. */
  function Weight(st: AttesterState, h: Text): nat {
    TimesPosted(st, h) + |Unposted(st, h)|
  }

  predicate CallFor(ev: AttesterEvent, h: Text) {
    ev.ValidateCalled? && ev.requestHash == h
  }

  /** Call numbers are given out in order. */
  ghost predicate Numbered(st: AttesterState) {
    forall c :: c in st.inFlight ==> c < st.nextCall
  }

  lemma {:induction false} RunNumbered(st: AttesterState, evs: seq<AttesterEvent>)
    requires Numbered(st)
    ensures Numbered(Run(st, evs))
    decreases |evs|
  {
    hide Numbered, Apply;
    if evs != [] {
      StepNumbered(st, evs[0]);
      RunNumbered(Apply(st, evs[0]), evs[1..]);
    }
  }

  lemma StepNumbered(st: AttesterState, ev: AttesterEvent)
    requires Numbered(st)
    ensures Numbered(Apply(st, ev))
  {
  }

  /** Reaching the ledger moves one transaction from the waiting ones to the ledger. */
  lemma ReachedWeight(st: AttesterState, call: nat, h: Text)
    ensures Weight(Apply(st, ReachedLedger(call)), h) == Weight(st, h)
  {
    var st' := Apply(st, ReachedLedger(call));
    if call in st.inFlight {
      var g := st.inFlight[call];
      assert Unposted(st', g) == Unposted(st, g) - {call} && call in Unposted(st, g);
      assert h != g ==> Unposted(st', h) == Unposted(st, h);
      assert multiset(st'.posted) == multiset(st.posted) + multiset{g};
    }
  }

  lemma LapsedWeight(st: AttesterState, call: nat, h: Text)
    ensures Weight(Apply(st, Lapsed(call)), h) <= Weight(st, h)
  {
    assert Unposted(Apply(st, Lapsed(call)), h) == Unposted(st, h) - {call};
  }

  /** A reply, confirming or lost, takes nothing out of flight. */
  lemma AnsweredWeight(st: AttesterState, call: nat, ok: bool, h: Text)
    ensures Weight(Apply(st, PostAnswered(call, ok)), h) == Weight(st, h)
  {
    assert Unposted(Apply(st, PostAnswered(call, ok)), h) == Unposted(st, h);
  }

  lemma CalledUnposted(st: AttesterState, g: Text, v: Verdict, h: Text)
    requires Numbered(st) && g !in st.approvedOnChain
    ensures st.nextCall !in Unposted(st, h)
    ensures Unposted(Apply(st, ValidateCalled(g, v)), h) == Unposted(st, h) + (if g == h then {st.nextCall} else {})
  {
  }

  lemma CalledWeight(st: AttesterState, g: Text, v: Verdict, h: Text)
    requires Numbered(st)
    ensures Weight(Apply(st, ValidateCalled(g, v)), h) ==
            Weight(st, h) + if g == h && h !in st.approvedOnChain then 1 else 0
  {
    hide Numbered, Unposted;
    if g !in st.approvedOnChain {
      CalledUnposted(st, g, v, h);
    }
  }

  lemma WeightOnlyFalls(st: AttesterState, ev: AttesterEvent, h: Text)
    requires Numbered(st) && !CallFor(ev, h)
    ensures Weight(Apply(st, ev), h) <= Weight(st, h)
  {
    hide Numbered, Apply, Weight;
    match ev
    case ValidateCalled(g, v) => CalledWeight(st, g, v, h);
    case ReachedLedger(call) => ReachedWeight(st, call, h);
    case Lapsed(call) => LapsedWeight(st, call, h);
    case PostAnswered(call, ok) => AnsweredWeight(st, call, ok, h);
  }

  lemma {:induction false} RunWeight(st: AttesterState, evs: seq<AttesterEvent>, h: Text)
    requires Numbered(st) && forall i :: 0 <= i < |evs| ==> !CallFor(evs[i], h)
    ensures Weight(Run(st, evs), h) <= Weight(st, h)
    decreases |evs|
  {
    hide Numbered, Apply, Weight, CallFor;
    if evs != [] {
      StepNumbered(st, evs[0]);
      WeightOnlyFalls(st, evs[0], h);
      RunWeight(Apply(st, evs[0]), evs[1..], h);
    }
  }

  lemma UnknownWeighsNothing(st: AttesterState, h: Text)
    requires h !in st.posted && !InFlight(st, h)
    ensures Weight(st, h) == 0
  {
    assert Unposted(st, h) == {};
    assert h !in multiset(st.posted);
  }

  /** A call on a request that is on the ledger or in flight: let the transactions arrive. */
  lemma SecondPosting(st: AttesterState, h: Text, v: Verdict) returns (more: seq<AttesterEvent>)
    requires Numbered(st) && h !in st.approvedOnChain && (h in st.posted || InFlight(st, h))
    ensures forall i :: 0 <= i < |more| ==> !CallFor(more[i], h)
    ensures TimesPosted(Run(Apply(st, ValidateCalled(h, v)), more), h) >= 2
  {
    var st1, mine := Apply(st, ValidateCalled(h, v)), ReachedLedger(st.nextCall);
    if h in st.posted {
      more := [mine];
      RunOne(st1, mine);
      PostingArrives(st1, st.nextCall);
    } else {
      var c :| c in st.inFlight && st.inFlight[c] == h;
      more := [ReachedLedger(c), mine];
      var st2 := Apply(st1, ReachedLedger(c));
      PostingArrives(st1, c);
      PostingArrives(st2, st.nextCall);
      assert more[1..] == [mine];
      RunOne(st2, mine);
    }
  }

  lemma RunOne(st: AttesterState, ev: AttesterEvent)
    ensures Run(st, [ev]) == Apply(st, ev)
  {
    assert [ev][1..] == [];
    assert Run(Apply(st, ev), []) == Apply(st, ev);
  }

  lemma PostingArrives(st: AttesterState, call: nat)
    requires call in st.inFlight
    ensures var h := st.inFlight[call];
            TimesPosted(Apply(st, ReachedLedger(call)), h) == TimesPosted(st, h) + 1
  {
  }

  /** When a call starts a posting, the ledger can come to show its request twice
      without another call for it if and only if the request was on the ledger
      already or a transaction of an earlier call, answered or thrown, was in flight. */
  lemma SecondPostingIff(evs: seq<AttesterEvent>, h: Text, v: Verdict)
    requires Validate(Run(FRESH, evs), h, v).1.None?
    ensures var st := Run(FRESH, evs);
            h in st.posted || InFlight(st, h) <==>
            exists more :: (forall i :: 0 <= i < |more| ==> !CallFor(more[i], h))
                           && TimesPosted(Run(Apply(st, ValidateCalled(h, v)), more), h) >= 2
  {
    hide Run, Apply, Numbered, CallFor;
    var st := Run(FRESH, evs);
    NumberedAlways(evs);
    if h in st.posted || InFlight(st, h) {
      var more := SecondPosting(st, h, v);
    } else {
      UnknownWeighsNothing(st, h);
      CalledWeight(st, h, v, h);
      StepNumbered(st, ValidateCalled(h, v));
      forall more | forall i :: 0 <= i < |more| ==> !CallFor(more[i], h)
        ensures TimesPosted(Run(Apply(st, ValidateCalled(h, v)), more), h) <= 1
      {
        RunWeight(Apply(st, ValidateCalled(h, v)), more, h);
      }
    }
  }

  lemma NumberedAlways(evs: seq<AttesterEvent>)
    ensures Numbered(Run(FRESH, evs))
  {
    RunNumbered(FRESH, evs);
  }

  lemma {:induction false} OrderlyWeight(st: AttesterState, evs: seq<AttesterEvent>, h: Text)
    requires Numbered(st) && AllOrderly(st, evs) && Weight(st, h) <= 1
    ensures Weight(Run(st, evs), h) <= 1
    decreases |evs|
  {
    hide Numbered, Apply, Weight;
    if evs != [] {
      StepNumbered(st, evs[0]);
      if CallFor(evs[0], h) {
        CalledWeight(st, h, evs[0].verdict, h);
        if h !in st.approvedOnChain {
          UnknownWeighsNothing(st, h);
        }
      } else {
        WeightOnlyFalls(st, evs[0], h);
      }
      OrderlyWeight(Apply(st, evs[0]), evs[1..], h);
    }
  }

  lemma CountedOnceDistinct(hs: seq<Text>)
    requires forall h :: multiset(hs)[h] <= 1
    ensures Distinct(hs)
  {
    forall i, j | 0 <= i < j < |hs|
      ensures hs[i] != hs[j]
    {
      assert hs == hs[..j] + [hs[j]] + hs[j + 1..];
      assert hs[i] in multiset(hs[..j]);
      assert multiset(hs)[hs[j]] == multiset(hs[..j])[hs[j]] + 1 + multiset(hs[j + 1..])[hs[j]];
    }
  }

  /** A member posts one attestation per request when every call that starts a
      posting finds the request neither on the ledger nor in flight. */
  lemma OneAttestationPerRequest(evs: seq<AttesterEvent>)
    requires AllOrderly(FRESH, evs)
    ensures Distinct(Run(FRESH, evs).posted)
  {
    hide AllOrderly, Run;
    forall h
      ensures multiset(Run(FRESH, evs).posted)[h] <= 1
    {
      OrderlyWeight(FRESH, evs, h);
    }
    CountedOnceDistinct(Run(FRESH, evs).posted);
  }

  /** The inputs at which the code posts twice: overlapping calls, a retry after the
      reply to the posting was lost, and a retry while the transaction of a call
      that threw is still in flight. */
  lemma DisorderlyPostsTwice(h: Text, v: Verdict)
    ensures Run(FRESH, [ValidateCalled(h, v), ValidateCalled(h, v), ReachedLedger(0),
                        ReachedLedger(1)]).posted == [h, h]
    ensures Run(FRESH, [ValidateCalled(h, v), ReachedLedger(0), PostAnswered(0, false), ValidateCalled(h, v),
                        ReachedLedger(1)]).posted
            == [h, h]
    ensures Run(FRESH, [ValidateCalled(h, v), PostAnswered(0, false), ValidateCalled(h, v), ReachedLedger(0),
                        ReachedLedger(1)]).posted
            == [h, h]
  {
    var call, lost := ValidateCalled(h, v), PostAnswered(0, false);
    var s1 := Apply(FRESH, call);
    RunFour(FRESH, call, call, ReachedLedger(0), ReachedLedger(1));
    var t := Apply(Apply(s1, ReachedLedger(0)), lost);
    RunFour(s1, ReachedLedger(0), lost, call, ReachedLedger(1));
    assert [call, ReachedLedger(0), lost, call, ReachedLedger(1)][1..] ==
      [ReachedLedger(0), lost, call, ReachedLedger(1)];
    assert t.posted == [h] && t.inFlight == map[] && t.approvedOnChain == map[];
    RunFour(s1, lost, call, ReachedLedger(0), ReachedLedger(1));
    assert [call, lost, call, ReachedLedger(0), ReachedLedger(1)][1..] ==
      [lost, call, ReachedLedger(0), ReachedLedger(1)];
    var u := Apply(Apply(s1, lost), call);
    assert u.inFlight == map[0 := h, 1 := h] && u.posted == [];
  }

  lemma RunFour(st: AttesterState, a: AttesterEvent, b: AttesterEvent, c: AttesterEvent, d: AttesterEvent)
    ensures Run(st, [a, b, c, d]) == Apply(Apply(Apply(Apply(st, a), b), c), d)
  {
    hide Apply;
    assert [a, b, c, d][1..] == [b, c, d] && [b, c, d][1..] == [c, d] && [c, d][1..] == [d] && [d][1..] == [];
    var s2 := Apply(Apply(st, a), b);
    assert Run(s2, [c, d]) == Run(Apply(s2, c), [d]) == Run(Apply(Apply(s2, c), d), []);
    assert Run(Apply(st, a), [b, c, d]) == Run(s2, [c, d]);
  }

  /** Who a recorded or waiting verdict comes from. */
  ghost predicate FromCalls(st: AttesterState, evs: seq<AttesterEvent>) {
    && (forall h :: h in st.approvedOnChain ==> ValidateCalled(h, st.approvedOnChain[h]) in evs)
    && (forall c :: c in st.posting ==> ValidateCalled(st.posting[c].requestHash, st.posting[c].verdict) in evs)
    && (forall c :: c in st.inFlight ==> exists v :: ValidateCalled(st.inFlight[c], v) in evs)
    && (forall h :: h in st.posted ==> exists v :: ValidateCalled(h, v) in evs)
  }

  lemma StepFromCalls(st: AttesterState, evs: seq<AttesterEvent>, ev: AttesterEvent)
    requires FromCalls(st, evs)
    ensures FromCalls(Apply(st, ev), evs + [ev])
  {
    var st', all := Apply(st, ev), evs + [ev];
    assert forall e :: e in evs ==> e in all;
    assert ev in all;
    forall h | h in st'.posted
      ensures exists v :: ValidateCalled(h, v) in all
    {
      if h in st.posted {
        var v :| ValidateCalled(h, v) in evs;
        assert ValidateCalled(h, v) in all;
      } else {
        var v :| ValidateCalled(st.inFlight[ev.call], v) in evs;
        assert ValidateCalled(h, v) in all;
      }
    }
    forall c | c in st'.inFlight
      ensures exists v :: ValidateCalled(st'.inFlight[c], v) in all
    {
      if c in st.inFlight && st'.inFlight[c] == st.inFlight[c] {
        var v :| ValidateCalled(st.inFlight[c], v) in evs;
        assert ValidateCalled(st'.inFlight[c], v) in all;
      } else {
        assert ValidateCalled(st'.inFlight[c], ev.verdict) in all;
      }
    }
  }

  /** In every run, what a member records for a request, and so answers from then on,
      is a verdict of a call for that request, and everything it posts is of one. */
  lemma {:induction false} RecordedWasCalled(evs: seq<AttesterEvent>)
    ensures FromCalls(Run(FRESH, evs), evs)
  {
    if evs == [] {
      assert Run(FRESH, []) == FRESH;
    } else {
      var front, last := evs[..|evs| - 1], evs[|evs| - 1];
      RecordedWasCalled(front);
      assert evs == front + [last];
      RunSnoc(FRESH, front, last);
      StepFromCalls(Run(FRESH, front), front, last);
    }
  }

  /** A verdict is recorded exactly when its posting answered, and never changes. */
  lemma RecordedIffAnswered(st: AttesterState, call: nat, ok: bool)
    requires call in st.posting
    ensures var st', post := Apply(st, PostAnswered(call, ok)), st.posting[call];
            && call !in st'.posting && st'.posted == st.posted && st'.inFlight == st.inFlight
            && (ok ==> st'.approvedOnChain == st.approvedOnChain[post.requestHash := post.verdict]
                       && forall v :: Validate(st', post.requestHash, v) == (st', Some(post.verdict)))
            && (!ok ==> st'.approvedOnChain == st.approvedOnChain)
  {
  }

  /** The member's part of the process. What is in flight and what the ledger shows
      are what an observer would see. */
  class Attester {
    var approvedOnChain: map<Text, Verdict>
    var posting: map<nat, Post>
    var nextCall: nat
    ghost var inFlight: map<nat, Text>
    ghost var posted: seq<Text>

    ghost function View(): AttesterState
      reads this
    {
      AttesterState(approvedOnChain, posting, inFlight, nextCall, posted)
    }

    constructor ()
      ensures View() == FRESH
    {
      approvedOnChain, posting, inFlight, nextCall, posted := map[], map[], map[], 0, [];
    }

    method HandleValidate(env: Env, refusing: bool, requestHash: Text, request: Request,
                          debit: Debit) returns (cached: Option<Verdict>)
      modifies this
      ensures (View(), cached) == Validate(old(View()), requestHash, Attest(env, refusing, requestHash, request, debit))
    {
      hide HashRequest, ValidateDebitForRequest;
      if requestHash in approvedOnChain {
        return Some(approvedOnChain[requestHash]);
      }
      var verdict := Approve;
      if HashRequest(env, request) != requestHash {
        verdict := Reject;
      } else if refusing {
        verdict := Reject;
      } else {
        var failure := ValidateDebitForRequest(env, request, debit);
        if failure.Some? {
          verdict := Reject;
        }
      }
      posting := posting[nextCall := Post(requestHash, verdict)];
      inFlight := inFlight[nextCall := requestHash];
      nextCall := nextCall + 1;
      return None;
    }

    method ResumeValidate(call: nat, ok: bool)
      requires call in posting
      modifies this
      ensures View() == Answered(old(View()), call, ok)
    {
      var post := posting[call];
      posting := posting - {call};
      if ok {
        approvedOnChain := approvedOnChain[post.requestHash := post.verdict];
      }
    }

    /** What the ledger does with a transaction. */
    ghost method Settle(call: nat, validated: bool)
      modifies this`inFlight, this`posted
      ensures View() == Apply(old(View()), if validated then ReachedLedger(call) else Lapsed(call))
    {
      if validated && call in inFlight {
        posted := posted + [inFlight[call]];
      }
      inFlight := inFlight - {call};
    }
  }

  /** What a member is told or asked, and what becomes of its transactions. */
  datatype Incident =
    | Asked(refusing: bool, requestHash: Text, request: Request, debit: Debit)
    | Settled(call: nat, validated: bool)
    | Replied(call: nat, ok: bool)

  function EventOf(env: Env, i: Incident): AttesterEvent {
    match i
    case Asked(refusing, h, request, debit) => ValidateCalled(h, Attest(env, refusing, h, request, debit))
    case Settled(call, validated) => if validated then ReachedLedger(call) else Lapsed(call)
    case Replied(call, ok) => PostAnswered(call, ok)
  }

  function EventsOf(env: Env, incidents: seq<Incident>): (evs: seq<AttesterEvent>)
    ensures |evs| == |incidents| && forall k :: 0 <= k < |evs| ==> evs[k] == EventOf(env, incidents[k])
  {
    seq(|incidents|, k requires 0 <= k < |incidents| => EventOf(env, incidents[k]))
  }

  lemma {:induction false} RunSnoc(st: AttesterState, evs: seq<AttesterEvent>, ev: AttesterEvent)
    ensures Run(st, evs + [ev]) == Apply(Run(st, evs), ev)
    decreases |evs|
  {
    hide Apply;
    if evs == [] {
      assert [] + [ev] == [ev];
      RunOne(st, ev);
    } else {
      assert (evs + [ev])[1..] == evs[1..] + [ev];
      RunSnoc(Apply(st, evs[0]), evs[1..], ev);
    }
  }

  /** A member that lives through these incidents ends as the machine does, and so
      attests each request once when the calls were orderly. */
  method Live(env: Env, incidents: seq<Incident>) returns (member: Attester)
    ensures fresh(member) && member.View() == Run(FRESH, EventsOf(env, incidents))
    ensures AllOrderly(FRESH, EventsOf(env, incidents)) ==> Distinct(member.posted)
  {
    hide Apply, Run, Attest, AllOrderly, Distinct;
    member := new Attester();
    assert Run(FRESH, EventsOf(env, incidents[..0])) == FRESH by {
      RunNone(FRESH);
      assert EventsOf(env, incidents[..0]) == [];
    }
    for k := 0 to |incidents|
      invariant fresh(member) && member.View() == Run(FRESH, EventsOf(env, incidents[..k]))
    {
      assert EventsOf(env, incidents[..k + 1]) == EventsOf(env, incidents[..k]) + [EventOf(env, incidents[k])];
      RunSnoc(FRESH, EventsOf(env, incidents[..k]), EventOf(env, incidents[k]));
      Meet(env, member, incidents[k]);
    }
    assert incidents[..|incidents|] == incidents;
    if AllOrderly(FRESH, EventsOf(env, incidents)) {
      OneAttestationPerRequest(EventsOf(env, incidents));
    }
  }

  lemma RunNone(st: AttesterState)
    ensures Run(st, []) == st
  {
  }

  method Meet(env: Env, member: Attester, i: Incident)
    modifies member
    ensures member.View() == Apply(old(member.View()), EventOf(env, i))
  {
    hide Attest;
    match i
    case Asked(refusing, h, request, debit) => var cached := member.HandleValidate(env, refusing, h, request, debit);
    case Settled(call, validated) => member.Settle(call, validated);
    case Replied(call, ok) =>
      if call in member.posting {
        member.ResumeValidate(call, ok);
      }
  }
}
