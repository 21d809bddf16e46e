/** One ceremony with a fixed participant set, and the loop that swaps in spares
    (server/src/coordinator/pipeline.ts:133-197, 471-515). Replies of the members
    are inputs: a member may be silent, refuse, fail or send anything. */
module Ceremony {
  import opened Codec
  import opened Frost
  import opened FrostTheorems
  import opened Lists
  import opened Modular
  import opened Types
  import opened Wrappers
  import Lagrange

  datatype SignerInfo = SignerInfo(signerId: SignerId, identifier: int)

  datatype Round1Reply = Committed(hiding: Bytes, binding: Bytes) | NoCommitment

  /** A share that is no hex string is garbled. */
  datatype Round2Reply = Unreachable | RefusedToSign | NotOk(status: int) | Garbled | Partial(zi: int)

  datatype Replies = Replies(round1: seq<Round1Reply>, round2: seq<Round2Reply>)

  datatype CeremonyOutcome =
    | TokenSigned(signature: Signature, signerSet: seq<SignerId>)
    | Refused(refuser: SignerId)
    | Round1Failed(at: SignerId)
    | Round2Failed(at: SignerId)
    | BadPartialSignature(badSigner: SignerId)
    | AggregationFailed
    | AggregateSignatureInvalid
    | Threw // share verification threw: a garbled share, a point that does not decode, clashing identifiers

  // ---- one ceremony ------------------------------------------------------------------

  function SignerIds(chosen: seq<SignerInfo>): (r: seq<SignerId>)
    ensures |r| == |chosen| && forall i :: 0 <= i < |r| ==> r[i] == chosen[i].signerId
  {
    seq(|chosen|, i requires 0 <= i < |chosen| => chosen[i].signerId)
  }

  ghost predicate AllCommitted(round1: seq<Round1Reply>) {
    forall i :: 0 <= i < |round1| ==> round1[i].Committed?
  }

  /** The commitment list every participant is sent. */
  function CommitmentsOf(chosen: seq<SignerInfo>, round1: seq<Round1Reply>): (cs: seq<Commitment>)
    requires |chosen| == |round1| && forall i :: 0 <= i < |round1| ==> round1[i].Committed?
    ensures |cs| == |chosen|
    ensures forall i :: 0 <= i < |cs| ==> cs[i] == Commitment(chosen[i].identifier, round1[i].hiding, round1[i].binding)
  {
    seq(|chosen|, i requires 0 <= i < |chosen| => Commitment(chosen[i].identifier, round1[i].hiding, round1[i].binding))
  }

  /** A member without a published verification share makes the check throw. */
  function ShareCheck(s: Suite, group: Group, who: SignerInfo, zi: int, cs: seq<Commitment>,
                      message: Bytes): Result<bool, FrostError>
    requires s.L >= 2
  {
    if who.identifier !in group.verificationShares then Err(BadPoint)
    else
      VerifySignatureShare(s, SignatureShare(who.identifier, zi), group.verificationShares[who.identifier],
                           cs, group.groupPublicKey, message)
  }

  /** How the k-th participant's round-2 reply ends the ceremony, if it does. */
  function ReplyEnds(s: Suite, group: Group, who: SignerInfo, reply: Round2Reply, cs: seq<Commitment>, message: Bytes)
    : Option<CeremonyOutcome>
    requires s.L >= 2
  {
    match reply
    case Unreachable => Some(Round2Failed(who.signerId))
    case RefusedToSign => Some(Refused(who.signerId))
    case NotOk(_) => Some(Round2Failed(who.signerId))
    case Garbled => Some(Threw)
    case Partial(zi) =>
      match ShareCheck(s, group, who, zi, cs, message)
      case Err(_) => Some(Threw)
      case Ok(accepted) => if accepted then None else Some(BadPartialSignature(who.signerId))
  }

  /** Every round-2 reply up to k is an accepted share. */
  ghost predicate AcceptedUpTo(s: Suite, group: Group, chosen: seq<SignerInfo>, round2: seq<Round2Reply>,
                               cs: seq<Commitment>, message: Bytes, k: nat)
    requires s.L >= 2 && k <= |chosen| == |round2|
  {
    forall i :: 0 <= i < k ==> ReplyEnds(s, group, chosen[i], round2[i], cs, message) == None
  }

  function SharesOf(chosen: seq<SignerInfo>, round2: seq<Round2Reply>): (r: seq<SignatureShare>)
    requires |chosen| == |round2| && forall i :: 0 <= i < |round2| ==> round2[i].Partial?
    ensures |r| == |chosen|
    ensures forall i :: 0 <= i < |r| ==> r[i] == SignatureShare(chosen[i].identifier, round2[i].zi)
  {
    seq(|chosen|, i requires 0 <= i < |chosen| => SignatureShare(chosen[i].identifier, round2[i].zi))
  }

  /** What a ceremony amounts to: it ends at the first participant without a
      commitment, then at the first whose reply is not an accepted share, and
      otherwise with the aggregate of all shares. */
  ghost predicate CeremonyResult(s: Suite, group: Group, chosen: seq<SignerInfo>, replies: Replies, message: Bytes,
                                 outcome: CeremonyOutcome)
    requires s.L >= 2 && |replies.round1| == |replies.round2| == |chosen|
  {
    if !AllCommitted(replies.round1) then
      exists k :: 0 <= k < |chosen| && AllCommitted(replies.round1[..k]) && replies.round1[k].NoCommitment?
                  && outcome == Round1Failed(chosen[k].signerId)
    else
      var cs := CommitmentsOf(chosen, replies.round1);
      if AcceptedUpTo(s, group, chosen, replies.round2, cs, message, |chosen|) then
        outcome == AggregateOutcome(s, group, chosen, cs, SharesOf(chosen, replies.round2), message)
      else
        exists k :: 0 <= k < |chosen| && AcceptedUpTo(s, group, chosen, replies.round2, cs, message, k)
                    && ReplyEnds(s, group, chosen[k], replies.round2[k], cs, message) == Some(outcome)
  }

  function AggregateOutcome(s: Suite, group: Group, chosen: seq<SignerInfo>, cs: seq<Commitment>,
                            shares: seq<SignatureShare>,
                            message: Bytes): CeremonyOutcome
    requires s.L >= 2
  {
    match AggregateOf(s, cs, shares, group.groupPublicKey, message)
    case Err(_) => AggregationFailed
    case Ok(sig) =>
      if VerifySignature(s, sig, message, group.groupPublicKey) then TokenSigned(sig, SignerIds(chosen))
      else AggregateSignatureInvalid
  }

  /** The first participant without a commitment, from the k-th on. */
  function FirstMissing(round1: seq<Round1Reply>, k: nat): (r: Option<nat>)
    requires k <= |round1|
    ensures r.None? ==> forall i :: k <= i < |round1| ==> round1[i].Committed?
    ensures r.Some? ==> k <= r.value < |round1| && round1[r.value].NoCommitment?
                        && forall i :: k <= i < r.value ==> round1[i].Committed?
    decreases |round1| - k
  {
    if k == |round1| then None
    else if round1[k].NoCommitment? then Some(k)
    else FirstMissing(round1, k + 1)
  }

  /** How the second round ends the ceremony, from the k-th participant on. */
  function SecondRound(s: Suite, group: Group, chosen: seq<SignerInfo>, round2: seq<Round2Reply>, cs: seq<Commitment>,
                       message: Bytes, k: nat): (r: Option<CeremonyOutcome>)
    requires s.L >= 2 && k <= |chosen| == |round2|
    decreases |chosen| - k
  {
    if k == |chosen| then None
    else
      var ending := ReplyEnds(s, group, chosen[k], round2[k], cs, message);
      if ending.Some? then ending else SecondRound(s, group, chosen, round2, cs, message, k + 1)
  }

  /** The first reply that ends the ceremony, if one does. */
  lemma {:induction false} FirstEnding(s: Suite, group: Group, chosen: seq<SignerInfo>, round2: seq<Round2Reply>,
                                       cs: seq<Commitment>, message: Bytes, k: nat)
    requires s.L >= 2 && k <= |chosen| == |round2|
    ensures var r := SecondRound(s, group, chosen, round2, cs, message, k);
            && (r.None? <==>
                forall i :: k <= i < |chosen| ==> ReplyEnds(s, group, chosen[i], round2[i], cs, message) == None)
            && (r.Some? ==>
                  exists i :: k <= i < |chosen| && ReplyEnds(s, group, chosen[i], round2[i], cs, message) == r
                              && forall j :: k <= j < i ==>
                                   ReplyEnds(s, group, chosen[j], round2[j], cs, message) == None)
    decreases |chosen| - k
  {
    hide ReplyEnds;
    if k < |chosen| {
      FirstEnding(s, group, chosen, round2, cs, message, k + 1);
    }
  }

  /** The outcome of a ceremony as a function of the replies. */
  function CeremonyOf(s: Suite, group: Group, chosen: seq<SignerInfo>, replies: Replies,
                      message: Bytes): CeremonyOutcome
    requires s.L >= 2 && |replies.round1| == |replies.round2| == |chosen|
  {
    var missing := FirstMissing(replies.round1, 0);
    if missing.Some? then Round1Failed(chosen[missing.value].signerId)
    else
      var cs := CommitmentsOf(chosen, replies.round1);
      var ending := SecondRound(s, group, chosen, replies.round2, cs, message, 0);
      if ending.Some? then ending.value
      else
        FirstEnding(s, group, chosen, replies.round2, cs, message, 0);
        NoneEnds(s, group, chosen, replies.round2, cs, message);
        AggregateOutcome(s, group, chosen, cs, SharesOf(chosen, replies.round2), message)
  }

  lemma NoneEnds(s: Suite, group: Group, chosen: seq<SignerInfo>, round2: seq<Round2Reply>, cs: seq<Commitment>,
                 message: Bytes)
    requires s.L >= 2 && |chosen| == |round2| && AcceptedUpTo(s, group, chosen, round2, cs, message, |chosen|)
    ensures forall i :: 0 <= i < |round2| ==> round2[i].Partial?
  {
    hide ShareCheck;
    forall i | 0 <= i < |round2|
      ensures round2[i].Partial?
    {
      assert ReplyEnds(s, group, chosen[i], round2[i], cs, message) == None;
    }
  }

  /** The description of the outcome fits exactly one outcome, the computed one. */
  lemma ResultIsOutcome(s: Suite, group: Group, chosen: seq<SignerInfo>, replies: Replies, message: Bytes,
                        outcome: CeremonyOutcome)
    requires s.L >= 2 && |replies.round1| == |replies.round2| == |chosen|
    ensures CeremonyResult(s, group, chosen, replies, message, outcome) <==>
            outcome == CeremonyOf(s, group, chosen, replies, message)
  {
    hide ReplyEnds, AggregateOutcome;
    if AllCommitted(replies.round1) {
      var cs := CommitmentsOf(chosen, replies.round1);
      FirstEnding(s, group, chosen, replies.round2, cs, message, 0);
    } else {
      var k := FirstMissing(replies.round1, 0).value;
      assert AllCommitted(replies.round1[..k]);
    }
  }

  method RunCeremony(s: Suite, group: Group, chosen: seq<SignerInfo>, replies: Replies, message: Bytes)
    returns (outcome: CeremonyOutcome)
    requires s.L >= 2 && |replies.round1| == |replies.round2| == |chosen|
    ensures CeremonyResult(s, group, chosen, replies, message, outcome)
  {
    hide VerifySignatureShare, AggregateOf, VerifySignature;
    var commitments: seq<Commitment> := [];
    for i := 0 to |chosen|
      invariant AllCommitted(replies.round1[..i]) && |commitments| == i
      invariant forall j :: 0 <= j < i ==>
                  && replies.round1[j].Committed?
                  && commitments[j] == Commitment(chosen[j].identifier, replies.round1[j].hiding,
                                                  replies.round1[j].binding)
    {
      var r := replies.round1[i];
      if r.NoCommitment? {
        return Round1Failed(chosen[i].signerId);
      }
      commitments := commitments + [Commitment(chosen[i].identifier, r.hiding, r.binding)];
    }
    assert commitments == CommitmentsOf(chosen, replies.round1);
    var shares: seq<SignatureShare> := [];
    for i := 0 to |chosen|
      invariant AcceptedUpTo(s, group, chosen, replies.round2, commitments, message, i) && |shares| == i
      invariant forall j :: 0 <= j < i ==>
                  replies.round2[j].Partial? && shares[j] == SignatureShare(chosen[j].identifier, replies.round2[j].zi)
    {
      var who, r := chosen[i], replies.round2[i];
      if r.Unreachable? {
        return Round2Failed(who.signerId);
      }
      if r.RefusedToSign? {
        return Refused(who.signerId);
      }
      if r.NotOk? {
        return Round2Failed(who.signerId);
      }
      if r.Garbled? || who.identifier !in group.verificationShares {
        return Threw;
      }
      var share := SignatureShare(who.identifier, r.zi);
      var accepted := VerifySignatureShare(s, share, group.verificationShares[who.identifier], commitments,
                                           group.groupPublicKey, message);
      if accepted.Err? {
        return Threw;
      }
      if !accepted.value {
        return BadPartialSignature(who.signerId);
      }
      shares := shares + [share];
    }
    assert shares == SharesOf(chosen, replies.round2);
    var aggregated := Aggregate(s, commitments, shares, group.groupPublicKey, message);
    if aggregated.Err? {
      return AggregationFailed;
    }
    if !VerifySignature(s, aggregated.value, message, group.groupPublicKey) {
      return AggregateSignatureInvalid;
    }
    return TokenSigned(aggregated.value, SignerIds(chosen));
  }

  // ---- which outcomes can happen -------------------------------------------------------

  lemma {:induction false} EndsAt(s: Suite, group: Group, chosen: seq<SignerInfo>, round2: seq<Round2Reply>,
                                  cs: seq<Commitment>, message: Bytes, j: nat, k: nat)
    requires s.L >= 2 && j <= k < |chosen| == |round2|
    requires forall i :: j <= i < k ==> ReplyEnds(s, group, chosen[i], round2[i], cs, message) == None
    requires ReplyEnds(s, group, chosen[k], round2[k], cs, message).Some?
    ensures SecondRound(s, group, chosen, round2, cs, message, j) ==
            ReplyEnds(s, group, chosen[k], round2[k], cs, message)
    decreases k - j
  {
    hide ReplyEnds;
    if j < k {
      EndsAt(s, group, chosen, round2, cs, message, j + 1, k);
    }
  }

  /** The share of this member is accepted. */
  predicate ShareAccepted(s: Suite, group: Group, who: SignerInfo, reply: Round2Reply, cs: seq<Commitment>,
                          message: Bytes)
    requires s.L >= 2
  {
    reply.Partial? && ShareCheck(s, group, who, reply.zi, cs, message) == Ok(true)
  }

  /** The first reply that is not an accepted share decides, and names its sender: no
      answer or an error status is a failed round 2, a refusal a refusal, a share that
      is rejected a bad partial, and one that cannot be checked throws. */
  lemma FirstReplyDecides(s: Suite, group: Group, chosen: seq<SignerInfo>, replies: Replies, message: Bytes, k: nat)
    requires s.L >= 2 && |replies.round1| == |replies.round2| == |chosen| && AllCommitted(replies.round1)
    requires k < |chosen|
    requires var cs := CommitmentsOf(chosen, replies.round1);
             && !ShareAccepted(s, group, chosen[k], replies.round2[k], cs, message)
             && forall i :: 0 <= i < k ==> ShareAccepted(s, group, chosen[i], replies.round2[i], cs, message)
    ensures var outcome, reply := CeremonyOf(s, group, chosen, replies, message), replies.round2[k];
            var cs, id := CommitmentsOf(chosen, replies.round1), chosen[k].signerId;
            var checked := reply.Partial? && ShareCheck(s, group, chosen[k], reply.zi, cs, message).Ok?;
            && (outcome == Round2Failed(id) <==> reply.Unreachable? || reply.NotOk?)
            && (outcome == Refused(id) <==> reply.RefusedToSign?)
            && (outcome == BadPartialSignature(id) <==> checked)
            && (outcome == Threw <==> (reply.Garbled? || (reply.Partial? && !checked)))
  {
    hide ShareCheck, SecondRound, FirstMissing;
    var cs := CommitmentsOf(chosen, replies.round1);
    forall i | 0 <= i < k
      ensures ReplyEnds(s, group, chosen[i], replies.round2[i], cs, message) == None
    {
      assert ShareAccepted(s, group, chosen[i], replies.round2[i], cs, message);
    }
    EndsAt(s, group, chosen, replies.round2, cs, message, 0, k);
    NoneMissing(replies.round1);
  }

  lemma NoneMissing(round1: seq<Round1Reply>)
    requires AllCommitted(round1)
    ensures FirstMissing(round1, 0).None?
  {
  }

  /** The first member without a commitment ends the ceremony in round 1. */
  lemma MissingDecides(s: Suite, group: Group, chosen: seq<SignerInfo>, replies: Replies, message: Bytes, k: nat)
    requires s.L >= 2 && |replies.round1| == |replies.round2| == |chosen| && k < |chosen|
    requires replies.round1[k].NoCommitment? && forall i :: 0 <= i < k ==> replies.round1[i].Committed?
    ensures CeremonyOf(s, group, chosen, replies, message) == Round1Failed(chosen[k].signerId)
  {
    hide SecondRound;
    var missing := FirstMissing(replies.round1, 0);
    assert missing.Some? && missing.value == k;
  }

  /** The group the dealer published for this polynomial. */
  ghost predicate DealtGroup(s: Suite, coeffs: seq<int>, group: Group)
    requires s.L > 0
  {
    && group.groupPublicKey == s.encode(ShareAt(coeffs, 0, s.L))
    && forall id :: id in group.verificationShares ==>
         0 < id < s.L && group.verificationShares[id] == DealtShare(s, coeffs, id).verificationShare
  }

  ghost predicate DistinctIdentifiers(chosen: seq<SignerInfo>) {
    forall i, j :: 0 <= i < j < |chosen| ==> chosen[i].identifier != chosen[j].identifier
  }

  lemma CheckedDerives(s: Suite, cs: seq<Commitment>, own: Commitment, share: SignatureShare, vs: Bytes,
                       groupKey: Bytes, message: Bytes)
    requires s.L >= 2 && Distinct(Ids(cs)) && own in cs && share.identifier == own.identifier
    requires VerifySignatureShare(s, share, vs, cs, groupKey, message).Ok?
    ensures Derive(s, cs, groupKey, message).Ok?
  {
    hide Coefficient, ShareEquation, Derive, Find;
    FoundOwn(cs, own);
  }

  lemma DerivedDecodes(s: Suite, cs: seq<Commitment>, groupKey: Bytes, message: Bytes)
    requires s.L >= 2 && Derive(s, cs, groupKey, message).Ok?
    ensures Decodable(s, cs)
  {
    hide BindingFactors, Challenge, GroupCommitment;
    SortKeeps(cs);
    var sorted := SortedCommitments(cs).value;
    forall c | c in sorted
      ensures s.decode(c.hiding).Some? && s.decode(c.binding).Some?
    {
      if s.decode(c.hiding).None? || s.decode(c.binding).None? {
        UndecodableFails(s, sorted, BindingFactors(s, groupKey, sorted, message), c);
      }
    }
  }

  lemma {:induction false} UndecodableFails(s: Suite, cs: seq<Commitment>, rho: map<int, int>, c: Commitment)
    requires s.L > 0 && c in cs && (s.decode(c.hiding).None? || s.decode(c.binding).None?)
    requires forall x :: x in cs ==> x.identifier in rho
    ensures GroupCommitment(s, cs, rho).Err?
  {
    var n := |cs| - 1;
    if c != cs[n] {
      UndecodableFails(s, cs[..n], rho, c);
    }
  }

  /** The accepted replies are the accepted shares of the aggregation theorem. */
  lemma AcceptedReplies(s: Suite, coeffs: seq<int>, group: Group, chosen: seq<SignerInfo>, replies: Replies,
                        message: Bytes)
    requires s.L >= 2 && DealtGroup(s, coeffs, group)
    requires |replies.round1| == |replies.round2| == |chosen| && AllCommitted(replies.round1)
    requires AcceptedUpTo(s, group, chosen, replies.round2, CommitmentsOf(chosen, replies.round1), message, |chosen|)
    ensures forall i :: 0 <= i < |chosen| ==>
              replies.round2[i].Partial? && chosen[i].identifier in group.verificationShares
    ensures AcceptedShares(s, coeffs, CommitmentsOf(chosen, replies.round1), SharesOf(chosen, replies.round2),
                           group.groupPublicKey, message)
  {
    hide VerifySignatureShare, DealtShare;
    var cs := CommitmentsOf(chosen, replies.round1);
    forall i | 0 <= i < |chosen|
      ensures replies.round2[i].Partial? && chosen[i].identifier in group.verificationShares
      ensures ShareCheck(s, group, chosen[i], replies.round2[i].zi, cs, message) == Ok(true)
    {
      assert ReplyEnds(s, group, chosen[i], replies.round2[i], cs, message) == None;
    }
  }

  lemma ChosenParticipate(s: Suite, coeffs: seq<int>, group: Group, chosen: seq<SignerInfo>, round1: seq<Round1Reply>)
    requires s.L >= 2 && DealtGroup(s, coeffs, group) && DistinctIdentifiers(chosen)
    requires forall i :: 0 <= i < |chosen| ==> chosen[i].identifier in group.verificationShares
    requires |round1| == |chosen| && AllCommitted(round1)
    ensures Participants(CommitmentsOf(chosen, round1), s.L)
  {
    hide DealtShare;
    var cs := CommitmentsOf(chosen, round1);
    forall c | c in cs
      ensures 0 < c.identifier < s.L
    {
      var i :| 0 <= i < |cs| && cs[i] == c;
      assert chosen[i].identifier in group.verificationShares;
    }
  }

  /** With at least t distinct members under the dealer's group, a ceremony whose
      replies are all accepted shares signs the token: AGGREGATION_FAILED and
      AGGREGATE_SIGNATURE_INVALID cannot happen, whatever the members sent. */
  lemma AcceptedCeremonySigns(s: Suite, coeffs: seq<int>, group: Group, chosen: seq<SignerInfo>, replies: Replies,
                              message: Bytes,
                              outcome: CeremonyOutcome)
    requires ValidSuite(s) && s.L >= 2 && DealtGroup(s, coeffs, group) && DistinctIdentifiers(chosen)
    requires |replies.round1| == |replies.round2| == |chosen| && |chosen| >= |coeffs| >= 1
    requires AllCommitted(replies.round1)
    requires AcceptedUpTo(s, group, chosen, replies.round2, CommitmentsOf(chosen, replies.round1), message, |chosen|)
    requires CeremonyResult(s, group, chosen, replies, message, outcome)
    ensures outcome.TokenSigned? && outcome.signerSet == SignerIds(chosen)
    ensures VerifySignature(s, outcome.signature, message, group.groupPublicKey)
  {
    hide ValidSuite, VerifySignatureShare, AggregateOf, VerifySignature, Participants, Decodable, Derive,
      AcceptedShares, Distinct;
    var cs := CommitmentsOf(chosen, replies.round1);
    AcceptedReplies(s, coeffs, group, chosen, replies, message);
    ChosenParticipate(s, coeffs, group, chosen, replies.round1);
    ParticipantsDistinct(cs, s.L);
    assert ReplyEnds(s, group, chosen[0], replies.round2[0], cs, message) == None;
    CheckedDerives(s, cs, cs[0], SignatureShare(chosen[0].identifier, replies.round2[0].zi),
                   group.verificationShares[chosen[0].identifier], group.groupPublicKey, message);
    DerivedDecodes(s, cs, group.groupPublicKey, message);
    AcceptedAggregateVerifies(s, coeffs, cs, SharesOf(chosen, replies.round2), message);
  }

  lemma AggregationNeverFails(s: Suite, coeffs: seq<int>, group: Group, chosen: seq<SignerInfo>, replies: Replies,
                              message: Bytes,
                              outcome: CeremonyOutcome)
    requires ValidSuite(s) && s.L >= 2 && DealtGroup(s, coeffs, group) && DistinctIdentifiers(chosen)
    requires |replies.round1| == |replies.round2| == |chosen| && |chosen| >= |coeffs| >= 1
    requires CeremonyResult(s, group, chosen, replies, message, outcome)
    ensures outcome != AggregationFailed && outcome != AggregateSignatureInvalid
    ensures outcome.TokenSigned? <==>
              && AllCommitted(replies.round1)
              && AcceptedUpTo(s, group, chosen, replies.round2, CommitmentsOf(chosen, replies.round1), message,
                              |chosen|)
    ensures outcome.TokenSigned? ==> VerifySignature(s, outcome.signature, message, group.groupPublicKey)
    ensures outcome.Refused? ==> outcome.refuser in SignerIds(chosen)
    ensures outcome.BadPartialSignature? ==>
              exists k :: 0 <= k < |chosen| && chosen[k].signerId == outcome.badSigner && replies.round2[k].Partial?
                          && AllCommitted(replies.round1)
                          && ShareCheck(s, group, chosen[k], replies.round2[k].zi,
                                        CommitmentsOf(chosen, replies.round1), message) == Ok(false)
  {
    hide ValidSuite, VerifySignatureShare, AggregateOf, VerifySignature, DistinctIdentifiers, DealtGroup;
    if AllCommitted(replies.round1) {
      var cs := CommitmentsOf(chosen, replies.round1);
      if AcceptedUpTo(s, group, chosen, replies.round2, cs, message, |chosen|) {
        AcceptedCeremonySigns(s, coeffs, group, chosen, replies, message, outcome);
      } else {
        var k :| 0 <= k < |chosen| && AcceptedUpTo(s, group, chosen, replies.round2, cs, message, k)
                 && ReplyEnds(s, group, chosen[k], replies.round2[k], cs, message) == Some(outcome);
        assert SignerIds(chosen)[k] == chosen[k].signerId;
      }
    }
  }

  // ---- refusals and spares ---------------------------------------------------------------

  /** The online members that have not refused, in order. */
  function Pool(online: seq<SignerInfo>, refused: set<SignerId>): (r: seq<SignerInfo>)
    ensures |r| <= |online|
    ensures forall x :: x in r <==> x in online && x.signerId !in refused
  {
    if online == [] then []
    else if online[0].signerId in refused then Pool(online[1..], refused)
    else [online[0]] + Pool(online[1..], refused)
  }

  /** The first t members of the pool. */
  function Chosen(online: seq<SignerInfo>, refused: set<SignerId>, t: nat): (r: seq<SignerInfo>)
    requires t <= |Pool(online, refused)|
    ensures |r| == t && forall x :: x in r ==> x in online && x.signerId !in refused
  {
    Pool(online, refused)[..t]
  }

  ghost predicate DistinctSigners(online: seq<SignerInfo>) {
    forall i, j :: 0 <= i < j < |online| ==>
      online[i].signerId != online[j].signerId && online[i].identifier != online[j].identifier
  }

  lemma {:induction false} PoolDistinct(online: seq<SignerInfo>, refused: set<SignerId>)
    requires DistinctSigners(online)
    ensures DistinctSigners(Pool(online, refused))
  {
    if online != [] {
      PoolDistinct(online[1..], refused);
    }
  }

  /** A refusal takes exactly one member out of the pool. */
  lemma {:induction false} PoolShrinks(online: seq<SignerInfo>, refused: set<SignerId>, x: SignerInfo)
    requires DistinctSigners(online) && x in online && x.signerId !in refused
    ensures |Pool(online, refused + {x.signerId})| == |Pool(online, refused)| - 1
  {
    if online[0] == x {
      PoolUnchanged(online[1..], refused, x.signerId);
    } else {
      assert online[0].signerId != x.signerId;
      PoolShrinks(online[1..], refused, x);
    }
  }

  lemma {:induction false} PoolUnchanged(online: seq<SignerInfo>, refused: set<SignerId>, id: SignerId)
    requires forall y :: y in online ==> y.signerId != id
    ensures Pool(online, refused + {id}) == Pool(online, refused)
  {
    if online != [] {
      PoolUnchanged(online[1..], refused, id);
    }
  }

  lemma {:induction false} FullPool(online: seq<SignerInfo>)
    ensures Pool(online, {}) == online
  {
    if online != [] {
      FullPool(online[1..]);
    }
  }

  /** How many members before position i have not refused. */
  function StillBefore(online: seq<SignerInfo>, refused: set<SignerId>, i: nat): nat
    requires i <= |online|
  {
    if i == 0 then 0 else StillBefore(online, refused, i - 1) + if online[i - 1].signerId in refused then 0 else 1
  }

  lemma {:induction false} StillInTail(online: seq<SignerInfo>, refused: set<SignerId>, i: nat)
    requires 0 < i <= |online|
    ensures StillBefore(online, refused, i) ==
            (if online[0].signerId in refused then 0 else 1) + StillBefore(online[1..], refused, i - 1)
  {
    if i > 1 {
      StillInTail(online, refused, i - 1);
    }
  }

  lemma {:induction false} PoolInOrder(online: seq<SignerInfo>, refused: set<SignerId>, i: nat)
    requires i < |online| && online[i].signerId !in refused
    ensures StillBefore(online, refused, i) < |Pool(online, refused)|
    ensures Pool(online, refused)[StillBefore(online, refused, i)] == online[i]
  {
    if i > 0 {
      PoolInOrder(online[1..], refused, i - 1);
      StillInTail(online, refused, i);
    }
  }

  /** A ceremony takes the first members in the order in which they were found online,
      leaving out those that refused: a member is taken exactly when fewer than t
      others before it are still willing, and it stands where they put it. */
  lemma ChosenAreFirst(online: seq<SignerInfo>, refused: set<SignerId>, t: nat, i: nat)
    requires DistinctSigners(online) && t <= |Pool(online, refused)| && i < |online| && online[i].signerId !in refused
    ensures online[i] in Chosen(online, refused, t) <==> StillBefore(online, refused, i) < t
    ensures StillBefore(online, refused, i) < t ==>
              Chosen(online, refused, t)[StillBefore(online, refused, i)] == online[i]
  {
    hide DistinctSigners;
    PoolInOrder(online, refused, i);
    PoolDistinct(online, refused);
    var pool, n := Pool(online, refused), StillBefore(online, refused, i);
    if online[i] in pool[..t] {
      var k :| 0 <= k < t && pool[k] == online[i];
      SamePlace(pool, k, n);
    }
  }

  lemma SamePlace(pool: seq<SignerInfo>, k: nat, n: nat)
    requires DistinctSigners(pool) && k < |pool| && n < |pool| && pool[k] == pool[n]
    ensures k == n
  {
  }

  datatype LoopResult = Ended(outcome: CeremonyOutcome) | SignersRefused

  function RefusedBy(refusals: seq<SignerId>): set<SignerId> {
    set x | x in refusals
  }

  /** The k-th ceremony of a loop with these refusals so far gave this outcome. */
  ghost predicate CeremonyWas(s: Suite, group: Group, t: nat, online: seq<SignerInfo>, refusals: seq<SignerId>,
                              replies: Replies,
                              message: Bytes, outcome: CeremonyOutcome)
    requires s.L >= 2
  {
    && |Pool(online, RefusedBy(refusals))| >= t
    && |replies.round1| == |replies.round2| == t
    && CeremonyResult(s, group, Chosen(online, RefusedBy(refusals), t), replies, message, outcome)
  }

  lemma RefuserWasChosen(s: Suite, group: Group, chosen: seq<SignerInfo>, replies: Replies, message: Bytes,
                         outcome: CeremonyOutcome)
    returns (x: SignerInfo)
    requires s.L >= 2 && |replies.round1| == |replies.round2| == |chosen|
    requires CeremonyResult(s, group, chosen, replies, message, outcome) && outcome.Refused?
    ensures x in chosen && x.signerId == outcome.refuser
  {
    hide VerifySignatureShare, AggregateOf, VerifySignature;
    var cs := CommitmentsOf(chosen, replies.round1);
    var k :| 0 <= k < |chosen| && AcceptedUpTo(s, group, chosen, replies.round2, cs, message, k)
             && ReplyEnds(s, group, chosen[k], replies.round2[k], cs, message) == Some(outcome);
    x := chosen[k];
  }

  /** A signed token names the participants, a refusal one of them. */
  lemma OutcomeNamesChosen(s: Suite, group: Group, chosen: seq<SignerInfo>, replies: Replies, message: Bytes)
    requires s.L >= 2 && |replies.round1| == |replies.round2| == |chosen|
    ensures var outcome := CeremonyOf(s, group, chosen, replies, message);
            && (outcome.TokenSigned? ==> outcome.signerSet == SignerIds(chosen))
            && (outcome.Refused? ==> outcome.refuser in SignerIds(chosen))
  {
    hide CeremonyOf, CeremonyResult;
    var outcome := CeremonyOf(s, group, chosen, replies, message);
    ResultIsOutcome(s, group, chosen, replies, message, outcome);
    if outcome.Refused? {
      var x := RefuserWasChosen(s, group, chosen, replies, message, outcome);
      var k :| 0 <= k < |chosen| && chosen[k] == x;
      assert SignerIds(chosen)[k] == outcome.refuser;
    }
    if outcome.TokenSigned? {
      SignedMeans(s, group, chosen, replies, message, outcome);
    }
  }

  /** Behind a signed token: an accepted share of every participant, and an
      aggregate that verifies under the group key. */
  lemma SignedMeans(s: Suite, group: Group, chosen: seq<SignerInfo>, replies: Replies, message: Bytes,
                    outcome: CeremonyOutcome)
    requires s.L >= 2 && |replies.round1| == |replies.round2| == |chosen|
    requires CeremonyResult(s, group, chosen, replies, message, outcome) && outcome.TokenSigned?
    ensures outcome.signerSet == SignerIds(chosen) && AllCommitted(replies.round1)
    ensures var cs := CommitmentsOf(chosen, replies.round1);
            forall i :: 0 <= i < |chosen| ==>
              replies.round2[i].Partial?
              && ShareCheck(s, group, chosen[i], replies.round2[i].zi, cs, message) == Ok(true)
    ensures VerifySignature(s, outcome.signature, message, group.groupPublicKey)
  {
    hide ShareCheck, AggregateOf, VerifySignature;
    if AllCommitted(replies.round1) {
      var cs := CommitmentsOf(chosen, replies.round1);
      forall i | 0 <= i < |chosen|
        ensures ReplyEnds(s, group, chosen[i], replies.round2[i], cs, message) == None
      {
      }
    }
  }

  /** Each ceremony so far ended in the refusal recorded for it. */
  ghost predicate AllRefused(s: Suite, group: Group, t: nat, online: seq<SignerInfo>, refusals: seq<SignerId>,
                             script: nat -> Replies, message: Bytes)
    requires s.L >= 2
  {
    && Distinct(refusals)
    && forall k :: 0 <= k < |refusals| ==>
         CeremonyWas(s, group, t, online, refusals[..k], script(k), message, Refused(refusals[k]))
  }

  lemma OneMoreRefusal(s: Suite, group: Group, t: nat, online: seq<SignerInfo>, refusals: seq<SignerId>,
                       script: nat -> Replies, message: Bytes, outcome: CeremonyOutcome)
    requires s.L >= 2 && DistinctSigners(online) && outcome.Refused?
    requires AllRefused(s, group, t, online, refusals, script, message)
    requires CeremonyWas(s, group, t, online, refusals, script(|refusals|), message, outcome)
    ensures AllRefused(s, group, t, online, refusals + [outcome.refuser], script, message)
    ensures |Pool(online, RefusedBy(refusals + [outcome.refuser]))| == |Pool(online, RefusedBy(refusals))| - 1
  {
    hide CeremonyResult, DistinctSigners, Pool;
    var x := RefuserWasChosen(s, group, Chosen(online, RefusedBy(refusals), t), script(|refusals|), message, outcome);
    PoolShrinks(online, RefusedBy(refusals), x);
    assert RefusedBy(refusals + [outcome.refuser]) == RefusedBy(refusals) + {x.signerId};
    assert forall k :: 0 <= k <= |refusals| ==> (refusals + [outcome.refuser])[..k] == refusals[..k];
    assert refusals[..|refusals|] == refusals;
  }

  /** How the loop ended after these refusals: too few members were left, or a
      ceremony ended without a refusal. */
  ghost predicate LoopEnds(s: Suite, group: Group, t: nat, online: seq<SignerInfo>, script: nat -> Replies,
                           message: Bytes,
                           refusals: seq<SignerId>, result: LoopResult)
    requires s.L >= 2
  {
    && AllRefused(s, group, t, online, refusals, script, message)
    && (result.SignersRefused? ==> |Pool(online, RefusedBy(refusals))| < t)
    && (result.Ended? ==>
          !result.outcome.Refused?
          && CeremonyWas(s, group, t, online, refusals, script(|refusals|), message, result.outcome))
  }

  /** Ceremonies until one ends without a refusal or fewer than t members are
      left. Each refusal removes one online member, so at most
      |online| - t + 1 ceremonies run. */
  method SignWithSpares(s: Suite, group: Group, t: nat, online: seq<SignerInfo>, script: nat -> Replies, message: Bytes)
    returns (result: LoopResult, refused: set<SignerId>, ceremonies: nat, ghost refusals: seq<SignerId>)
    requires s.L >= 2 && DistinctSigners(online)
    requires forall k :: |script(k).round1| == |script(k).round2| == t
    ensures refused == RefusedBy(refusals) && LoopEnds(s, group, t, online, script, message, refusals, result)
    ensures ceremonies == if result.Ended? then |refusals| + 1 else |refusals|
    ensures |online| >= t ==> ceremonies <= |online| - t + 1
    ensures |online| < t ==> ceremonies == 0
  {
    hide CeremonyResult, DistinctSigners, Pool, AllRefused;
    refused, ceremonies, refusals := {}, 0, [];
    FullPool(online);
    NoneRefused(s, group, t, online, script, message);
    while true
      invariant refused == RefusedBy(refusals) && AllRefused(s, group, t, online, refusals, script, message)
      invariant ceremonies == |refusals| && |Pool(online, refused)| == |online| - ceremonies
      invariant ceremonies > 0 ==> |Pool(online, refused)| >= t - 1
      decreases |online| - ceremonies
    {
      if |Pool(online, refused)| < t {
        return SignersRefused, refused, ceremonies, refusals;
      }
      var chosen := Chosen(online, refused, t);
      var outcome := RunCeremony(s, group, chosen, script(ceremonies), message);
      ceremonies := ceremonies + 1;
      if !outcome.Refused? {
        return Ended(outcome), refused, ceremonies, refusals;
      }
      OneMoreRefusal(s, group, t, online, refusals, script, message, outcome);
      refused := refused + {outcome.refuser};
      refusals := refusals + [outcome.refuser];
    }
  }

  lemma NoneRefused(s: Suite, group: Group, t: nat, online: seq<SignerInfo>, script: nat -> Replies, message: Bytes)
    requires s.L >= 2
    ensures AllRefused(s, group, t, online, [], script, message) && RefusedBy([]) == {}
  {
  }
}
