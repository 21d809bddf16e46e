/** What the signing code promises: threshold signatures that verify, exact share
    verification, failure one signer short, and independence of list order. */
module FrostTheorems {
  import opened Codec
  import opened Finite
  import opened Frost
  import opened Lists
  import opened Modular
  import opened Wrappers
  import Lagrange

  // ---- suites exist ---------------------------------------------------------

  function FixedEncode(p: int): Bytes {
    if p < 0 then [] else LittleEndian(p, 32)
  }

  function FixedDecode(L: int, b: Bytes): Option<int> {
    if |b| == 32 && NumberLE(b) < L then Some(NumberLE(b)) else None
  }

  /** Every prime that fits 32 bytes has a suite, with any hash. */
  lemma SuiteExists(L: int, sha512: Bytes -> Bytes)
    requires IsPrime(L) && L <= Pow(256, 32)
    ensures ValidSuite(Suite(L, sha512, p => FixedEncode(p), b => FixedDecode(L, b)))
  {
    hide Pow, IsPrime;
    forall p | 0 <= p < L
      ensures |FixedEncode(p)| == 32 && FixedDecode(L, FixedEncode(p)) == Some(p)
    {
      LittleEndianRoundTrip(p, 32);
    }
  }

  // ---- the coefficient method computes the Lagrange coefficient ------------

  lemma {:induction false} OverSeqIsOverSet(i: int, ids: seq<int>)
    requires Distinct(ids)
    ensures NumOver(i, ids) == Lagrange.Num(i, Elements(ids))
    ensures DenOver(i, ids) == Lagrange.Den(i, Elements(ids))
  {
    if ids == [] {
      assert Elements(ids) - {i} == {};
    } else {
      var front, j := ids[..|ids| - 1], ids[|ids| - 1];
      ElementsSnoc(ids);
      assert Elements(ids) - {j} == Elements(front);
      OverSeqIsOverSet(i, front);
      AppendParticipant(i, j, Elements(front));
      assert Elements(front) + {j} == Elements(ids);
    }
  }

  lemma AppendParticipant(i: int, j: int, s: set<int>)
    requires j !in s
    ensures Lagrange.Num(i, s + {j}) == Lagrange.Num(i, s) * if j == i then 1 else j
    ensures Lagrange.Den(i, s + {j}) == Lagrange.Den(i, s) * if j == i then 1 else j - i
  {
    if j == i {
      assert s + {j} - {i} == s - {i};
    } else {
      Lagrange.DropParticipant(i, j, s + {j});
      assert s + {j} - {j} == s;
    }
  }

  lemma CoefficientIsLambda(i: int, ids: seq<int>, L: int)
    requires IsPrime(L) && Distinct(ids) && Lagrange.Identifiers(Elements(ids), L) && i in ids
    ensures Coefficient(i, ids, L) == Ok(Lagrange.Lambda(i, Elements(ids), L))
  {
    OverSeqIsOverSet(i, ids);
    Lagrange.DenNonZero(i, Elements(ids), L);
  }

  ghost predicate Clashes(i: int, j: int, L: int)
    requires L > 0
  {
    j != i && (j - i) % L == 0
  }

  /** The coefficient is refused exactly when some other listed identifier is
      congruent to i. A repeated i itself is skipped and never refused. */
  lemma {:induction false} CoefficientRefuses(i: int, ids: seq<int>, L: int)
    requires IsPrime(L)
    ensures Coefficient(i, ids, L).Err? <==> exists j :: j in ids && Clashes(i, j, L)
  {
    if ids == [] {
      Unique(1, 0, 1, L);
    } else {
      var front, j := ids[..|ids| - 1], ids[|ids| - 1];
      assert ids == front + [j];
      CoefficientRefuses(i, front, L);
      if j != i {
        ZeroProduct(DenOver(i, front), j - i, L);
      }
      assert Coefficient(i, ids, L).Err? <==> Coefficient(i, front, L).Err? || Clashes(i, j, L);
      forall x
        ensures x in ids <==> x in front || x == j
      {
      }
    }
  }

  /** The list without its entries equal to i. */
  function Others(i: int, ids: seq<int>): seq<int> {
    if ids == [] then []
    else Others(i, ids[..|ids| - 1]) + if ids[|ids| - 1] == i then [] else [ids[|ids| - 1]]
  }

  /** However often the own identifier is repeated, the coefficient is the same. */
  lemma {:induction false} OwnSkipped(i: int, ids: seq<int>, L: int)
    requires L >= 2
    ensures NumOver(i, Others(i, ids)) == NumOver(i, ids) && DenOver(i, Others(i, ids)) == DenOver(i, ids)
    ensures Coefficient(i, Others(i, ids), L) == Coefficient(i, ids, L)
  {
    if ids != [] {
      var front, j := ids[..|ids| - 1], ids[|ids| - 1];
      OwnSkipped(i, front, L);
      if j == i {
        assert Others(i, ids) == Others(i, front);
      } else {
        assert Others(i, ids)[..|Others(i, ids)| - 1] == Others(i, front);
      }
    }
  }

  /** A list with the own identifier twice is not refused. */
  lemma RepeatedOwnPasses(L: int)
    requires L >= 2
    ensures Coefficient(1, [1, 1, 2], L).Ok? && !Distinct([1, 1, 2])
  {
    assert [1, 1, 2][..2] == [1, 1] && [1, 1][..1] == [1] && [1][..0] == [];
    assert DenOver(1, [1]) == 1 && DenOver(1, [1, 1]) == 1 && DenOver(1, [1, 1, 2]) == 1;
    assert [1, 1, 2][0] == [1, 1, 2][1];
  }

  lemma ZeroProduct(a: int, b: int, L: int)
    requires IsPrime(L)
    ensures (a * b) % L == 0 <==> a % L == 0 || b % L == 0
  {
    if (a * b) % L == 0 && a % L != 0 {
      Euclid(L, a, b);
    }
    Unique(0, 0, 0, L);
    if a % L == 0 {
      CongScale(b, a, 0, L);
    }
    if b % L == 0 {
      CongScale(a, b, 0, L);
    }
  }

  // ---- the group commitment is a sum ---------------------------------------

  ghost predicate Decodable(s: Suite, cs: seq<Commitment>) {
    forall c :: c in cs ==> s.decode(c.hiding).Some? && s.decode(c.binding).Some?
  }

  /** A signer's part of R. */
  ghost function NonceTerm(s: Suite, rho: map<int, int>): Commitment -> int {
    (c: Commitment) =>
      if s.decode(c.hiding).Some? && s.decode(c.binding).Some? && c.identifier in rho
      then s.decode(c.hiding).value + s.decode(c.binding).value * rho[c.identifier]
      else 0
  }

  lemma {:induction false} GroupCommitmentSum(s: Suite, cs: seq<Commitment>, rho: map<int, int>)
    requires s.L > 0 && Decodable(s, cs) && forall c :: c in cs ==> c.identifier in rho
    ensures GroupCommitment(s, cs, rho).Ok?
    ensures 0 <= GroupCommitment(s, cs, rho).value < s.L
    ensures Cong(GroupCommitment(s, cs, rho).value, SumBy(cs, NonceTerm(s, rho)), s.L)
  {
    if cs == [] {
      Unique(0, 0, 0, s.L);
    } else {
      var front, last := cs[..|cs| - 1], cs[|cs| - 1];
      GroupCommitmentSum(s, front, rho);
      assert last in cs;
      var R, D, E := GroupCommitment(s, front, rho).value, s.decode(last.hiding).value, s.decode(last.binding).value;
      AccumulatedPoint(R, SumBy(front, NonceTerm(s, rho)), D, E * rho[last.identifier], s.L);
    }
  }

  lemma AccumulatedPoint(R: int, sum: int, D: int, e: int, L: int)
    requires L > 0 && Cong(R, sum, L)
    ensures Cong((R + D + e % L) % L, sum + (D + e), L)
  {
    CongMod(e, L);
    CongAdd(R, sum, D, D, L);
    CongAdd(R + D, sum + D, e % L, e, L);
    CongMod(R + D + e % L, L);
  }

  lemma SameIds(cs: seq<Commitment>)
    ensures multiset(SortById(cs)) == multiset(cs)
    ensures Elements(Ids(SortById(cs))) == Elements(Ids(cs))
    ensures Distinct(Ids(SortById(cs))) <==> Distinct(Ids(cs))
  {
    var sorted := SortById(cs);
    SortSorts(cs);
    SortKeeps(cs);
    forall x
      ensures x in Ids(sorted) <==> x in Ids(cs)
    {
      MemberIds(sorted, x);
      MemberIds(cs, x);
    }
    if Distinct(Ids(cs)) {
      DistinctByMultiset(cs, sorted);
    }
    if Distinct(Ids(sorted)) {
      DistinctByMultiset(sorted, cs);
    }
  }

  lemma MemberIds(cs: seq<Commitment>, x: int)
    ensures x in Ids(cs) <==> exists c :: c in cs && c.identifier == x
  {
    if x in Ids(cs) {
      var i :| 0 <= i < |cs| && Ids(cs)[i] == x;
      assert cs[i] in cs;
    }
    if exists c :: c in cs && c.identifier == x {
      var c :| c in cs && c.identifier == x;
      var i :| 0 <= i < |cs| && cs[i] == c;
      assert Ids(cs)[i] == x;
    }
  }

  /** Distinct identifiers depend only on which commitments are listed how often. */
  lemma DistinctByMultiset(a: seq<Commitment>, b: seq<Commitment>)
    requires multiset(a) == multiset(b) && Distinct(Ids(a))
    ensures Distinct(Ids(b))
  {
    forall i, j | 0 <= i < j < |b|
      ensures Ids(b)[i] != Ids(b)[j]
    {
      if b[i].identifier == b[j].identifier {
        assert b[i] in multiset(a) && b[j] in multiset(a);
        var i' :| 0 <= i' < |a| && a[i'] == b[i];
        var j' :| 0 <= j' < |a| && a[j'] == b[j];
        assert Ids(a)[i'] == Ids(a)[j'];
        assert i' == j';
        RepeatedMember(b, i, j);
        OnceListed(a, i');
      }
    }
  }

  lemma RepeatedMember(b: seq<Commitment>, i: nat, j: nat)
    requires i < j < |b| && b[i] == b[j]
    ensures multiset(b)[b[i]] >= 2
  {
    assert b == b[..j] + [b[j]] + b[j + 1..];
    assert b[i] in b[..j];
  }

  lemma OnceListed(a: seq<Commitment>, i: nat)
    requires i < |a| && Distinct(Ids(a))
    ensures multiset(a)[a[i]] == 1
  {
    assert a == a[..i] + [a[i]] + a[i + 1..];
    forall k | 0 <= k < |a| && k != i
      ensures a[k] != a[i]
    {
      assert Ids(a)[k] != Ids(a)[i];
    }
    assert a[i] !in a[..i] && a[i] !in a[i + 1..];
  }

  /** The derived R is the sum of the signers' nonce terms, in any list order. */
  lemma DerivedR(s: Suite, cs: seq<Commitment>, groupKey: Bytes, message: Bytes)
    requires s.L > 0 && Distinct(Ids(cs)) && Decodable(s, cs)
    ensures Derive(s, cs, groupKey, message).Ok?
    ensures var t := Derive(s, cs, groupKey, message).value;
            && 0 <= t.R < s.L && t.c == Challenge(s, t.R, groupKey, message) && 0 <= t.c < s.L
            && t.sorted == SortById(cs)
            && Cong(t.R, SumBy(cs, NonceTerm(s, t.rho)), s.L)
  {
    SameIds(cs);
    SortKeeps(cs);
    var sorted := SortById(cs);
    var rho := BindingFactors(s, groupKey, sorted, message);
    GroupCommitmentSum(s, sorted, rho);
    SumByPermutation(sorted, cs, NonceTerm(s, rho));
  }

  // ---- share verification --------------------------------------------------

  ghost predicate Participants(cs: seq<Commitment>, L: int) {
    Distinct(Ids(cs)) && forall c :: c in cs ==> 0 < c.identifier < L
  }

  lemma ParticipantsAreIdentifiers(cs: seq<Commitment>, L: int)
    requires Participants(cs, L)
    ensures Lagrange.Identifiers(Elements(Ids(cs)), L)
  {
    forall i | i in Elements(Ids(cs))
      ensures 0 < i < L
    {
      MemberIds(cs, i);
    }
  }

  lemma FoundOwn(cs: seq<Commitment>, own: Commitment)
    requires own in cs && Distinct(Ids(cs))
    ensures Find(SortById(cs), own.identifier) == Some(own)
    ensures own.identifier in Ids(SortById(cs))
  {
    hide SortById, Find, Distinct;
    SameIds(cs);
    SortKeeps(cs);
    FoundInDistinct(SortById(cs), own);
  }

  lemma FoundInDistinct(cs: seq<Commitment>, own: Commitment)
    requires own in cs && Distinct(Ids(cs))
    ensures Find(cs, own.identifier) == Some(own) && own.identifier in Ids(cs)
  {
    var i :| 0 <= i < |cs| && cs[i] == own;
    assert Ids(cs)[i] == own.identifier;
    var found := Find(cs, own.identifier).value;
    var j :| 0 <= j < |cs| && cs[j] == found;
    assert Ids(cs)[i] == Ids(cs)[j];
  }

  /** What a correct partial of `own` is congruent to. */
  ghost function Expected(s: Suite, t: Transcript, own: Commitment, weight: int, Y: int): int {
    NonceTerm(s, t.rho)(own) + t.c * (weight * Y)
  }

  lemma ShareEquationIff(zi: int, D: int, E: int, rho: int, Y: int, c: int, weight: int, L: int)
    requires L > 0
    ensures ShareEquation(zi, D, E, rho, Y, c, weight, L) <==> Cong(zi, D + E * rho + c * (weight * Y), L)
  {
    var e := E * rho;
    CongMod(e, L);
    CongMod(c * weight, L);
    CongMod(Y * ((c * weight) % L), L);
    CongScale(Y, (c * weight) % L, c * weight, L);
    Assoc(Y, c, weight);
    Assoc(c, weight, Y);
    CongAdd(D, D, e % L, e, L);
    CongAdd(D + e % L, D + e, (Y * ((c * weight) % L)) % L, Y * (c * weight), L);
  }

  /** The verifier's equation, with every lookup resolved. */
  lemma VerifyEquation(s: Suite, share: SignatureShare, verificationShare: Bytes, own: Commitment,
                       cs: seq<Commitment>, groupKey: Bytes, message: Bytes)
    requires ValidSuite(s) && Participants(cs, s.L) && Decodable(s, cs)
    requires own in cs && own.identifier == share.identifier && s.decode(verificationShare).Some?
    ensures Derive(s, cs, groupKey, message).Ok?
    ensures var t := Derive(s, cs, groupKey, message).value;
            && own.identifier in t.rho
            && VerifySignatureShare(s, share, verificationShare, cs, groupKey, message) ==
               Ok(ShareEquation(share.zi, s.decode(own.hiding).value, s.decode(own.binding).value,
                                t.rho[own.identifier],
                                s.decode(verificationShare).value, t.c,
                                Lagrange.Lambda(own.identifier, Elements(Ids(cs)), s.L), s.L))
  {
    hide Cong, ShareEquation, Lagrange.Lambda, Coefficient, Elements;
    PrimeOrder(s);
    SameIds(cs);
    FoundOwn(cs, own);
    DerivedR(s, cs, groupKey, message);
    ParticipantsAreIdentifiers(cs, s.L);
    CoefficientIsLambda(share.identifier, Ids(SortById(cs)), s.L);
    SortKeeps(cs);
  }

  lemma PrimeOrder(s: Suite)
    requires ValidSuite(s)
    ensures IsPrime(s.L) && s.L >= 2
  {
  }

  /** A share is accepted exactly when its scalar is congruent to the expected
      partial under the verification share's discrete logarithm. */
  lemma AcceptedIffExpected(s: Suite, share: SignatureShare, verificationShare: Bytes, own: Commitment,
                            cs: seq<Commitment>, groupKey: Bytes, message: Bytes)
    requires ValidSuite(s) && Participants(cs, s.L) && Decodable(s, cs)
    requires own in cs && own.identifier == share.identifier && s.decode(verificationShare).Some?
    ensures Derive(s, cs, groupKey, message).Ok?
    ensures VerifySignatureShare(s, share, verificationShare, cs, groupKey, message) ==
            Ok(Cong(share.zi, Expected(s, Derive(s, cs, groupKey, message).value, own,
                                       Lagrange.Lambda(own.identifier, Elements(Ids(cs)), s.L),
                                       s.decode(verificationShare).value), s.L))
  {
    hide Cong, ValidSuite, VerifySignatureShare, ShareEquation, Derive, Lagrange.Lambda;
    PrimeOrder(s);
    VerifyEquation(s, share, verificationShare, own, cs, groupKey, message);
    var t := Derive(s, cs, groupKey, message).value;
    ShareEquationIff(share.zi, s.decode(own.hiding).value, s.decode(own.binding).value, t.rho[own.identifier],
                     s.decode(verificationShare).value, t.c,
                     Lagrange.Lambda(own.identifier, Elements(Ids(cs)), s.L), s.L);
  }

  /** Accepting a share is the same as getting what the signer would have sent. */
  lemma ShareAcceptedIffHonest(s: Suite, zi: int, sk: int, d: int, e: int, own: Commitment,
                               cs: seq<Commitment>, groupKey: Bytes, message: Bytes)
    requires ValidSuite(s) && Participants(cs, s.L) && Decodable(s, cs)
    requires 0 < d < s.L && 0 < e < s.L
    requires own in cs && own == Commitment(own.identifier, s.encode(d), s.encode(e))
    ensures var honest := Round2Sign(s, Round2Params(own.identifier, sk, d, e, message, cs, groupKey));
            && honest.Ok? && 0 <= honest.value < s.L
            && VerifySignatureShare(s, SignatureShare(own.identifier, zi), s.encode(sk % s.L), cs, groupKey, message) ==
               Ok(zi % s.L == honest.value)
  {
    var share, Y := SignatureShare(own.identifier, zi), sk % s.L;
    var weight := Lagrange.Lambda(own.identifier, Elements(Ids(cs)), s.L);
    hide Cong, VerifySignatureShare, Derive, Lagrange.Lambda, Round2Sign;
    AcceptedIffExpected(s, share, s.encode(Y), own, cs, groupKey, message);
    RoundTwoValue(s, sk, d, e, own, cs, groupKey, message);
    var t := Derive(s, cs, groupKey, message).value;
    SamePartial(zi, d, e, t.rho[own.identifier], weight, Y, t.c, s.L);
  }

  lemma SamePartial(zi: int, d: int, e: int, rho: int, weight: int, Y: int, c: int, L: int)
    requires L > 0
    ensures Cong(zi, d + e * rho + c * (weight * Y), L) <==> zi % L == PartialSignature(d, e, rho, weight, Y, c, L)
  {
    Assoc(c, weight, Y);
    Assoc(weight, Y, c);
  }

  lemma RoundTwoValue(s: Suite, sk: int, d: int, e: int, own: Commitment,
                      cs: seq<Commitment>, groupKey: Bytes, message: Bytes)
    requires ValidSuite(s) && Participants(cs, s.L) && Decodable(s, cs)
    requires 0 < d < s.L && 0 < e < s.L
    requires own in cs && own == Commitment(own.identifier, s.encode(d), s.encode(e))
    ensures Derive(s, cs, groupKey, message).Ok?
    ensures var t := Derive(s, cs, groupKey, message).value;
            var weight := Lagrange.Lambda(own.identifier, Elements(Ids(cs)), s.L);
            && own.identifier in t.rho
            && Round2Sign(s, Round2Params(own.identifier, sk, d, e, message, cs, groupKey)) ==
               Ok(PartialSignature(d, e, t.rho[own.identifier], weight, sk % s.L, t.c, s.L))
  {
    hide SortById, Find, Derive, Coefficient, PartialSignature, Round2Sign, IsPrime, Pow;
    SameIds(cs);
    FoundOwn(cs, own);
    DerivedR(s, cs, groupKey, message);
    ParticipantsAreIdentifiers(cs, s.L);
    CoefficientIsLambda(own.identifier, Ids(SortById(cs)), s.L);
    SortKeeps(cs);
    DerivedRho(s, cs, groupKey, message, own);
    SignFromParts(s, Round2Params(own.identifier, sk, d, e, message, cs, groupKey), own,
                  Lagrange.Lambda(own.identifier, Elements(Ids(cs)), s.L));
  }

  lemma DerivedRho(s: Suite, cs: seq<Commitment>, groupKey: Bytes, message: Bytes, own: Commitment)
    requires s.L > 0 && own in SortById(cs) && Derive(s, cs, groupKey, message).Ok?
    ensures own.identifier in Derive(s, cs, groupKey, message).value.rho
  {
    hide BindingFactors, GroupCommitment, Challenge, SortById;
  }

  /** The partial signature of a signer whose own checks pass. */
  lemma SignFromParts(s: Suite, p: Round2Params, own: Commitment, weight: int)
    requires s.L >= 2 && 0 < p.hidingNonce < s.L && 0 < p.bindingNonce < s.L
    requires Distinct(Ids(SortById(p.commitments))) && Find(SortById(p.commitments), p.identifier) == Some(own)
    requires own.hiding == s.encode(p.hidingNonce) && own.binding == s.encode(p.bindingNonce)
    requires Derive(s, p.commitments, p.groupPublicKey, p.message).Ok?
    requires p.identifier in Derive(s, p.commitments, p.groupPublicKey, p.message).value.rho
    requires Coefficient(p.identifier, Ids(SortById(p.commitments)), s.L) == Result.Ok(weight)
    ensures var t := Derive(s, p.commitments, p.groupPublicKey, p.message).value;
            Round2Sign(s, p) ==
            Result.Ok(PartialSignature(p.hidingNonce, p.bindingNonce, t.rho[p.identifier], weight,
                                       p.secretShare % s.L, t.c, s.L))
  {
    hide SortById, Find, Derive, Coefficient, PartialSignature, Distinct;
    Unique(p.hidingNonce, 0, p.hidingNonce, s.L);
    Unique(p.bindingNonce, 0, p.bindingNonce, s.L);
  }

  // ---- aggregation ---------------------------------------------------------

  /** One accepted share for each listed commitment, checked against the shares
      the dealer published. */
  ghost predicate AcceptedShares(s: Suite, coeffs: seq<int>, cs: seq<Commitment>, shares: seq<SignatureShare>,
                                 groupKey: Bytes, message: Bytes)
    requires s.L >= 2
  {
    && |shares| == |cs|
    && forall k :: 0 <= k < |cs| ==>
         && shares[k].identifier == cs[k].identifier
         && VerifySignatureShare(s, shares[k], DealtShare(s, coeffs, cs[k].identifier).verificationShare,
                                 cs, groupKey, message) == Ok(true)
  }

  lemma {:induction false} SumZCong(shares: seq<SignatureShare>, cs: seq<Commitment>, g: Commitment -> int, L: int)
    requires L > 0 && |shares| == |cs|
    requires forall k :: 0 <= k < |cs| ==> Cong(shares[k].zi, g(cs[k]), L)
    ensures Cong(SumZ(shares), SumBy(cs, g), L)
  {
    if cs != [] {
      var n := |cs| - 1;
      SumZCong(shares[..n], cs[..n], g, L);
      CongAdd(SumZ(shares[..n]), SumBy(cs[..n], g), shares[n].zi, g(cs[n]), L);
    }
  }

  lemma {:induction false} SumBySplit(cs: seq<Commitment>, g: Commitment -> int, f: Commitment -> int, a: int,
                                      h: Commitment -> int)
    requires forall c :: c in cs ==> g(c) == f(c) + a * h(c)
    ensures SumBy(cs, g) == SumBy(cs, f) + a * SumBy(cs, h)
  {
    if cs != [] {
      var n := |cs| - 1;
      SumBySplit(cs[..n], g, f, a, h);
      assert cs[n] in cs;
      Lagrange.Distribute(a, SumBy(cs[..n], h), h(cs[n]));
    }
  }

  /** An accepted share is congruent to its nonce term plus the challenge times
      its interpolation term. */
  lemma AcceptedTerm(s: Suite, coeffs: seq<int>, own: Commitment, share: SignatureShare,
                     cs: seq<Commitment>, groupKey: Bytes, message: Bytes)
    requires ValidSuite(s) && Participants(cs, s.L) && Decodable(s, cs)
    requires own in cs && share.identifier == own.identifier
    requires VerifySignatureShare(s, share, DealtShare(s, coeffs, own.identifier).verificationShare, cs, groupKey,
                                  message) == Ok(true)
    ensures Derive(s, cs, groupKey, message).Ok?
    ensures var t := Derive(s, cs, groupKey, message).value;
            Cong(share.zi,
                 NonceTerm(s, t.rho)(own) + t.c * Lagrange.Terms(Elements(Ids(cs)), coeffs, s.L)(own.identifier), s.L)
  {
    hide Cong, VerifySignatureShare, Derive, NonceTerm, Lagrange.Lambda, Lagrange.Eval;
    PrimeOrder(s);
    var f := Lagrange.Eval(coeffs, own.identifier);
    var weight := Lagrange.Lambda(own.identifier, Elements(Ids(cs)), s.L);
    AcceptedIffExpected(s, share, s.encode(f % s.L), own, cs, groupKey, message);
    var t := Derive(s, cs, groupKey, message).value;
    ReduceShare(share.zi, NonceTerm(s, t.rho)(own), t.c, weight, f, s.L);
  }

  lemma ReduceShare(zi: int, nonce: int, c: int, weight: int, f: int, L: int)
    requires L > 0 && Cong(zi, nonce + c * (weight * (f % L)), L)
    ensures Cong(zi, nonce + c * (weight * f), L)
  {
    CongMod(f, L);
    hide Cong;
    CongScale(weight, f % L, f, L);
    CongScale(c, weight * (f % L), weight * f, L);
    CongRefl(nonce, L);
    CongAdd(nonce, nonce, c * (weight * (f % L)), c * (weight * f), L);
    CongTrans(zi, nonce + c * (weight * (f % L)), nonce + c * (weight * f), L);
  }

  /** A signer's whole contribution: nonce term plus challenge times its
      interpolation term. */
  ghost function Contribution(s: Suite, t: Transcript, ids: set<int>, coeffs: seq<int>): Commitment -> int
    requires s.L >= 2
  {
    (c: Commitment) => NonceTerm(s, t.rho)(c) + t.c * Lagrange.Terms(ids, coeffs, s.L)(c.identifier)
  }

  lemma ContributionsSum(s: Suite, t: Transcript, coeffs: seq<int>, cs: seq<Commitment>)
    requires s.L >= 2 && Distinct(Ids(cs))
    ensures SumBy(cs, Contribution(s, t, Elements(Ids(cs)), coeffs)) ==
            SumBy(cs, NonceTerm(s, t.rho)) + t.c * Lagrange.Interpolate(Elements(Ids(cs)), coeffs, s.L)
  {
    var terms := Lagrange.Terms(Elements(Ids(cs)), coeffs, s.L);
    var h := (c: Commitment) => terms(c.identifier);
    hide SumBy, Sum, NonceTerm, Lagrange.Terms;
    SumBySplit(cs, Contribution(s, t, Elements(Ids(cs)), coeffs), NonceTerm(s, t.rho), t.c, h);
    SumByKeys(cs, Ids(cs), h, terms);
  }

  lemma ContributionsCongruent(s: Suite, coeffs: seq<int>, cs: seq<Commitment>, shares: seq<SignatureShare>,
                               groupKey: Bytes, message: Bytes)
    requires ValidSuite(s) && Participants(cs, s.L) && Decodable(s, cs)
    requires AcceptedShares(s, coeffs, cs, shares, groupKey, message)
    ensures Derive(s, cs, groupKey, message).Ok?
    ensures Cong(SumZ(shares),
                 SumBy(cs, Contribution(s, Derive(s, cs, groupKey, message).value, Elements(Ids(cs)), coeffs)), s.L)
  {
    hide Cong, VerifySignatureShare, Derive, NonceTerm, Lagrange.Terms, SumBy, SumZ;
    PrimeOrder(s);
    DerivedR(s, cs, groupKey, message);
    var g := Contribution(s, Derive(s, cs, groupKey, message).value, Elements(Ids(cs)), coeffs);
    forall k | 0 <= k < |cs|
      ensures Cong(shares[k].zi, g(cs[k]), s.L)
    {
      AcceptedTerm(s, coeffs, cs[k], shares[k], cs, groupKey, message);
    }
    SumZCong(shares, cs, g, s.L);
  }

  /** What any accepted set of shares sums to, whatever its size. */
  lemma AcceptedSum(s: Suite, coeffs: seq<int>, cs: seq<Commitment>, shares: seq<SignatureShare>,
                    groupKey: Bytes, message: Bytes)
    requires ValidSuite(s) && Participants(cs, s.L) && Decodable(s, cs)
    requires AcceptedShares(s, coeffs, cs, shares, groupKey, message)
    ensures Derive(s, cs, groupKey, message).Ok?
    ensures var t := Derive(s, cs, groupKey, message).value;
            Cong(SumZ(shares), t.R + t.c * Lagrange.Interpolate(Elements(Ids(cs)), coeffs, s.L), s.L)
  {
    hide Cong, VerifySignatureShare, Derive, NonceTerm, Lagrange.Interpolate, SumBy, SumZ, AcceptedShares,
      Contribution, Elements;
    PrimeOrder(s);
    DerivedR(s, cs, groupKey, message);
    var t := Derive(s, cs, groupKey, message).value;
    ContributionsCongruent(s, coeffs, cs, shares, groupKey, message);
    ContributionsSum(s, t, coeffs, cs);
    ShiftedSum(SumZ(shares), SumBy(cs, Contribution(s, t, Elements(Ids(cs)), coeffs)), SumBy(cs, NonceTerm(s, t.rho)),
               t.R, t.c * Lagrange.Interpolate(Elements(Ids(cs)), coeffs, s.L), s.L);
  }

  lemma ShiftedSum(z: int, total: int, nonces: int, R: int, rest: int, L: int)
    requires L > 0 && Cong(z, total, L) && total == nonces + rest && Cong(R, nonces, L)
    ensures Cong(z, R + rest, L)
  {
    CongAdd(R, nonces, rest, rest, L);
  }

  lemma VerifyOfEncoded(s: Suite, R: int, z: int, A: int, message: Bytes)
    requires ValidSuite(s) && 0 <= R < s.L && 0 <= A < s.L
    ensures VerifySignature(s, Signature(s.encode(R), z), message, s.encode(A)) ==
            (0 <= z < s.L && z % s.L == (R + Challenge(s, R, s.encode(A), message) * A) % s.L)
  {
  }

  lemma AggregateOfListed(s: Suite, cs: seq<Commitment>, shares: seq<SignatureShare>, groupKey: Bytes, message: Bytes)
    requires ValidSuite(s) && Participants(cs, s.L) && Decodable(s, cs) && |shares| == |cs|
    ensures var t := Derive(s, cs, groupKey, message);
            && t.Ok? && 0 <= t.value.R < s.L && t.value.c == Challenge(s, t.value.R, groupKey, message)
            && AggregateOf(s, cs, shares, groupKey, message) == Ok(Signature(s.encode(t.value.R), SumZ(shares) % s.L))
  {
    DerivedR(s, cs, groupKey, message);
    SameIds(cs);
    SortKeeps(cs);
  }

  lemma AggregateEquation(s: Suite, coeffs: seq<int>, cs: seq<Commitment>, shares: seq<SignatureShare>, message: Bytes)
    requires ValidSuite(s) && Participants(cs, s.L) && Decodable(s, cs) && |shares| == |cs|
    ensures var groupKey := s.encode(ShareAt(coeffs, 0, s.L));
            var t := Derive(s, cs, groupKey, message);
            var sig := AggregateOf(s, cs, shares, groupKey, message);
            && t.Ok? && sig.Ok?
            && VerifySignature(s, sig.value, message, groupKey) ==
               (0 <= SumZ(shares) % s.L < s.L &&
                (SumZ(shares) % s.L) % s.L == (t.value.R + t.value.c * (Lagrange.Eval(coeffs, 0) % s.L)) % s.L)
  {
    hide Derive, AggregateOf, VerifySignature, SumZ, Challenge, Lagrange.Eval, Participants, Decodable;
    PrimeOrder(s);
    var A := ShareAt(coeffs, 0, s.L);
    AggregateOfListed(s, cs, shares, s.encode(A), message);
    var t := Derive(s, cs, s.encode(A), message).value;
    VerifyOfEncoded(s, t.R, SumZ(shares) % s.L, A, message);
  }

  lemma AggregateSumIff(s: Suite, coeffs: seq<int>, cs: seq<Commitment>, shares: seq<SignatureShare>, message: Bytes)
    requires ValidSuite(s) && Participants(cs, s.L) && Decodable(s, cs) && |shares| == |cs|
    ensures var groupKey := s.encode(ShareAt(coeffs, 0, s.L));
            var t := Derive(s, cs, groupKey, message);
            var sig := AggregateOf(s, cs, shares, groupKey, message);
            && t.Ok? && sig.Ok?
            && (VerifySignature(s, sig.value, message, groupKey) <==>
                Cong(SumZ(shares), t.value.R + t.value.c * Lagrange.Eval(coeffs, 0), s.L))
  {
    hide Cong, Derive, AggregateOf, VerifySignature, SumZ, Lagrange.Eval;
    AggregateEquation(s, coeffs, cs, shares, message);
    var t := Derive(s, cs, s.encode(ShareAt(coeffs, 0, s.L)), message).value;
    VerifiedSum(SumZ(shares), t.R, t.c, Lagrange.Eval(coeffs, 0), s.L);
  }

  /** The aggregate of as many shares as commitments, and when it verifies: the
      shares must sum to R plus the group secret times the hash of R, key and message. */
  lemma AggregateVerifiesIff(s: Suite, coeffs: seq<int>, cs: seq<Commitment>, shares: seq<SignatureShare>,
                             message: Bytes)
    requires ValidSuite(s) && Participants(cs, s.L) && Decodable(s, cs) && |shares| == |cs|
    ensures var groupKey := s.encode(ShareAt(coeffs, 0, s.L));
            var t := Derive(s, cs, groupKey, message);
            var sig := AggregateOf(s, cs, shares, groupKey, message);
            && t.Ok? && sig.Ok? && sig.value.r == s.encode(t.value.R)
            && (VerifySignature(s, sig.value, message, groupKey) <==>
                var c := NumberLE(s.sha512(sig.value.r + groupKey + message)) % s.L;
                Cong(SumZ(shares), t.value.R + c * Lagrange.Eval(coeffs, 0), s.L))
  {
    hide Cong, Derive, VerifySignature, SumZ, Lagrange.Eval, Participants, Decodable, AggregateOf;
    AggregateSumIff(s, coeffs, cs, shares, message);
    AggregateOfListed(s, cs, shares, s.encode(ShareAt(coeffs, 0, s.L)), message);
  }

  lemma VerifiedSum(z: int, R: int, c: int, f: int, L: int)
    requires L > 0
    ensures 0 <= z % L < L
    ensures (z % L) % L == (R + c * (f % L)) % L <==> Cong(z, R + c * f, L)
  {
    CongMod(z, L);
    CongMod(f, L);
    CongScale(c, f % L, f, L);
    CongAdd(R, R, c * (f % L), c * f, L);
  }

  /** Sections 5.2 and 5.3 of RFC 9591: when every one of at least t shares is
      accepted, the aggregate is a valid Ed25519 signature under the dealer's
      group key. The commitments may be anyone's decodable points. */
  lemma AcceptedAggregateVerifies(s: Suite, coeffs: seq<int>, cs: seq<Commitment>, shares: seq<SignatureShare>,
                                  message: Bytes)
    requires ValidSuite(s) && Participants(cs, s.L) && Decodable(s, cs) && |cs| >= |coeffs|
    requires AcceptedShares(s, coeffs, cs, shares, s.encode(ShareAt(coeffs, 0, s.L)), message)
    ensures var groupKey := s.encode(ShareAt(coeffs, 0, s.L));
            && AggregateOf(s, cs, shares, groupKey, message).Ok?
            && VerifySignature(s, AggregateOf(s, cs, shares, groupKey, message).value, message, groupKey)
  {
    hide Cong, Derive, SumZ, AggregateOf, VerifySignature, Participants, Decodable, Elements;
    hide Lagrange.Eval, Lagrange.Interpolate;
    var groupKey := s.encode(ShareAt(coeffs, 0, s.L));
    PrimeOrder(s);
    AggregateSumIff(s, coeffs, cs, shares, message);
    AcceptedSum(s, coeffs, cs, shares, groupKey, message);
    EnoughRecovers(s, coeffs, cs);
    var t := Derive(s, cs, groupKey, message).value;
    ReplaceScaled(SumZ(shares), t.R, t.c, Lagrange.Interpolate(Elements(Ids(cs)), coeffs, s.L),
                  Lagrange.Eval(coeffs, 0), s.L);
  }

  lemma EnoughRecovers(s: Suite, coeffs: seq<int>, cs: seq<Commitment>)
    requires ValidSuite(s) && Participants(cs, s.L) && |cs| >= |coeffs|
    ensures Cong(Lagrange.Interpolate(Elements(Ids(cs)), coeffs, s.L), Lagrange.Eval(coeffs, 0), s.L)
  {
    hide Cong, Elements, Lagrange.Eval, Lagrange.Interpolate;
    PrimeOrder(s);
    ParticipantsAreIdentifiers(cs, s.L);
    ElementsSize(Ids(cs));
    Lagrange.InterpolationRecovers(Elements(Ids(cs)), coeffs, s.L);
  }

  lemma ReplaceScaled(z: int, R: int, c: int, a: int, b: int, L: int)
    requires L > 0 && Cong(z, R + c * a, L) && Cong(a, b, L)
    ensures Cong(z, R + c * b, L)
  {
    hide Cong;
    CongScale(c, a, b, L);
    CongRefl(R, L);
    CongAdd(R, R, c * a, c * b, L);
    CongTrans(z, R + c * a, R + c * b, L);
  }

  // ---- honest ceremonies ---------------------------------------------------

  datatype Nonces = Nonces(hiding: int, binding: int)

  /** Every listed commitment is the signer's own round-1 output. */
  ghost predicate HonestRound1(s: Suite, cs: seq<Commitment>, nonces: map<int, Nonces>) {
    forall c :: c in cs ==>
      && c.identifier in nonces
      && 0 < nonces[c.identifier].hiding < s.L && 0 < nonces[c.identifier].binding < s.L
      && c == Commitment(c.identifier, s.encode(nonces[c.identifier].hiding), s.encode(nonces[c.identifier].binding))
  }

  /** Every share is the signer's round-2 output on its dealt key share. */
  ghost predicate HonestRound2(s: Suite, coeffs: seq<int>, cs: seq<Commitment>, nonces: map<int, Nonces>,
                               shares: seq<SignatureShare>, groupKey: Bytes, message: Bytes)
    requires s.L >= 2
  {
    && |shares| == |cs|
    && forall k :: 0 <= k < |cs| ==>
         && cs[k].identifier in nonces
         && shares[k].identifier == cs[k].identifier
         && Round2Sign(s, Round2Params(cs[k].identifier, ShareAt(coeffs, cs[k].identifier, s.L),
                                       nonces[cs[k].identifier].hiding, nonces[cs[k].identifier].binding,
                                       message, cs, groupKey)) == Ok(shares[k].zi)
  }

  lemma HonestIsAccepted(s: Suite, coeffs: seq<int>, cs: seq<Commitment>, nonces: map<int, Nonces>,
                         shares: seq<SignatureShare>, groupKey: Bytes, message: Bytes)
    requires ValidSuite(s) && Participants(cs, s.L) && HonestRound1(s, cs, nonces)
    requires HonestRound2(s, coeffs, cs, nonces, shares, groupKey, message)
    ensures Decodable(s, cs) && AcceptedShares(s, coeffs, cs, shares, groupKey, message)
  {
    hide VerifySignatureShare, Round2Sign;
    forall k | 0 <= k < |cs|
      ensures VerifySignatureShare(s, shares[k], DealtShare(s, coeffs, cs[k].identifier).verificationShare,
                                   cs, groupKey, message) == Ok(true)
    {
      var id := cs[k].identifier;
      assert cs[k] in cs;
      var sk := ShareAt(coeffs, id, s.L);
      Unique(sk, 0, sk, s.L);
      ShareAcceptedIffHonest(s, shares[k].zi, sk, nonces[id].hiding, nonces[id].binding, cs[k], cs, groupKey, message);
      Unique(shares[k].zi, 0, shares[k].zi, s.L);
    }
  }

  /** Any t or more honest signers produce a signature that verifies. */
  lemma HonestCeremonyVerifies(s: Suite, coeffs: seq<int>, cs: seq<Commitment>, nonces: map<int, Nonces>,
                               shares: seq<SignatureShare>, message: Bytes)
    requires ValidSuite(s) && Participants(cs, s.L) && HonestRound1(s, cs, nonces) && |cs| >= |coeffs|
    requires HonestRound2(s, coeffs, cs, nonces, shares, s.encode(ShareAt(coeffs, 0, s.L)), message)
    ensures var groupKey := s.encode(ShareAt(coeffs, 0, s.L));
            && AggregateOf(s, cs, shares, groupKey, message).Ok?
            && VerifySignature(s, AggregateOf(s, cs, shares, groupKey, message).value, message, groupKey)
  {
    HonestIsAccepted(s, coeffs, cs, nonces, shares, s.encode(ShareAt(coeffs, 0, s.L)), message);
    AcceptedAggregateVerifies(s, coeffs, cs, shares, message);
  }

  lemma OneShortByChallenge(s: Suite, coeffs: seq<int>, cs: seq<Commitment>, nonces: map<int, Nonces>,
                            shares: seq<SignatureShare>, message: Bytes)
    requires ValidSuite(s) && Participants(cs, s.L) && HonestRound1(s, cs, nonces)
    requires 1 <= |cs| == |coeffs| - 1 && 0 < coeffs[|cs|] < s.L
    requires HonestRound2(s, coeffs, cs, nonces, shares, s.encode(ShareAt(coeffs, 0, s.L)), message)
    ensures var groupKey := s.encode(ShareAt(coeffs, 0, s.L));
            var t := Derive(s, cs, groupKey, message);
            var sig := AggregateOf(s, cs, shares, groupKey, message);
            && t.Ok? && sig.Ok?
            && (VerifySignature(s, sig.value, message, groupKey) <==> t.value.c == 0)
  {
    hide Cong, Derive, SumZ, AggregateOf, VerifySignature, Participants, Decodable, HonestRound1, HonestRound2,
      Elements;
    hide Lagrange.Eval, Lagrange.Interpolate, Lagrange.Missing;
    var groupKey := s.encode(ShareAt(coeffs, 0, s.L));
    PrimeOrder(s);
    HonestIsAccepted(s, coeffs, cs, nonces, shares, groupKey, message);
    AggregateSumIff(s, coeffs, cs, shares, message);
    AcceptedSum(s, coeffs, cs, shares, groupKey, message);
    ParticipantsDistinct(cs, s.L);
    DerivedR(s, cs, groupKey, message);
    OneShortGap(s, coeffs, cs);
    var t := Derive(s, cs, groupKey, message).value;
    var ids := Elements(Ids(cs));
    ChallengeDecides(SumZ(shares), t.R, t.c, Lagrange.Interpolate(ids, coeffs, s.L), Lagrange.Eval(coeffs, 0),
                     Lagrange.Missing(ids, coeffs), s.L);
  }

  /** Exactly t - 1 honest signers: the aggregate verifies only for the challenge 0. */
  lemma OneShortVerifiesIffChallengeZero(s: Suite, coeffs: seq<int>, cs: seq<Commitment>, nonces: map<int, Nonces>,
                                         shares: seq<SignatureShare>, message: Bytes)
    requires ValidSuite(s) && Participants(cs, s.L) && HonestRound1(s, cs, nonces)
    requires 1 <= |cs| == |coeffs| - 1 && 0 < coeffs[|cs|] < s.L
    requires HonestRound2(s, coeffs, cs, nonces, shares, s.encode(ShareAt(coeffs, 0, s.L)), message)
    ensures var groupKey := s.encode(ShareAt(coeffs, 0, s.L));
            var sig := AggregateOf(s, cs, shares, groupKey, message);
            && sig.Ok?
            && (VerifySignature(s, sig.value, message, groupKey) <==>
                NumberLE(s.sha512(sig.value.r + groupKey + message)) % s.L == 0)
  {
    hide Cong, Derive, SumZ, AggregateOf, VerifySignature, Participants, Lagrange.Eval;
    OneShortByChallenge(s, coeffs, cs, nonces, shares, message);
    HonestIsAccepted(s, coeffs, cs, nonces, shares, s.encode(ShareAt(coeffs, 0, s.L)), message);
    AggregateOfListed(s, cs, shares, s.encode(ShareAt(coeffs, 0, s.L)), message);
  }

  lemma ParticipantsDistinct(cs: seq<Commitment>, L: int)
    requires Participants(cs, L)
    ensures Distinct(Ids(cs))
  {
  }

  lemma OneShortGap(s: Suite, coeffs: seq<int>, cs: seq<Commitment>)
    requires ValidSuite(s) && Participants(cs, s.L) && |cs| == |coeffs| - 1 && 0 < coeffs[|cs|] < s.L
    ensures var ids := Elements(Ids(cs));
            && Cong(Lagrange.Interpolate(ids, coeffs, s.L),
                    Lagrange.Eval(coeffs, 0) - Lagrange.Missing(ids, coeffs), s.L)
            && Lagrange.Missing(ids, coeffs) % s.L != 0
  {
    hide Cong, Elements, Lagrange.Eval, Lagrange.Interpolate, Lagrange.Missing;
    PrimeOrder(s);
    ParticipantsAreIdentifiers(cs, s.L);
    ElementsSize(Ids(cs));
    Unique(coeffs[|cs|], 0, coeffs[|cs|], s.L);
    Lagrange.InterpolationGap(Elements(Ids(cs)), coeffs, s.L);
    Lagrange.OneShortMisses(Elements(Ids(cs)), coeffs, s.L);
  }

  lemma ChallengeDecides(z: int, R: int, c: int, sum: int, f0: int, missing: int, L: int)
    requires IsPrime(L) && Cong(z, R + c * sum, L) && Cong(sum, f0 - missing, L) && missing % L != 0 && 0 <= c < L
    ensures Cong(z, R + c * f0, L) <==> c == 0
  {
    ReplaceScaled(z, R, c, sum, f0 - missing, L);
    Lagrange.Distribute(c, f0, missing);
    var x := R + c * f0;
    assert Cong(z, x - c * missing, L);
    if Cong(z, x, L) {
      CongAdd(x, x - c * missing, x, x, L);
      CongDiff(x, x - c * missing, L);
      ZeroProduct(c, missing, L);
      Unique(c, 0, c, L);
    }
  }

  // ---- independence of list order ------------------------------------------

  lemma SortIgnoresOrder(a: seq<Commitment>, b: seq<Commitment>)
    requires multiset(a) == multiset(b)
    ensures SortedCommitments(a) == SortedCommitments(b)
  {
    SortSorts(a);
    SortSorts(b);
    SameIds(a);
    SameIds(b);
    if Distinct(Ids(a)) {
      SortedUnique(SortById(a), SortById(b));
    } else if Distinct(Ids(b)) {
      SortedUnique(SortById(b), SortById(a));
    }
  }

  lemma {:induction false} SumZIsSumBy(shares: seq<SignatureShare>)
    ensures SumZ(shares) == SumBy(shares, (x: SignatureShare) => x.zi)
  {
    if shares != [] {
      SumZIsSumBy(shares[..|shares| - 1]);
    }
  }

  lemma DeriveIgnoresOrder(s: Suite, a: seq<Commitment>, b: seq<Commitment>, groupKey: Bytes, message: Bytes)
    requires s.L >= 2 && multiset(a) == multiset(b)
    ensures SortedCommitments(a) == SortedCommitments(b)
    ensures Derive(s, a, groupKey, message) == Derive(s, b, groupKey, message)
  {
    SortIgnoresOrder(a, b);
  }

  lemma SumZIgnoresOrder(a: seq<SignatureShare>, b: seq<SignatureShare>)
    requires multiset(a) == multiset(b)
    ensures SumZ(a) == SumZ(b) && |a| == |b|
  {
    SumZIsSumBy(a);
    SumZIsSumBy(b);
    SumByPermutation(a, b, (x: SignatureShare) => x.zi);
    assert |multiset(a)| == |multiset(b)|;
  }

  /** Sections 4.4 and 4.5 of RFC 9591: nothing derived, signed, checked or
      aggregated depends on the order of the commitment list or of the shares. */
  lemma OrderIrrelevant(s: Suite, p: Round2Params, cs: seq<Commitment>,
                        shares: seq<SignatureShare>, shares': seq<SignatureShare>,
                        share: SignatureShare, verificationShare: Bytes)
    requires s.L >= 2 && multiset(cs) == multiset(p.commitments) && multiset(shares) == multiset(shares')
    ensures Derive(s, cs, p.groupPublicKey, p.message) == Derive(s, p.commitments, p.groupPublicKey, p.message)
    ensures Round2Sign(s, p.(commitments := cs)) == Round2Sign(s, p)
    ensures VerifySignatureShare(s, share, verificationShare, cs, p.groupPublicKey, p.message) ==
            VerifySignatureShare(s, share, verificationShare, p.commitments, p.groupPublicKey, p.message)
    ensures AggregateOf(s, cs, shares, p.groupPublicKey, p.message) ==
            AggregateOf(s, p.commitments, shares', p.groupPublicKey, p.message)
  {
    hide Derive, SortedCommitments, SumZ, Coefficient;
    DeriveIgnoresOrder(s, cs, p.commitments, p.groupPublicKey, p.message);
    SumZIgnoresOrder(shares, shares');
  }

  // ---- the encoding that is hashed -----------------------------------------

  ghost predicate Encodable(cs: seq<Commitment>, L: int) {
    forall c :: c in cs ==> 0 <= c.identifier < L && |c.hiding| == 32 && |c.binding| == 32
  }

  lemma {:induction false} EncodingLength(s: Suite, cs: seq<Commitment>)
    requires s.L > 0 && Encodable(cs, s.L)
    ensures |EncodeCommitments(s, cs)| == 96 * |cs|
  {
    if cs != [] {
      assert cs[0] in cs;
      EncodingLength(s, cs[1..]);
    }
  }

  /** Lists of 32-byte points with reduced identifiers are told apart by their encoding. */
  lemma {:induction false} EncodingInjective(s: Suite, a: seq<Commitment>, b: seq<Commitment>)
    requires 0 < s.L <= Pow(256, 32) && Encodable(a, s.L) && Encodable(b, s.L)
    requires EncodeCommitments(s, a) == EncodeCommitments(s, b)
    ensures a == b
  {
    hide EncodeCommitments, ScalarBytes, Pow;
    EncodingLength(s, a);
    EncodingLength(s, b);
    if a != [] {
      EncodedParts(s, a);
      EncodedParts(s, b);
      ScalarBytesInjective(a[0].identifier, b[0].identifier, s.L);
      EncodingInjective(s, a[1..], b[1..]);
      assert a == [a[0]] + a[1..] && b == [b[0]] + b[1..];
    }
  }

  /** Where the fields of the first commitment stand. */
  lemma EncodedParts(s: Suite, cs: seq<Commitment>)
    requires s.L > 0 && cs != [] && Encodable(cs, s.L)
    ensures 0 <= cs[0].identifier < s.L && Encodable(cs[1..], s.L)
    ensures var e := EncodeCommitments(s, cs);
            && |e| >= 96 && e[..32] == ScalarBytes(cs[0].identifier, s.L) && e[32..64] == cs[0].hiding
            && e[64..96] == cs[0].binding && e[96..] == EncodeCommitments(s, cs[1..])
  {
    hide LittleEndian;
    assert cs[0] in cs;
    var x, id := cs[0], ScalarBytes(cs[0].identifier, s.L);
    assert |id| == 32;
    assert id + x.hiding + x.binding + EncodeCommitments(s, cs[1..]) == EncodeCommitments(s, cs);
  }

  lemma ScalarBytesInjective(x: int, y: int, L: int)
    requires 0 <= x < L <= Pow(256, 32) && 0 <= y < L && ScalarBytes(x, L) == ScalarBytes(y, L)
    ensures x == y
  {
    hide Pow, LittleEndian;
    Unique(x, 0, x, L);
    Unique(y, 0, y, L);
    LittleEndianRoundTrip(x, 32);
    LittleEndianRoundTrip(y, 32);
  }
}
