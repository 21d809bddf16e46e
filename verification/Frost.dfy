/** FROST(Ed25519, SHA-512) signing with a trusted dealer
    (server/src/frost/frost.ts), in the group of prime order L. A group element
    is represented by its discrete logarithm; its 32-byte encoding, the decoder
    and SHA-512 are parameters. */
module Frost {
  import opened Codec
  import opened Lists
  import opened Wrappers
  import opened Modular
  import Lagrange

  datatype Suite = Suite(L: int, sha512: Bytes -> Bytes, encode: int -> Bytes, decode: Bytes -> Option<int>)

  /** L is prime and fits a scalar; encodings take 32 bytes and decode back. */
  ghost predicate ValidSuite(s: Suite) {
    && IsPrime(s.L)
    && s.L <= Pow(256, 32)
    && (forall p :: 0 <= p < s.L ==> |s.encode(p)| == 32 && s.decode(s.encode(p)) == Some(p))
    && (forall b :: s.decode(b).Some? ==> 0 <= s.decode(b).value < s.L)
  }

  /** What every party runs with: a group of at least two elements. */
  type GroupSuite = s: Suite | s.L >= 2 witness Suite(2, (m: Bytes) => [], (p: int) => [], (b: Bytes) => None)

  /** The published group: its key and the verification share of each identifier. */
  datatype Group = Group(groupPublicKey: Bytes, verificationShares: map<int, Bytes>)

  datatype FrostError =
    | InvalidThreshold
    | ZeroScalar
    | DuplicateIdentifiers
    | DuplicateParticipants
    | OwnIdentifierMissing
    | CommitmentMismatch
    | BadPoint
    | ShareCountMismatch

  // ---- hashes --------------------------------------------------------------

  function Ascii(text: string): (b: Bytes)
    ensures |b| == |text|
  {
    seq(|text|, i requires 0 <= i < |text| => text[i] as int % 256)
  }

  const CONTEXT: Bytes := Ascii("FROST-ED25519-SHA512-v1")

  function HashToScalar(s: Suite, m: Bytes): int
    requires s.L > 0
  {
    NumberLE(s.sha512(m)) % s.L
  }

  function H1(s: Suite, m: Bytes): int
    requires s.L > 0
  {
    HashToScalar(s, CONTEXT + Ascii("rho") + m)
  }

  /** The plain Ed25519 challenge, without the context. */
  function H2(s: Suite, m: Bytes): int
    requires s.L > 0
  {
    HashToScalar(s, m)
  }

  function H4(s: Suite, m: Bytes): Bytes {
    s.sha512(CONTEXT + Ascii("msg") + m)
  }

  function H5(s: Suite, m: Bytes): Bytes {
    s.sha512(CONTEXT + Ascii("com") + m)
  }

  // ---- the base point ------------------------------------------------------

  /** The library multiplies the base point by nonzero scalars only. */
  function BaseMultiply(k: int): Result<int, FrostError> {
    if k == 0 then Err(ZeroScalar) else Ok(k)
  }

  // ---- trusted dealer ------------------------------------------------------

  datatype KeyShare = KeyShare(identifier: int, secretShare: int, verificationShare: Bytes)

  datatype KeygenOutput = KeygenOutput(groupPublicKey: Bytes, threshold: int, total: int, shares: seq<KeyShare>)

  /** Participant id's share: the dealer's polynomial at id. */
  function ShareAt(coeffs: seq<int>, id: int, L: int): int
    requires L > 0
  {
    Lagrange.Eval(coeffs, id) % L
  }

  function DealtShare(s: Suite, coeffs: seq<int>, id: int): KeyShare
    requires s.L > 0
  {
    var sk := ShareAt(coeffs, id, s.L);
    KeyShare(id, sk, s.encode(sk))
  }

  /** The dealing loop (server/src/frost/frost.ts:153-178). The coefficients are
      what the random source drew, each in 1..L-1. */
  method TrustedDealerKeygen(s: Suite, t: int, n: int, coeffs: seq<int>) returns (r: Result<KeygenOutput, FrostError>)
    requires s.L >= 2 && (t >= 1 ==> |coeffs| == t) && forall i :: 0 <= i < |coeffs| ==> 0 < coeffs[i] < s.L
    ensures t < 1 || n < t ==> r == Err(InvalidThreshold)
    ensures 1 <= t <= n ==>
              if exists id :: 1 <= id <= n && ShareAt(coeffs, id, s.L) == 0 then r == Err(ZeroScalar)
              else
                && r.Ok? && r.value.groupPublicKey == s.encode(ShareAt(coeffs, 0, s.L))
                && r.value.threshold == t && r.value.total == n && |r.value.shares| == n
                && forall k :: 0 <= k < n ==> r.value.shares[k] == DealtShare(s, coeffs, k + 1)
  {
    if t < 1 || n < t {
      return Err(InvalidThreshold);
    }
    var shares := [];
    for id := 1 to n + 1
      invariant |shares| == id - 1
      invariant forall k :: 0 <= k < id - 1 ==> shares[k] == DealtShare(s, coeffs, k + 1)
      invariant forall k :: 1 <= k < id ==> ShareAt(coeffs, k, s.L) != 0
    {
      var acc := EvaluateShare(s.L, coeffs, id);
      if acc == 0 {
        return Err(ZeroScalar);
      }
      shares := shares + [KeyShare(id, acc, s.encode(acc))];
    }
    ConstantTerm(coeffs, s.L);
    return Ok(KeygenOutput(s.encode(coeffs[0]), t, n, shares));
  }

  lemma ConstantTerm(coeffs: seq<int>, L: int)
    requires coeffs != [] && 0 <= coeffs[0] < L
    ensures ShareAt(coeffs, 0, L) == coeffs[0]
  {
    assert Lagrange.Eval(coeffs, 0) == coeffs[0] + 0 * Lagrange.Eval(coeffs[1..], 0);
    Unique(coeffs[0], 0, coeffs[0], L);
  }

  /** The inner loop with its running power of x. */
  method EvaluateShare(L: int, coeffs: seq<int>, x: int) returns (acc: int)
    requires L >= 2
    ensures acc == ShareAt(coeffs, x, L)
  {
    hide Cong;
    acc := 0;
    var xp := 1;
    CongRefl(0, L);
    CongRefl(1, L);
    for k := 0 to |coeffs|
      invariant 0 <= acc < L
      invariant Cong(acc, Lagrange.Eval(coeffs[..k], x), L)
      invariant Cong(xp, Pow(x, k), L)
    {
      HornerStep(L, coeffs, k, x, acc, xp);
      acc := Mod(acc + coeffs[k] * xp, L);
      xp := Mod(xp * x, L);
    }
    assert coeffs[..|coeffs|] == coeffs;
    ReducedIsRemainder(acc, Lagrange.Eval(coeffs, x), L);
  }

  lemma HornerStep(L: int, coeffs: seq<int>, k: nat, x: int, acc: int, xp: int)
    requires L >= 2 && k < |coeffs|
    requires Cong(acc, Lagrange.Eval(coeffs[..k], x), L) && Cong(xp, Pow(x, k), L)
    ensures Cong((acc + coeffs[k] * xp) % L, Lagrange.Eval(coeffs[..k + 1], x), L)
    ensures Cong((xp * x) % L, Pow(x, k + 1), L)
  {
    hide *;
    assert coeffs[..k + 1] == coeffs[..k] + [coeffs[k]];
    Lagrange.EvalSnoc(coeffs[..k], coeffs[k], x);
    CongScale(coeffs[k], xp, Pow(x, k), L);
    CongAdd(acc, Lagrange.Eval(coeffs[..k], x), coeffs[k] * xp, coeffs[k] * Pow(x, k), L);
    CongMod(acc + coeffs[k] * xp, L);
    CongTrans((acc + coeffs[k] * xp) % L, acc + coeffs[k] * xp, Lagrange.Eval(coeffs[..k + 1], x), L);
    CongScale(x, xp, Pow(x, k), L);
    CongMod(xp * x, L);
    CongTrans((xp * x) % L, xp * x, Pow(x, k) * x, L);
    PowSnoc(x, k);
  }

  lemma PowSnoc(x: int, k: nat)
    ensures Pow(x, k + 1) == Pow(x, k) * x
  {
  }

  // ---- commitments ---------------------------------------------------------

  datatype Commitment = Commitment(identifier: int, hiding: Bytes, binding: Bytes)

  function Ids(cs: seq<Commitment>): (ids: seq<int>)
    ensures |ids| == |cs| && forall i :: 0 <= i < |cs| ==> ids[i] == cs[i].identifier
  {
    seq(|cs|, i requires 0 <= i < |cs| => cs[i].identifier)
  }

  function InsertById(c: Commitment, cs: seq<Commitment>): seq<Commitment> {
    if cs == [] || c.identifier < cs[0].identifier then [c] + cs
    else [cs[0]] + InsertById(c, cs[1..])
  }

  /** A stable sort by identifier. */
  function SortById(cs: seq<Commitment>): seq<Commitment> {
    if cs == [] then [] else InsertById(cs[|cs| - 1], SortById(cs[..|cs| - 1]))
  }

  function SortedCommitments(cs: seq<Commitment>): Result<seq<Commitment>, FrostError> {
    var sorted := SortById(cs);
    if Distinct(Ids(sorted)) then Ok(sorted) else Err(DuplicateIdentifiers)
  }

  function Find(cs: seq<Commitment>, id: int): (r: Option<Commitment>)
    ensures r.Some? ==> r.value in cs && r.value.identifier == id
    ensures r.None? <==> id !in Ids(cs)
  {
    if cs == [] then None
    else if cs[0].identifier == id then Some(cs[0])
    else
      assert forall i :: 0 < i < |cs| ==> Ids(cs)[i] == Ids(cs[1..])[i - 1];
      Find(cs[1..], id)
  }

  // ---- binding factors, group commitment, challenge, coefficient -----------

  function EncodeCommitments(s: Suite, cs: seq<Commitment>): Bytes
    requires s.L > 0
  {
    if cs == [] then []
    else ScalarBytes(cs[0].identifier, s.L) + cs[0].hiding + cs[0].binding + EncodeCommitments(s, cs[1..])
  }

  function BindingFactors(s: Suite, groupKey: Bytes, sorted: seq<Commitment>, message: Bytes): (rho: map<int, int>)
    requires s.L > 0
    ensures forall c :: c in sorted ==> c.identifier in rho
  {
    var prefix := groupKey + H4(s, message) + H5(s, EncodeCommitments(s, sorted));
    var rho := map id | id in Ids(sorted) :: H1(s, prefix + ScalarBytes(id, s.L));
    assert forall i :: 0 <= i < |sorted| ==> Ids(sorted)[i] in rho;
    rho
  }

  /** R plus a hiding point plus rho times a binding point; a zero multiple is
      the identity. */
  function AddTerm(R: int, D: int, E: int, rho: int, L: int): int
    requires L > 0
  {
    Mod(R + D + Mod(E * rho, L), L)
  }

  function GroupCommitment(s: Suite, cs: seq<Commitment>, rho: map<int, int>): Result<int, FrostError>
    requires s.L > 0 && forall c :: c in cs ==> c.identifier in rho
  {
    if cs == [] then Ok(0)
    else
      var last := cs[|cs| - 1];
      match (GroupCommitment(s, cs[..|cs| - 1], rho), s.decode(last.hiding), s.decode(last.binding))
      case (Ok(R), Some(D), Some(E)) => Ok(AddTerm(R, D, E, rho[last.identifier], s.L))
      case (_, _, _) => Err(BadPoint)
  }

  /** The group commitment of a list in any order. */
  function SortedGroupCommitment(s: Suite, cs: seq<Commitment>, rho: map<int, int>): Result<int, FrostError>
    requires s.L > 0 && forall c :: c in cs ==> c.identifier in rho
  {
    match SortedCommitments(cs)
    case Err(e) => Err(e)
    case Ok(sorted) =>
      SortKeeps(cs);
      GroupCommitment(s, sorted, rho)
  }

  /** The accumulation loop (server/src/frost/frost.ts:222-228). */
  method ComputeGroupCommitment(s: Suite, cs: seq<Commitment>, rho: map<int, int>) returns (r: Result<int, FrostError>)
    requires s.L > 0 && forall c :: c in cs ==> c.identifier in rho
    ensures r == SortedGroupCommitment(s, cs, rho)
  {
    hide AddTerm;
    SortKeeps(cs);
    var ordered := SortedCommitments(cs);
    if ordered.Err? {
      return Err(ordered.error);
    }
    var sorted := ordered.value;
    var R := 0;
    for k := 0 to |sorted|
      invariant GroupCommitment(s, sorted[..k], rho) == Ok(R)
    {
      assert sorted[..k + 1][..k] == sorted[..k];
      var D, E := s.decode(sorted[k].hiding), s.decode(sorted[k].binding);
      if D.None? || E.None? {
        GroupCommitmentFails(s, sorted, k + 1, rho);
        return Err(BadPoint);
      }
      R := AddTerm(R, D.value, E.value, rho[sorted[k].identifier], s.L);
    }
    assert sorted[..|sorted|] == sorted;
    return Ok(R);
  }

  /** An undecodable point anywhere fails the whole sum. */
  lemma {:induction false} GroupCommitmentFails(s: Suite, cs: seq<Commitment>, k: nat, rho: map<int, int>)
    requires s.L > 0 && (forall c :: c in cs ==> c.identifier in rho) && k <= |cs|
    requires GroupCommitment(s, cs[..k], rho) == Err(BadPoint)
    ensures GroupCommitment(s, cs, rho) == Err(BadPoint)
  {
    if k == |cs| {
      assert cs[..k] == cs;
    } else {
      assert cs[..|cs| - 1][..k] == cs[..k];
      GroupCommitmentFails(s, cs[..|cs| - 1], k, rho);
    }
  }

  function Challenge(s: Suite, R: int, groupKey: Bytes, message: Bytes): int
    requires s.L > 0
  {
    H2(s, s.encode(R) + groupKey + message)
  }

  function NumOver(i: int, ids: seq<int>): int {
    if ids == [] then 1
    else NumOver(i, ids[..|ids| - 1]) * if ids[|ids| - 1] == i then 1 else ids[|ids| - 1]
  }

  function DenOver(i: int, ids: seq<int>): int {
    if ids == [] then 1
    else DenOver(i, ids[..|ids| - 1]) * if ids[|ids| - 1] == i then 1 else ids[|ids| - 1] - i
  }

  function Coefficient(i: int, ids: seq<int>, L: int): Result<int, FrostError>
    requires L >= 2
  {
    if DenOver(i, ids) % L == 0 then Err(DuplicateParticipants)
    else Ok(Lagrange.Ratio(NumOver(i, ids) % L, DenOver(i, ids) % L, L))
  }

  /** The coefficient loop (server/src/frost/frost.ts:235-247). */
  method LagrangeCoefficient(i: int, ids: seq<int>, L: int) returns (r: Result<int, FrostError>)
    requires L >= 2
    ensures r == Coefficient(i, ids, L)
  {
    var num, den := 1, 1;
    for k := 0 to |ids|
      invariant num == NumOver(i, ids[..k]) % L
      invariant den == DenOver(i, ids[..k]) % L
    {
      assert ids[..k + 1][..k] == ids[..k];
      var j := ids[k];
      if j == i {
        continue;
      }
      ReducedProduct(NumOver(i, ids[..k]), j, L);
      ReducedProduct(DenOver(i, ids[..k]), j - i, L);
      num := Mod(num * j, L);
      den := Mod(den * (j - i), L);
    }
    assert ids[..|ids|] == ids;
    if den == 0 {
      return Err(DuplicateParticipants);
    }
    var inverse := Invert(den, L);
    return Ok(Mod(num * inverse, L));
  }

  lemma ReducedProduct(a: int, b: int, L: int)
    requires L > 0
    ensures ((a % L) * b) % L == (a * b) % L
  {
    CongMod(a, L);
    CongScale(b, a % L, a, L);
  }

  // ---- round 2 -------------------------------------------------------------

  datatype Round2Params = Round2Params(
    identifier: int, secretShare: int, hidingNonce: int, bindingNonce: int,
    message: Bytes, commitments: seq<Commitment>, groupPublicKey: Bytes)

  /** What every party derives from the commitment list: the sorted list, the
      binding factors, R and the challenge. */
  datatype Transcript = Transcript(sorted: seq<Commitment>, rho: map<int, int>, R: int, c: int)

  function Derive(s: Suite, cs: seq<Commitment>, groupKey: Bytes, message: Bytes): (r: Result<Transcript, FrostError>)
    requires s.L > 0
    ensures r.Ok? ==> forall c :: c in r.value.sorted ==> c.identifier in r.value.rho
  {
    match SortedCommitments(cs)
    case Err(e) => Err(e)
    case Ok(sorted) =>
      var rho := BindingFactors(s, groupKey, sorted, message);
      match GroupCommitment(s, sorted, rho)
      case Err(e) => Err(e)
      case Ok(R) => Ok(Transcript(sorted, rho, R, Challenge(s, R, groupKey, message)))
  }

  function PartialSignature(d: int, e: int, rho: int, weight: int, sk: int, c: int, L: int): int
    requires L > 0
  {
    (d + e * rho + weight * sk * c) % L
  }

  function Round2Sign(s: Suite, p: Round2Params): Result<int, FrostError>
    requires s.L >= 2
  {
    match SortedCommitments(p.commitments)
    case Err(e) => Err(e)
    case Ok(sorted) =>
      match Find(sorted, p.identifier)
      case None => Err(OwnIdentifierMissing)
      case Some(own) =>
        var d, e := p.hidingNonce % s.L, p.bindingNonce % s.L;
        match (BaseMultiply(d), BaseMultiply(e))
        case (Ok(D), Ok(E)) =>
          if s.encode(D) != own.hiding || s.encode(E) != own.binding then Err(CommitmentMismatch)
          else
            (match Derive(s, p.commitments, p.groupPublicKey, p.message)
             case Err(err) => Err(err)
             case Ok(t) =>
               match Coefficient(p.identifier, Ids(sorted), s.L)
               case Err(err) => Err(err)
               case Ok(weight) =>
                 Ok(PartialSignature(d, e, t.rho[p.identifier], weight, p.secretShare % s.L, t.c, s.L)))
        case (_, _) => Err(ZeroScalar)
  }

  // ---- aggregation and verification ----------------------------------------

  datatype SignatureShare = SignatureShare(identifier: int, zi: int)

  /** zi times the base point against D + rho * E + (c * weight) * Y. */
  function ShareEquation(zi: int, D: int, E: int, rho: int, Y: int, c: int, weight: int, L: int): bool
    requires L > 0
  {
    Mod(zi, L) == Mod(D + Mod(E * rho, L) + Mod(Y * Mod(c * weight, L), L), L)
  }

  /** Attribution of a bad partial (section 5.3 of RFC 9591). */
  function VerifySignatureShare(s: Suite, share: SignatureShare, verificationShare: Bytes,
                                cs: seq<Commitment>, groupKey: Bytes, message: Bytes): Result<bool, FrostError>
    requires s.L >= 2
  {
    match SortedCommitments(cs)
    case Err(e) => Err(e)
    case Ok(sorted) =>
      match Find(sorted, share.identifier)
      case None => Ok(false)
      case Some(own) =>
        match Derive(s, cs, groupKey, message)
        case Err(e) => Err(e)
        case Ok(t) =>
          match Coefficient(share.identifier, Ids(sorted), s.L)
          case Err(e) => Err(e)
          case Ok(weight) =>
            match (s.decode(own.hiding), s.decode(own.binding), s.decode(verificationShare))
            case (Some(D), Some(E), Some(Y)) =>
              Ok(ShareEquation(share.zi, D, E, t.rho[share.identifier], Y, t.c, weight, s.L))
            case (_, _, _) => Err(BadPoint)
  }

  datatype Signature = Signature(r: Bytes, z: int)

  function SumZ(shares: seq<SignatureShare>): int {
    if shares == [] then 0 else SumZ(shares[..|shares| - 1]) + shares[|shares| - 1].zi
  }

  function AggregateOf(s: Suite, cs: seq<Commitment>, shares: seq<SignatureShare>, groupKey: Bytes, message: Bytes)
    : Result<Signature, FrostError>
    requires s.L > 0
  {
    match SortedCommitments(cs)
    case Err(e) => Err(e)
    case Ok(sorted) =>
      if |shares| != |sorted| then Err(ShareCountMismatch)
      else
        match Derive(s, cs, groupKey, message)
        case Err(e) => Err(e)
        case Ok(t) => Ok(Signature(s.encode(t.R), SumZ(shares) % s.L))
  }

  /** The summing loop (server/src/frost/frost.ts:320-333). */
  method Aggregate(s: Suite, cs: seq<Commitment>, shares: seq<SignatureShare>, groupKey: Bytes, message: Bytes)
    returns (r: Result<Signature, FrostError>)
    requires s.L > 1
    ensures r == AggregateOf(s, cs, shares, groupKey, message)
  {
    var ordered := SortedCommitments(cs);
    if ordered.Err? {
      return Err(ordered.error);
    }
    var sorted := ordered.value;
    if |shares| != |sorted| {
      return Err(ShareCountMismatch);
    }
    var rho := BindingFactors(s, groupKey, sorted, message);
    SortIdempotent(cs);
    var R := ComputeGroupCommitment(s, sorted, rho);
    if R.Err? {
      return Err(R.error);
    }
    var z := SumShares(shares, s.L);
    return Ok(Signature(s.encode(R.value), z));
  }

  method SumShares(shares: seq<SignatureShare>, L: int) returns (z: int)
    requires L > 1
    ensures z == SumZ(shares) % L
  {
    z := 0;
    for k := 0 to |shares|
      invariant z == SumZ(shares[..k]) % L
    {
      assert shares[..k + 1][..k] == shares[..k];
      ReducedSum(SumZ(shares[..k]), shares[k].zi, L);
      z := Mod(z + Mod(shares[k].zi, L), L);
    }
    assert shares[..|shares|] == shares;
  }

  lemma ReducedSum(a: int, b: int, L: int)
    requires L > 0
    ensures (a % L + b % L) % L == (a + b) % L
  {
    CongMod(a, L);
    CongMod(b, L);
    CongAdd(a % L, a, b % L, b, L);
  }

  /** Standard Ed25519 verification (section 5.1.7 of RFC 8032) in the
      prime-order group. */
  function VerifySignature(s: Suite, sig: Signature, message: Bytes, groupKey: Bytes): bool
    requires s.L > 0
  {
    match (s.decode(sig.r), s.decode(groupKey))
    case (Some(R), Some(A)) =>
      0 <= sig.z < s.L && sig.z % s.L == (R + H2(s, sig.r + groupKey + message) * A) % s.L
    case (_, _) => false
  }

  // ---- sorting -------------------------------------------------------------

  ghost predicate SortedIds(cs: seq<Commitment>) {
    forall i, j :: 0 <= i < j < |cs| ==> cs[i].identifier <= cs[j].identifier
  }

  lemma {:induction false} InsertAdds(c: Commitment, cs: seq<Commitment>)
    ensures multiset(InsertById(c, cs)) == multiset(cs) + multiset{c}
    ensures InsertById(c, cs) != []
    ensures forall x :: x in InsertById(c, cs) ==> x == c || x in cs
  {
    if cs != [] && c.identifier >= cs[0].identifier {
      InsertAdds(c, cs[1..]);
      assert cs == [cs[0]] + cs[1..];
    } else {
      assert multiset([c] + cs) == multiset{c} + multiset(cs);
    }
  }

  lemma {:induction false} InsertSorted(c: Commitment, cs: seq<Commitment>)
    requires SortedIds(cs)
    ensures SortedIds(InsertById(c, cs))
  {
    if cs != [] && c.identifier >= cs[0].identifier {
      var r := InsertById(c, cs[1..]);
      InsertSorted(c, cs[1..]);
      InsertAdds(c, cs[1..]);
      forall k | 0 <= k < |r|
        ensures cs[0].identifier <= r[k].identifier
      {
        assert r[k] in r;
      }
    }
  }

  lemma {:induction false} SortSorts(cs: seq<Commitment>)
    ensures SortedIds(SortById(cs)) && multiset(SortById(cs)) == multiset(cs)
  {
    if cs != [] {
      var n := |cs| - 1;
      SortSorts(cs[..n]);
      InsertAdds(cs[n], SortById(cs[..n]));
      InsertSorted(cs[n], SortById(cs[..n]));
      assert cs == cs[..n] + [cs[n]];
    }
  }

  lemma SortKeeps(cs: seq<Commitment>)
    ensures |SortById(cs)| == |cs| && forall c :: c in SortById(cs) <==> c in cs
  {
    SortSorts(cs);
    forall c
      ensures c in SortById(cs) <==> c in cs
    {
      assert c in SortById(cs) <==> c in multiset(SortById(cs));
      assert c in cs <==> c in multiset(cs);
    }
    assert |multiset(SortById(cs))| == |multiset(cs)|;
  }

  lemma SameHead(a: seq<Commitment>, b: seq<Commitment>)
    requires SortedIds(a) && SortedIds(b) && Distinct(Ids(a)) && multiset(a) == multiset(b) && a != [] && b != []
    ensures a[0] == b[0]
  {
    assert a[0] in multiset(b) && b[0] in multiset(a);
    var i :| 0 <= i < |a| && a[i] == b[0];
    var j :| 0 <= j < |b| && b[j] == a[0];
    assert a[0].identifier <= a[i].identifier && b[0].identifier <= b[j].identifier;
    assert Ids(a)[0] == a[0].identifier && Ids(a)[i] == a[i].identifier;
  }

  lemma DistinctTail(a: seq<Commitment>)
    requires a != [] && Distinct(Ids(a))
    ensures Distinct(Ids(a[1..]))
  {
    assert Ids(a[1..]) == Ids(a)[1..];
  }

  /** Two sorted lists of the same commitments with distinct identifiers are the
      same list. */
  lemma {:induction false} SortedUnique(a: seq<Commitment>, b: seq<Commitment>)
    requires SortedIds(a) && SortedIds(b) && Distinct(Ids(a)) && multiset(a) == multiset(b)
    ensures a == b
  {
    hide Distinct, Ids, SortedIds;
    assert |multiset(a)| == |multiset(b)|;
    if a != [] {
      SortedTail(a);
      SortedTail(b);
      SameHead(a, b);
      DistinctTail(a);
      TailMultiset(a);
      TailMultiset(b);
      SortedUnique(a[1..], b[1..]);
      assert a == [a[0]] + a[1..] && b == [b[0]] + b[1..];
    }
  }

  lemma SortedTail(a: seq<Commitment>)
    requires a != [] && SortedIds(a)
    ensures SortedIds(a[1..])
  {
  }

  lemma TailMultiset(a: seq<Commitment>)
    requires a != []
    ensures multiset(a[1..]) == multiset(a) - multiset{a[0]}
  {
    assert a == [a[0]] + a[1..];
  }

  lemma SortIdempotent(cs: seq<Commitment>)
    requires SortedCommitments(cs).Ok?
    ensures SortedCommitments(SortedCommitments(cs).value) == SortedCommitments(cs)
  {
    var sorted := SortById(cs);
    SortSorts(cs);
    SortSorts(sorted);
    SortedUnique(sorted, SortById(sorted));
  }
}
