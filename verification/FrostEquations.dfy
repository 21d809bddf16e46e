/** The hashes of server/src/frost/frost.ts spelled out: what a signature commits
    to, what the binding factors commit to, and when round 2 signs. */
module FrostEquations {
  import opened Codec
  import opened Frost
  import opened FrostTheorems
  import opened Lists
  import opened Modular
  import opened Wrappers

  lemma AsciiBytes(text: string, i: nat)
    requires i < |text| && text[i] < 128 as char
    ensures Ascii(text)[i] == text[i] as int
  {
  }

  /** Section 5.1.7 of RFC 8032, with the hash of R, key and message spelled out. */
  lemma VerificationEquation(s: Suite, R: int, z: int, A: int, message: Bytes)
    requires ValidSuite(s) && 0 <= R < s.L && 0 <= A < s.L
    ensures VerifySignature(s, Signature(s.encode(R), z), message, s.encode(A)) <==>
            && 0 <= z < s.L
            && z == (R + (NumberLE(s.sha512(s.encode(R) + s.encode(A) + message)) % s.L) * A) % s.L
  {
    hide IsPrime, Pow;
    PrimeOrder(s);
    if 0 <= z < s.L {
      Unique(z, 0, z, s.L);
    }
  }

  /** The same, for any bytes in place of R and the key. */
  lemma VerifiesParts(s: Suite, sig: Signature, message: Bytes, groupKey: Bytes)
    requires s.L > 0
    ensures VerifySignature(s, sig, message, groupKey) <==>
            && s.decode(sig.r).Some? && s.decode(groupKey).Some? && 0 <= sig.z < s.L
            && Cong(sig.z, s.decode(sig.r).value
                           + (NumberLE(s.sha512(sig.r + groupKey + message)) % s.L) * s.decode(groupKey).value, s.L)
  {
  }

  /** A signature is of one message: where it verifies, it verifies for another
      message exactly when the two hashes with R and the key agree modulo L,
      whenever the key is not the identity. */
  lemma SignatureBindsMessage(s: Suite, sig: Signature, groupKey: Bytes, message: Bytes, message': Bytes)
    requires ValidSuite(s) && s.decode(groupKey).Some? && s.decode(groupKey).value != 0
    requires VerifySignature(s, sig, message, groupKey)
    ensures VerifySignature(s, sig, message', groupKey) <==>
            Cong(NumberLE(s.sha512(sig.r + groupKey + message)), NumberLE(s.sha512(sig.r + groupKey + message')), s.L)
  {
    hide Cong, IsPrime, Pow, VerifySignature;
    PrimeOrder(s);
    VerifiesParts(s, sig, message, groupKey);
    VerifiesParts(s, sig, message', groupKey);
    var x, y := NumberLE(s.sha512(sig.r + groupKey + message)), NumberLE(s.sha512(sig.r + groupKey + message'));
    EquationsAgree(sig.z, s.decode(sig.r).value, x, y, s.decode(groupKey).value, s.L);
  }

  lemma EquationsAgree(z: int, R: int, x: int, y: int, A: int, L: int)
    requires IsPrime(L) && 0 < A < L && Cong(z, R + (x % L) * A, L)
    ensures L > 0 && (Cong(z, R + (y % L) * A, L) <==> Cong(x, y, L))
  {
    hide Cong, IsPrime;
    PrimeAtLeastTwo(L);
    var c, d := x % L, y % L;
    Unique(A, 0, A, L);
    if Cong(z, R + d * A, L) {
      CongSym(z, R + c * A, L);
      CongTrans(R + c * A, z, R + d * A, L);
      CongAdd(R + c * A, R + d * A, R, R, L) by { CongRefl(R, L); }
      assert Cong(A * c, A * d, L) by {
        assert R + c * A - R == A * c && R + d * A - R == A * d;
      }
      Cancel(L, A, c, d);
      SameRemainders(x, y, L);
    }
    if Cong(x, y, L) {
      SameRemainders(x, y, L);
    }
  }

  lemma SameRemainders(x: int, y: int, L: int)
    requires L > 0
    ensures Cong(x % L, y % L, L) <==> Cong(x, y, L)
    ensures Cong(x, y, L) <==> x % L == y % L
  {
    CongMod(x, L);
    CongMod(y, L);
  }

  /** The identity as key verifies one signature for every message. */
  lemma IdentityKeyBindsNothing(s: Suite, sig: Signature, groupKey: Bytes, message: Bytes, message': Bytes)
    requires s.L > 0 && s.decode(groupKey) == Some(0) && VerifySignature(s, sig, message, groupKey)
    ensures VerifySignature(s, sig, message', groupKey)
  {
    hide Cong, VerifySignature;
    VerifiesParts(s, sig, message, groupKey);
    VerifiesParts(s, sig, message', groupKey);
  }

  /** Every binding factor is the hash of its identifier with the key, the message
      and the whole list. */
  lemma FactorSpelledOut(s: Suite, groupKey: Bytes, sorted: seq<Commitment>, message: Bytes, k: nat)
    requires s.L > 0 && k < |sorted|
    ensures var context := Ascii("FROST-ED25519-SHA512-v1");
            var hashedMessage := s.sha512(context + Ascii("msg") + message);
            var hashedList := s.sha512(context + Ascii("com") + EncodeCommitments(s, sorted));
            var id := sorted[k].identifier;
            && id in BindingFactors(s, groupKey, sorted, message)
            && BindingFactors(s, groupKey, sorted, message)[id] ==
               NumberLE(s.sha512(context + Ascii("rho")
                                 + (groupKey + hashedMessage + hashedList + LittleEndian(id % s.L, 32)))) % s.L
  {
    assert Ids(sorted)[k] == sorted[k].identifier;
  }

  // ---- when round 2 signs --------------------------------------------------

  lemma {:induction false} CommitmentNeedsPoints(s: Suite, cs: seq<Commitment>, rho: map<int, int>)
    requires s.L > 0 && forall c :: c in cs ==> c.identifier in rho
    ensures GroupCommitment(s, cs, rho).Ok? <==> Decodable(s, cs)
  {
    hide AddTerm;
    if cs != [] {
      var front, last := cs[..|cs| - 1], cs[|cs| - 1];
      assert cs == front + [last];
      CommitmentNeedsPoints(s, front, rho);
      assert Decodable(s, cs) <==> Decodable(s, front) && s.decode(last.hiding).Some? && s.decode(last.binding).Some?;
    }
  }

  lemma DerivesIff(s: Suite, cs: seq<Commitment>, groupKey: Bytes, message: Bytes)
    requires s.L > 0
    ensures Derive(s, cs, groupKey, message).Ok? <==> Distinct(Ids(cs)) && Decodable(s, cs)
  {
    hide Distinct, GroupCommitment, BindingFactors, Challenge;
    SameIds(cs);
    SortKeeps(cs);
    assert Decodable(s, SortById(cs)) <==> Decodable(s, cs);
    if Distinct(Ids(cs)) {
      CommitmentNeedsPoints(s, SortById(cs), BindingFactors(s, groupKey, SortById(cs), message));
    }
  }

  /** The own entry of a commitment list: the points of the own nonces, both nonzero. */
  ghost predicate OwnEntry(s: Suite, p: Round2Params, own: Commitment)
    requires s.L > 0
  {
    && own in p.commitments && own.identifier == p.identifier
    && p.hidingNonce % s.L != 0 && p.bindingNonce % s.L != 0
    && own.hiding == s.encode(p.hidingNonce % s.L) && own.binding == s.encode(p.bindingNonce % s.L)
  }

  /** Round 2 signs if and only if the identifiers differ, the own entry matches the
      own nonces, every point decodes and no other identifier clashes with the own. */
  lemma SignsIff(s: Suite, p: Round2Params)
    requires ValidSuite(s)
    ensures s.L >= 2
    ensures Round2Sign(s, p).Ok? <==>
            && Distinct(Ids(p.commitments)) && Decodable(s, p.commitments)
            && (exists own :: OwnEntry(s, p, own))
            && !(exists j :: j in Ids(p.commitments) && Clashes(p.identifier, j, s.L))
  {
    hide Distinct, Derive, Coefficient, ValidSuite, Decodable, Clashes, PartialSignature;
    PrimeOrder(s);
    SameIds(p.commitments);
    SortKeeps(p.commitments);
    DerivesIff(s, p.commitments, p.groupPublicKey, p.message);
    CoefficientRefuses(p.identifier, Ids(SortById(p.commitments)), s.L);
    SameMembers(Ids(p.commitments), Ids(SortById(p.commitments)));
    if Distinct(Ids(p.commitments)) {
      var found := Find(SortById(p.commitments), p.identifier);
      OwnIsFound(s, p);
      assert (exists own :: OwnEntry(s, p, own)) <==> found.Some? && OwnEntry(s, p, found.value);
    }
  }

  lemma OwnIsFound(s: Suite, p: Round2Params)
    requires s.L > 0 && Distinct(Ids(p.commitments))
    ensures var found := Find(SortById(p.commitments), p.identifier);
            && (found.Some? ==> found.value in p.commitments && found.value.identifier == p.identifier)
            && forall own :: OwnEntry(s, p, own) ==> found == Some(own)
  {
    hide Distinct;
    SortKeeps(p.commitments);
    forall own | OwnEntry(s, p, own)
      ensures Find(SortById(p.commitments), p.identifier) == Some(own)
    {
      FoundOwn(p.commitments, own);
    }
  }

  lemma SameMembers(a: seq<int>, b: seq<int>)
    requires Elements(a) == Elements(b)
    ensures forall j :: j in a <==> j in b
  {
    forall j
      ensures j in a <==> j in b
    {
      assert j in a <==> j in Elements(a);
      assert j in b <==> j in Elements(b);
    }
  }
}
