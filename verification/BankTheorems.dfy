/** What a call to the bank does, field by field (server/src/bank/index.ts:69-158). */
module BankTheorems {
  import opened Bank
  import opened Canonical
  import opened Types
  import opened Wrappers

  ghost predicate Knows(log: seq<Entry>, requestId: Text) {
    exists i :: 0 <= i < |log| && log[i].debit.payload.requestId == requestId
  }

  ghost predicate HasRef(log: seq<Entry>, debitRef: Text) {
    exists i :: 0 <= i < |log| && log[i].debit.payload.debitRef == debitRef
  }

  // ---- debits ---------------------------------------------------------------------

  /** The log grows if and only if the call names a request and a meter, the request
      is new and the bank is in one of the two modes that take the money; in every
      other case the bank's state is unchanged. */
  lemma LogGrowsIff(bankKey: Text, st: BankState, req: DebitRequest, debitRef: Text, at: Text)
    ensures var st' := HandleDebit(bankKey, st, req, debitRef, at).0;
            var takes := req.requestId != [] && req.meterId != [] && !Knows(st.log, req.requestId)
                         && (st.mode == Confirm || st.mode == OmitSignature);
            && (|st'.log| == |st.log| + 1 <==> takes)
            && (!takes ==> st' == st)
            && st'.mode == st.mode && st'.reversals == st.reversals
  {
  }

  /** A debit that is taken is exactly what the call asked for, under the given
      reference and time; it carries the bank's signature unless that was omitted. */
  lemma TakenAsAsked(bankKey: Text, st: BankState, req: DebitRequest, debitRef: Text, at: Text)
    requires req.requestId != [] && req.meterId != [] && !Knows(st.log, req.requestId)
    requires st.mode == Confirm || st.mode == OmitSignature
    ensures var (st', reply) := HandleDebit(bankKey, st, req, debitRef, at);
            && |st'.log| == |st.log| + 1 && st'.log[..|st.log|] == st.log
            && var entry := st'.log[|st.log|];
            && var p := entry.debit.payload;
            && reply == Confirmation(entry.debit) && !entry.reversed
            && p.debitRef == debitRef && p.confirmedAt == at && p.requestId == req.requestId
            && p.meterId == req.meterId && p.amountKwh == req.amountKwh && p.amount == req.amount
            && p.currency == req.currency
            && (st.mode == Confirm ==> entry.outcome == Confirmed && entry.debit.bankSignature == SignedBy(bankKey, p))
            && (st.mode == OmitSignature ==> entry.outcome == SignatureOmitted && entry.debit.bankSignature == Forged)
  {
  }

  /** What the caller hears: a missing field is refused in every mode, a known
      request is answered with its own debit in every mode, and only a new one
      depends on the mode. */
  lemma AnswerIff(bankKey: Text, st: BankState, req: DebitRequest, debitRef: Text, at: Text)
    ensures var reply := HandleDebit(bankKey, st, req, debitRef, at).1;
            var named := req.requestId != [] && req.meterId != [];
            var known := Knows(st.log, req.requestId);
            && (reply == InvalidRequest <==> !named)
            && (reply == Declined <==> named && !known && st.mode == Decline)
            && (reply == TimedOut <==> named && !known && st.mode == Timeout)
            && (named && known ==>
                  exists i :: 0 <= i < |st.log| && st.log[i].debit.payload.requestId == req.requestId
                              && reply == Confirmation(st.log[i].debit))
  {
  }

  // ---- reversals ------------------------------------------------------------------

  /** The bank acknowledges a reversal if and only if it has the reference; then that
      entry and no other is reversed, the reversal log lists it exactly once and
      lists everything else as before. */
  lemma ReversesIff(bankKey: Text, st: BankState, debitRef: Text)
    requires BankInvariant(bankKey, st)
    ensures var (st', ok) := HandleReverse(st, debitRef);
            && (ok <==> HasRef(st.log, debitRef))
            && (!ok ==> st' == st)
            && |st'.log| == |st.log| && st'.mode == st.mode
            && (forall i :: 0 <= i < |st.log| ==>
                  && st'.log[i].debit == st.log[i].debit && st'.log[i].outcome == st.log[i].outcome
                  && (st'.log[i].reversed <==> st.log[i].reversed || st.log[i].debit.payload.debitRef == debitRef))
            && (ok ==> multiset(st'.reversals)[debitRef] == 1)
            && forall ref :: ref != debitRef ==> multiset(st'.reversals)[ref] == multiset(st.reversals)[ref]
  {
    hide BankInvariant;
    var (st', ok) := HandleReverse(st, debitRef);
    ReversedEntry(bankKey, st, debitRef);
    if ok {
      OnceListed(bankKey, st, debitRef);
    }
  }

  lemma ReversedEntry(bankKey: Text, st: BankState, debitRef: Text)
    requires BankInvariant(bankKey, st)
    ensures var (st', ok) := HandleReverse(st, debitRef);
            && (ok <==> HasRef(st.log, debitRef)) && (!ok ==> st' == st)
            && |st'.log| == |st.log| && st'.mode == st.mode
            && (forall i :: 0 <= i < |st.log| ==>
                  && st'.log[i].debit == st.log[i].debit && st'.log[i].outcome == st.log[i].outcome
                  && (st'.log[i].reversed <==> st.log[i].reversed || st.log[i].debit.payload.debitRef == debitRef))
            && (ok ==> debitRef in st'.reversals)
            && (st'.reversals == st.reversals || st'.reversals == st.reversals + [debitRef])
  {
    hide EntriesOk, ReversalsOk;
    var found := FindRef(st.log, debitRef);
    if found.Some? && st.log[found.value].reversed {
      assert EntryOk(bankKey, st.reversals, st.log[found.value]) by {
        EntryIsOk(bankKey, st, found.value);
      }
    }
  }

  lemma EntryIsOk(bankKey: Text, st: BankState, i: nat)
    requires BankInvariant(bankKey, st) && i < |st.log|
    ensures EntryOk(bankKey, st.reversals, st.log[i])
  {
  }

  lemma OnceListed(bankKey: Text, st: BankState, debitRef: Text)
    requires BankInvariant(bankKey, st) && HandleReverse(st, debitRef).1
    ensures multiset(HandleReverse(st, debitRef).0.reversals)[debitRef] == 1
  {
    ReverseKeepsInvariant(bankKey, st, debitRef);
    ReversedEntry(bankKey, st, debitRef);
    DistinctCount(HandleReverse(st, debitRef).0.reversals, debitRef);
  }

  lemma {:induction false} DistinctCount(refs: seq<Text>, ref: Text)
    requires ref in refs && forall i, j :: 0 <= i < j < |refs| ==> refs[i] != refs[j]
    ensures multiset(refs)[ref] == 1
  {
    var n := |refs| - 1;
    assert refs == refs[..n] + [refs[n]];
    if refs[n] == ref {
      assert ref !in refs[..n];
      assert multiset(refs[..n])[ref] == 0;
    } else {
      DistinctCount(refs[..n], ref);
    }
  }
}
