/** The divergence monitor (server/src/coordinator/store.ts:390-419) and what it
    shows in every reachable state of the pipeline. */
module Reconciliation {
  import opened Bank
  import opened Canonical
  import opened Lists
  import opened Pipeline
  import opened PipelineInvariant
  import opened PipelineTheorems
  import opened Types
  import opened Wrappers

  datatype Report = Report(tokensIssued: nat, confirmedDebits: nat, onChainRecords: nat, delta: nat)

  // ---- what is counted ---------------------------------------------------------------

  predicate CountsToken(r: Record) {
    r.status == Delivered && r.token.Some?
  }

  predicate CountsDebit(r: Record) {
    r.status == Delivered && r.debit.Some?
  }

  predicate CountsReceipt(r: Record) {
    r.status == Delivered && r.ledger.Some?
  }

  /** A debit was taken, no token was delivered and the reversal is not confirmed. */
  predicate Stuck(r: Record) {
    r.status == RejectedAbandoned && r.debit.Some? && r.debitReversed != Some(true)
  }

  function TokenIds(rs: map<Text, Record>, ids: set<Text>): set<Text> {
    set id | id in ids && id in rs && CountsToken(rs[id])
  }

  function DeliveredRefs(rs: map<Text, Record>, ids: set<Text>): set<Text> {
    set id | id in ids && id in rs && CountsDebit(rs[id]) :: Ref(rs[id])
  }

  function DeliveredTxs(rs: map<Text, Record>, ids: set<Text>): set<Text> {
    set id | id in ids && id in rs && CountsReceipt(rs[id]) :: rs[id].ledger.value.txHash
  }

  function StuckRefs(rs: map<Text, Record>, ids: set<Text>): set<Text> {
    set id | id in ids && id in rs && Stuck(rs[id]) :: Ref(rs[id])
  }

  function Abs(x: int): nat {
    if x < 0 then -x else x
  }

  function Max(x: nat, y: nat): nat {
    if x < y then y else x
  }

  /** Tokens per delivered request, debits and receipts by distinct value. */
  function Reconcile(rs: map<Text, Record>): Report {
    var tokens := |TokenIds(rs, rs.Keys)|;
    var debits := |DeliveredRefs(rs, rs.Keys)| + |StuckRefs(rs, rs.Keys) - DeliveredRefs(rs, rs.Keys)|;
    var records := |DeliveredTxs(rs, rs.Keys)|;
    Report(tokens, debits, records, Max(Abs(tokens - debits), Abs(tokens - records)))
  }

  // ---- the monitor is exact -----------------------------------------------------------

  /** The retained records. */
  function Retained(st: State): map<Text, Record> {
    map id | id in st.order && id in st.runs :: st.runs[id].record
  }

  lemma {:induction false} SameSize<A, B>(a: set<A>, b: set<B>, f: A -> B)
    requires forall x :: x in a ==> f(x) in b
    requires forall x, y :: x in a && y in a && f(x) == f(y) ==> x == y
    requires forall z :: z in b ==> exists x :: x in a && f(x) == z
    ensures |a| == |b|
  {
    if a == {} {
      assert b == {};
    } else {
      var x :| x in a;
      SameSize(a - {x}, b - {f(x)}, f);
    }
  }

  /** Delivered runs hold a token, a debit and a receipt. */
  lemma DeliveredHolds(env: Env, st: State, id: Text)
    requires Invariant(env, st) && id in st.runs && st.runs[id].record.status == Delivered
    ensures st.runs[id].at.Finished? && st.runs[id].record.token.Some?
    ensures st.runs[id].record.debit.Some? && st.runs[id].record.ledger.Some?
    ensures Ref(st.runs[id].record) in st.consumed && st.consumed[Ref(st.runs[id].record)] == id
    ensures st.runs[id].record.ledger.value.txHash in st.outside.receipts
    ensures st.outside.receipts[st.runs[id].record.ledger.value.txHash] == id
  {
    hide SharedOk, BankOk, OrderOk, Receipt, TokenFor, BankConfirmed, CeremonyOk, ReversalBacked;
    assert RunOk(env, st, id, st.runs[id]);
  }

  lemma StuckHolds(env: Env, st: State, id: Text)
    requires Invariant(env, st) && id in st.runs && st.runs[id].record.status == RejectedAbandoned
    ensures st.runs[id].record.debit.Some? && st.runs[id].record.debitReversed.Some?
    ensures Ref(st.runs[id].record) in st.consumed && st.consumed[Ref(st.runs[id].record)] == id
  {
    hide SharedOk, BankOk, OrderOk, Receipt, TokenFor, BankConfirmed, CeremonyOk, ReversalBacked, ReceiptBacked;
    assert RunOk(env, st, id, st.runs[id]);
  }

  /** The retained requests whose debit is taken and not known to be returned. */
  ghost function StuckIds(st: State): set<Text> {
    set id | id in st.order && id in st.runs && st.runs[id].record.status == RejectedAbandoned
             && st.runs[id].record.debit.Some? && st.runs[id].record.debitReversed != Some(true)
  }

  ghost function DeliveredIds(st: State): set<Text> {
    set id | id in st.order && id in st.runs && st.runs[id].record.status == Delivered
  }

  function RefOf(st: State): Text -> Text {
    id => if id in st.runs && st.runs[id].record.debit.Some? then Ref(st.runs[id].record) else []
  }

  function TxOf(st: State): Text -> Text {
    id => if id in st.runs && st.runs[id].record.ledger.Some? then st.runs[id].record.ledger.value.txHash else []
  }

  lemma DeliveredCounts(env: Env, st: State)
    requires Invariant(env, st)
    ensures var rs := Retained(st);
            && |TokenIds(rs, rs.Keys)| == |DeliveredIds(st)| && |DeliveredRefs(rs, rs.Keys)| == |DeliveredIds(st)|
            && |DeliveredTxs(rs, rs.Keys)| == |DeliveredIds(st)|
  {
    hide Invariant, CountsReceipt, CountsDebit, CountsToken;
    var rs, ids := Retained(st), DeliveredIds(st);
    forall id | id in ids
      ensures CountsToken(rs[id]) && CountsDebit(rs[id]) && CountsReceipt(rs[id])
      ensures rs[id].debit.Some? && rs[id].ledger.Some?
      ensures Ref(rs[id]) in st.consumed && st.consumed[Ref(rs[id])] == id
      ensures rs[id].ledger.value.txHash in st.outside.receipts && st.outside.receipts[rs[id].ledger.value.txHash] == id
    {
      DeliveredHolds(env, st, id);
      DeliveredIsCounted(rs[id]);
    }
    forall id | id in rs && (CountsToken(rs[id]) || CountsDebit(rs[id]) || CountsReceipt(rs[id]))
      ensures id in ids
    {
      CountedIsDelivered(rs[id]);
    }
    assert TokenIds(rs, rs.Keys) == ids;
    SameSize(ids, DeliveredRefs(rs, rs.Keys), RefOf(st));
    SameSize(ids, DeliveredTxs(rs, rs.Keys), TxOf(st));
  }

  lemma DeliveredIsCounted(r: Record)
    requires r.status == Delivered && r.token.Some? && r.debit.Some? && r.ledger.Some?
    ensures CountsToken(r) && CountsDebit(r) && CountsReceipt(r)
  {
  }

  lemma CountedIsDelivered(r: Record)
    requires CountsToken(r) || CountsDebit(r) || CountsReceipt(r)
    ensures r.status == Delivered
  {
  }

  lemma StuckCounts(env: Env, st: State)
    requires Invariant(env, st)
    ensures var rs := Retained(st);
            && StuckRefs(rs, rs.Keys) !! DeliveredRefs(rs, rs.Keys)
            && |StuckRefs(rs, rs.Keys)| == |StuckIds(st)|
  {
    hide Invariant;
    var rs, ids := Retained(st), StuckIds(st);
    forall id | id in ids
      ensures rs[id].debit.Some? && Ref(rs[id]) in st.consumed && st.consumed[Ref(rs[id])] == id
    {
      StuckHolds(env, st, id);
    }
    forall id | id in rs && CountsDebit(rs[id])
      ensures Ref(rs[id]) in st.consumed && st.consumed[Ref(rs[id])] == id
    {
      DeliveredHolds(env, st, id);
    }
    assert forall id :: id in rs && Stuck(rs[id]) ==> id in ids;
    SameSize(ids, StuckRefs(rs, rs.Keys), RefOf(st));
  }

  /** In every reachable state the monitor's divergence is the number of retained
      requests whose debit was taken, whose token was not delivered and whose
      reversal was not confirmed; tokens and receipts always agree. */
  lemma DeltaIsStuck(env: Env, evs: seq<PipelineEvent>, st: State)
    requires Reachable(env, evs, st)
    ensures Reconcile(Retained(st)) ==
            Report(|DeliveredIds(st)|, |DeliveredIds(st)| + |StuckIds(st)|, |DeliveredIds(st)|, |StuckIds(st)|)
    ensures Reconcile(Retained(st)).delta == 0 <==>
            forall id :: id in st.order && id in st.runs && st.runs[id].record.status == RejectedAbandoned ==>
              st.runs[id].record.debitReversed == Some(true)
  {
    hide Reachable, Invariant, TokenIds, DeliveredRefs, DeliveredTxs, StuckRefs;
    ReachableInvariant(env, evs, st);
    DeliveredCounts(env, st);
    StuckCounts(env, st);
    var rs := Retained(st);
    assert StuckRefs(rs, rs.Keys) - DeliveredRefs(rs, rs.Keys) == StuckRefs(rs, rs.Keys);
    forall id | id in st.runs && st.runs[id].record.status == RejectedAbandoned
      ensures st.runs[id].record.debit.Some?
    {
      StuckHolds(env, st, id);
    }
    assert StuckIds(st) == {} <==> |StuckIds(st)| == 0;
    forall id | id in st.order && id in st.runs && st.runs[id].record.status == RejectedAbandoned
      ensures id in StuckIds(st) <==> st.runs[id].record.debitReversed != Some(true)
    {
    }
    assert forall id :: id in StuckIds(st) ==> st.runs[id].record.status == RejectedAbandoned;
  }
}
