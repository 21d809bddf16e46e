/** Which transaction of the ledger speaks for a member, by position
    (server/src/common/chain.ts:238-264, server/src/signer/index.ts:191-234). */
module ApprovalTheorems {
  import opened Approvals
  import opened Canonical
  import opened Types
  import opened Wrappers

  predicate About(m: Memo, requestHash: Text) {
    m.ApprovalMemo? && m.requestHash == requestHash
  }

  /** The first memo about a request decides what a transaction says of it. */
  lemma {:induction false} FirstMemoDecides(memos: seq<Memo>, requestHash: Text, v: Verdict)
    ensures FirstVerdict(memos, requestHash) == Some(v) <==>
            exists i :: 0 <= i < |memos| && memos[i] == ApprovalMemo(requestHash, v)
                        && forall j :: 0 <= j < i ==> !About(memos[j], requestHash)
    ensures FirstVerdict(memos, requestHash) == None <==>
            forall i :: 0 <= i < |memos| ==> !About(memos[i], requestHash)
  {
    if memos != [] {
      FirstMemoDecides(memos[1..], requestHash, v);
      if !About(memos[0], requestHash) {
        if i :| 0 <= i < |memos| && memos[i] == ApprovalMemo(requestHash, v)
                && forall j :: 0 <= j < i ==> !About(memos[j], requestHash) {
          assert memos[1..][i - 1] == memos[i];
          assert forall j :: 0 <= j < i - 1 ==> memos[1..][j] == memos[j + 1];
        }
        if i :| 0 <= i < |memos| - 1 && memos[1..][i] == ApprovalMemo(requestHash, v)
                && forall j :: 0 <= j < i ==> !About(memos[1..][j], requestHash) {
          assert memos[i + 1] == ApprovalMemo(requestHash, v);
          assert forall j :: 0 < j < i + 1 ==> memos[j] == memos[1..][j - 1];
        }
        assert forall i :: 0 < i < |memos| ==> memos[i] == memos[1..][i - 1];
        assert forall i :: 0 <= i < |memos| - 1 ==> memos[1..][i] == memos[i + 1];
      }
    }
  }

  /** The transaction is a member's and says something of the request. */
  predicate Speaks(tx: Tx, members: map<Text, SignerId>, requestHash: Text, s: SignerId) {
    && tx.account in members && members[tx.account] == s
    && exists i :: 0 <= i < |tx.memos| && About(tx.memos[i], requestHash)
  }

  /** A member's verdict in a newest-first list is that of the first transaction from
      one of its accounts that says anything of the request, with that transaction's
      hash and account. */
  lemma {:induction false} NewestDecides(txs: seq<Tx>, members: map<Text, SignerId>, requestHash: Text, s: SignerId,
                                         r: ApprovalRecord)
    ensures Newest(txs, members, requestHash, s) == Some(r) <==>
            exists i :: 0 <= i < |txs| && Speaks(txs[i], members, requestHash, s)
                        && FirstVerdict(txs[i].memos, requestHash) == Some(r.verdict)
                        && r.txHash == txs[i].hash && r.fromAddress == txs[i].account
                        && forall j :: 0 <= j < i ==> !Speaks(txs[j], members, requestHash, s)
  {
    hide FirstVerdict;
    if txs != [] {
      NewestDecides(txs[1..], members, requestHash, s, r);
      FirstMemoDecides(txs[0].memos, requestHash, r.verdict);
      if !Speaks(txs[0], members, requestHash, s) {
        if i :| 0 <= i < |txs| && Speaks(txs[i], members, requestHash, s)
                && FirstVerdict(txs[i].memos, requestHash) == Some(r.verdict)
                && r.txHash == txs[i].hash && r.fromAddress == txs[i].account
                && forall j :: 0 <= j < i ==> !Speaks(txs[j], members, requestHash, s) {
          assert txs[1..][i - 1] == txs[i];
          assert forall j :: 0 <= j < i - 1 ==> txs[1..][j] == txs[j + 1];
        }
        if i :| 0 <= i < |txs| - 1 && Speaks(txs[1..][i], members, requestHash, s)
                && FirstVerdict(txs[1..][i].memos, requestHash) == Some(r.verdict)
                && r.txHash == txs[1..][i].hash && r.fromAddress == txs[1..][i].account
                && forall j :: 0 <= j < i ==> !Speaks(txs[1..][j], members, requestHash, s) {
          assert txs[i + 1] == txs[1..][i];
          assert forall j :: 0 < j < i + 1 ==> txs[j] == txs[1..][j - 1];
        }
      }
    }
  }

  /** A read sees the newest 200 transactions at its ledger index, newest first. */
  lemma WindowIsNewest200(ledger: seq<Tx>, asOf: nat)
    requires asOf <= |ledger|
    ensures |Window(ledger, asOf)| == if asOf <= 200 then asOf else 200
    ensures forall i :: 0 <= i < |Window(ledger, asOf)| ==> Window(ledger, asOf)[i] == ledger[asOf - 1 - i]
  {
  }

  /** The newest of the last 200 transactions that speaks for the member approves. */
  ghost predicate NewestApproves(ledger: seq<Tx>, asOf: nat, members: map<Text, SignerId>, requestHash: Text,
                                 s: SignerId)
    requires asOf <= |ledger|
  {
    exists k :: 0 <= k < asOf && asOf - 200 <= k && Speaks(ledger[k], members, requestHash, s)
                && FirstVerdict(ledger[k].memos, requestHash) == Some(Approve)
                && forall j :: k < j < asOf ==> !Speaks(ledger[j], members, requestHash, s)
  }

  lemma CountedApproves(ledger: seq<Tx>, asOf: nat, members: map<Text, SignerId>, requestHash: Text, s: SignerId)
    requires asOf <= |ledger| && s in Approvers(Window(ledger, asOf), members, requestHash)
    ensures NewestApproves(ledger, asOf, members, requestHash, s)
  {
    hide Newest, FirstVerdict, Speaks, Window;
    WindowIsNewest200(ledger, asOf);
    var txs := Window(ledger, asOf);
    var r := Newest(txs, members, requestHash, s).value;
    NewestDecides(txs, members, requestHash, s, r);
    var i :| 0 <= i < |txs| && Speaks(txs[i], members, requestHash, s)
             && FirstVerdict(txs[i].memos, requestHash) == Some(r.verdict)
             && forall j :: 0 <= j < i ==> !Speaks(txs[j], members, requestHash, s);
    assert txs[i] == ledger[asOf - 1 - i];
    forall j | asOf - 1 - i < j < asOf
      ensures !Speaks(ledger[j], members, requestHash, s)
    {
      assert txs[asOf - 1 - j] == ledger[j];
    }
  }

  lemma ApprovesCounted(ledger: seq<Tx>, asOf: nat, members: map<Text, SignerId>, requestHash: Text, s: SignerId,
                        k: nat)
    requires asOf <= |ledger| && k < asOf <= k + 200 && Speaks(ledger[k], members, requestHash, s)
    requires FirstVerdict(ledger[k].memos, requestHash) == Some(Approve)
    requires forall j :: k < j < asOf ==> !Speaks(ledger[j], members, requestHash, s)
    ensures s in Approvers(Window(ledger, asOf), members, requestHash)
  {
    hide Newest, FirstVerdict, Speaks, Window;
    WindowIsNewest200(ledger, asOf);
    var txs, i := Window(ledger, asOf), asOf - 1 - k;
    assert txs[i] == ledger[k];
    NewestDecides(txs, members, requestHash, s, ApprovalRecord(Approve, txs[i].hash, txs[i].account));
  }

  /** A member is counted as approving exactly when the newest of those 200 that
      speaks for it begins with an approval of the request. */
  lemma CountedIff(ledger: seq<Tx>, asOf: nat, members: map<Text, SignerId>, requestHash: Text, s: SignerId)
    requires asOf <= |ledger|
    ensures s in Approvers(Window(ledger, asOf), members, requestHash) <==>
            exists k :: 0 <= k < asOf && asOf - 200 <= k && Speaks(ledger[k], members, requestHash, s)
                        && FirstVerdict(ledger[k].memos, requestHash) == Some(Approve)
                        && forall j :: k < j < asOf ==> !Speaks(ledger[j], members, requestHash, s)
  {
    hide Approvers, FirstVerdict, Speaks, Window;
    if s in Approvers(Window(ledger, asOf), members, requestHash) {
      CountedApproves(ledger, asOf, members, requestHash, s);
    }
    if k: nat :| k < asOf && asOf - 200 <= k && Speaks(ledger[k], members, requestHash, s)
                 && FirstVerdict(ledger[k].memos, requestHash) == Some(Approve)
                 && forall j :: k < j < asOf ==> !Speaks(ledger[j], members, requestHash, s) {
      ApprovesCounted(ledger, asOf, members, requestHash, s, k);
    }
  }
}
