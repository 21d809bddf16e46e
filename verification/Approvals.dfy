/** Reading members' verdicts from the ledger
    (server/src/common/chain.ts:146-160, 238-264, server/src/signer/index.ts:226-234). */
module Approvals {
  import opened Canonical
  import opened Lists
  import opened Types
  import opened Wrappers

  datatype Verdict = Approve | Reject | Unknown

  /** A parsed memo: an approval without a verdict has been read as a REJECT, and
      one whose data is the JSON value null has no fields to look at. */
  datatype Memo = ApprovalMemo(requestHash: Text, verdict: Verdict) | NullApproval | OtherMemo

  datatype Tx = Tx(account: Text, memos: seq<Memo>, hash: Text)

  datatype ApprovalRecord = ApprovalRecord(verdict: Verdict, txHash: Text, fromAddress: Text)

  /** How many transactions one scan asks for. */
  const SCAN_LIMIT := 200

  function FirstVerdict(memos: seq<Memo>, requestHash: Text): Option<Verdict> {
    if memos == [] then None
    else if memos[0].ApprovalMemo? && memos[0].requestHash == requestHash then Some(memos[0].verdict)
    else FirstVerdict(memos[1..], requestHash)
  }

  /** What one transaction says about a request on behalf of member s. */
  function Statement(tx: Tx, members: map<Text, SignerId>, requestHash: Text, s: SignerId): Option<ApprovalRecord> {
    if tx.account !in members || members[tx.account] != s then None
    else
      match FirstVerdict(tx.memos, requestHash)
      case None => None
      case Some(v) => Some(ApprovalRecord(v, tx.hash, tx.account))
  }

  /** Member s's newest statement in a newest-first list. */
  function Newest(txs: seq<Tx>, members: map<Text, SignerId>, requestHash: Text, s: SignerId): Option<ApprovalRecord> {
    if txs == [] then None
    else if Statement(txs[0], members, requestHash, s).Some? then Statement(txs[0], members, requestHash, s)
    else Newest(txs[1..], members, requestHash, s)
  }

  lemma {:induction false} NewestAppend(txs: seq<Tx>, more: seq<Tx>, members: map<Text, SignerId>, requestHash: Text,
                                        s: SignerId)
    ensures Newest(txs + more, members, requestHash, s) ==
            if Newest(txs, members, requestHash, s).Some? then Newest(txs, members, requestHash, s)
            else Newest(more, members, requestHash, s)
  {
    if txs == [] {
      assert txs + more == more;
    } else {
      assert (txs + more)[1..] == txs[1..] + more;
      NewestAppend(txs[1..], more, members, requestHash, s);
    }
  }

  /** Looking at a member's null approval throws, and the whole read with it. */
  predicate ReadThrows(txs: seq<Tx>, members: map<Text, SignerId>) {
    exists i :: 0 <= i < |txs| && txs[i].account in members && NullApproval in txs[i].memos
  }

  lemma ThrowsAppend(txs: seq<Tx>, more: seq<Tx>, members: map<Text, SignerId>)
    ensures ReadThrows(txs + more, members) <==> ReadThrows(txs, members) || ReadThrows(more, members)
  {
    if i :| 0 <= i < |more| && more[i].account in members && NullApproval in more[i].memos {
      assert (txs + more)[|txs| + i] == more[i];
    }
    if i :| 0 <= i < |txs| && txs[i].account in members && NullApproval in txs[i].memos {
      assert (txs + more)[i] == txs[i];
    }
  }

  /** The map-filling scan over a newest-first window; None is a scan that threw. */
  method ReadApprovals(window: seq<Tx>, members: map<Text, SignerId>, requestHash: Text)
    returns (r: Option<map<SignerId, ApprovalRecord>>)
    ensures r.None? <==> ReadThrows(window, members)
    ensures r.Some? ==> forall s :: s in r.value <==> Newest(window, members, requestHash, s).Some?
    ensures r.Some? ==> forall s :: s in r.value ==> Newest(window, members, requestHash, s) == Some(r.value[s])
  {
    var out := map[];
    for i := 0 to |window|
      invariant !ReadThrows(window[..i], members)
      invariant forall s :: s in out <==> Newest(window[..i], members, requestHash, s).Some?
      invariant forall s :: s in out ==> Newest(window[..i], members, requestHash, s) == Some(out[s])
    {
      var tx := window[i];
      NextTx(window, i, members, requestHash);
      if tx.account !in members {
        continue;
      }
      var signerId := members[tx.account];
      var scanned := ScanMemos(tx, signerId, requestHash, out);
      if scanned.None? {
        ThrowsAppend(window[..i + 1], window[i + 1..], members);
        assert window == window[..i + 1] + window[i + 1..];
        return None;
      }
      out := scanned.value;
    }
    assert window[..|window|] == window;
    return Some(out);
  }

  /** What the next transaction of a window adds. */
  lemma NextTx(window: seq<Tx>, i: nat, members: map<Text, SignerId>, requestHash: Text)
    requires i < |window|
    ensures ReadThrows(window[..i + 1], members) <==>
            ReadThrows(window[..i], members) || (window[i].account in members && NullApproval in window[i].memos)
    ensures forall s :: Newest(window[..i + 1], members, requestHash, s) ==
                        if Newest(window[..i], members, requestHash, s).Some? then
                          Newest(window[..i], members, requestHash, s)
                        else Statement(window[i], members, requestHash, s)
  {
    assert window[..i + 1] == window[..i] + [window[i]];
    ThrowsAppend(window[..i], [window[i]], members);
    assert [window[i]][0] == window[i];
    forall s
      ensures Newest(window[..i + 1], members, requestHash, s) ==
              if Newest(window[..i], members, requestHash, s).Some? then Newest(window[..i], members, requestHash, s)
              else Statement(window[i], members, requestHash, s)
    {
      NewestAppend(window[..i], [window[i]], members, requestHash, s);
    }
  }

  /** Every memo is looked at, also after the member's approval was found. */
  method ScanMemos(tx: Tx, signerId: SignerId, requestHash: Text, before: map<SignerId, ApprovalRecord>)
    returns (r: Option<map<SignerId, ApprovalRecord>>)
    ensures r == if NullApproval in tx.memos then None
                 else if signerId in before || FirstVerdict(tx.memos, requestHash).None? then Some(before)
                 else Some(before[signerId := ApprovalRecord(FirstVerdict(tx.memos, requestHash).value, tx.hash,
                                                             tx.account)])
  {
    var out := before;
    var k := 0;
    while k < |tx.memos|
      invariant k <= |tx.memos| && NullApproval !in tx.memos[..k]
      invariant signerId in before ==> out == before
      invariant signerId !in before && signerId !in out ==>
                  out == before && FirstVerdict(tx.memos, requestHash) == FirstVerdict(tx.memos[k..], requestHash)
      invariant signerId !in before && signerId in out ==>
                  && FirstVerdict(tx.memos, requestHash).Some?
                  && out == before[signerId := ApprovalRecord(FirstVerdict(tx.memos, requestHash).value, tx.hash,
                                                              tx.account)]
    {
      var m := tx.memos[k];
      if m.NullApproval? {
        return None;
      }
      if m.ApprovalMemo? && m.requestHash == requestHash && signerId !in out {
        out := out[signerId := ApprovalRecord(m.verdict, tx.hash, tx.account)];
      }
      k := k + 1;
    }
    return Some(out);
  }

  /** The members whose newest statement is an approval. */
  function Approvers(txs: seq<Tx>, members: map<Text, SignerId>, requestHash: Text): set<SignerId> {
    set s: SignerId | s in ALL_SIGNERS && Newest(txs, members, requestHash, s).Some?
                      && Newest(txs, members, requestHash, s).value.verdict == Approve
  }

  /** Counting the approvals a scan returned is counting the approvers. */
  lemma ApproversRead(out: map<SignerId, ApprovalRecord>, txs: seq<Tx>, members: map<Text, SignerId>, requestHash: Text)
    requires forall s :: s in out <==> Newest(txs, members, requestHash, s).Some?
    requires forall s :: s in out ==> Newest(txs, members, requestHash, s) == Some(out[s])
    ensures (set s | s in out && out[s].verdict == Approve) == Approvers(txs, members, requestHash)
  {
    forall s
      ensures s in out && out[s].verdict == Approve <==> s in Approvers(txs, members, requestHash)
    {
      assert s == Utility || s == CityA || s == CityB;
    }
  }

  /** The bounded scan says the same about every member it mentions as the full
      scan does, so a quorum in the window is a quorum of the whole ledger. */
  lemma WindowAgrees(txs: seq<Tx>, k: nat, members: map<Text, SignerId>, requestHash: Text)
    requires k <= |txs|
    ensures forall s :: Newest(txs[..k], members, requestHash, s).Some? ==>
                          Newest(txs[..k], members, requestHash, s) == Newest(txs, members, requestHash, s)
    ensures Approvers(txs[..k], members, requestHash) <= Approvers(txs, members, requestHash)
    ensures |Approvers(txs[..k], members, requestHash)| <= |Approvers(txs, members, requestHash)|
  {
    assert txs == txs[..k] + txs[k..];
    forall s | Newest(txs[..k], members, requestHash, s).Some?
      ensures Newest(txs[..k], members, requestHash, s) == Newest(txs, members, requestHash, s)
    {
      NewestAppend(txs[..k], txs[k..], members, requestHash, s);
    }
    SubsetSize(Approvers(txs[..k], members, requestHash), Approvers(txs, members, requestHash));
  }

  lemma SubsetSize<T>(a: set<T>, b: set<T>)
    requires a <= b
    ensures |a| <= |b|
  {
    assert b == a + (b - a);
  }

  /** Every approver has an approving transaction from an account of its own. */
  lemma {:induction false} ApproverHasTx(txs: seq<Tx>, members: map<Text, SignerId>, requestHash: Text, s: SignerId)
    requires Newest(txs, members, requestHash, s).Some?
    ensures exists i :: 0 <= i < |txs|
                        && Statement(txs[i], members, requestHash, s) == Newest(txs, members, requestHash, s)
  {
    if Statement(txs[0], members, requestHash, s).None? {
      ApproverHasTx(txs[1..], members, requestHash, s);
      var i :| 0 <= i < |txs| - 1 &&
        Statement(txs[1..][i], members, requestHash, s) == Newest(txs[1..], members, requestHash, s);
      assert txs[i + 1] == txs[1..][i];
    }
  }

  // ---- the ledger as it grows --------------------------------------------------

  function Reverse(txs: seq<Tx>): (r: seq<Tx>)
    ensures |r| == |txs| && forall i :: 0 <= i < |txs| ==> r[i] == txs[|txs| - 1 - i]
  {
    seq(|txs|, i requires 0 <= i < |txs| => txs[|txs| - 1 - i])
  }

  /** What a scan returns when the ledger (oldest first) was `asOf` long. */
  function Window(ledger: seq<Tx>, asOf: nat): seq<Tx>
    requires asOf <= |ledger|
  {
    var newestFirst := Reverse(ledger[..asOf]);
    if asOf <= SCAN_LIMIT then newestFirst else newestFirst[..SCAN_LIMIT]
  }

  /** Approvers seen in any window have approving transactions on the ledger. */
  lemma WindowApproverOnLedger(ledger: seq<Tx>, asOf: nat, members: map<Text, SignerId>, requestHash: Text, s: SignerId)
    requires asOf <= |ledger| && s in Approvers(Window(ledger, asOf), members, requestHash)
    ensures exists i :: 0 <= i < |ledger| && ledger[i].account in members && members[ledger[i].account] == s
                        && FirstVerdict(ledger[i].memos, requestHash) == Some(Approve)
  {
    var window := Window(ledger, asOf);
    ApproverHasTx(window, members, requestHash, s);
    var k :| 0 <= k < |window| &&
      Statement(window[k], members, requestHash, s) == Newest(window, members, requestHash, s);
    assert window[k] == ledger[asOf - 1 - k];
  }

  // ---- a quorum on the ledger -------------------------------------------------------

  ghost predicate Approves(members: map<Text, SignerId>, ledger: seq<Tx>, requestHash: Text, s: SignerId) {
    exists i :: 0 <= i < |ledger| && ledger[i].account in members && members[ledger[i].account] == s
                && FirstVerdict(ledger[i].memos, requestHash) == Some(Approve)
  }

  /** The members with an approval of a request hash on the ledger. */
  ghost function Approving(members: map<Text, SignerId>, ledger: seq<Tx>, requestHash: Text): set<SignerId> {
    set s | s in ALL_SIGNERS && Approves(members, ledger, requestHash, s)
  }

  lemma ApprovingGrows(members: map<Text, SignerId>, ledger: seq<Tx>, more: seq<Tx>, requestHash: Text)
    ensures Approving(members, ledger, requestHash) <= Approving(members, ledger + more, requestHash)
    ensures |Approving(members, ledger, requestHash)| <= |Approving(members, ledger + more, requestHash)|
  {
    forall s | Approves(members, ledger, requestHash, s)
      ensures Approves(members, ledger + more, requestHash, s)
    {
      var i :| 0 <= i < |ledger| && ledger[i].account in members && members[ledger[i].account] == s
               && FirstVerdict(ledger[i].memos, requestHash) == Some(Approve);
      assert (ledger + more)[i] == ledger[i];
    }
    SubsetSize(Approving(members, ledger, requestHash), Approving(members, ledger + more, requestHash));
  }

  /** How many approvals a scan counts when the ledger was `asOf` long. */
  function CountedAt(ledger: seq<Tx>, asOf: nat, members: map<Text, SignerId>, requestHash: Text): nat
    requires asOf <= |ledger|
  {
    |Approvers(Window(ledger, asOf), members, requestHash)|
  }

  /** A quorum counted in any window, stale or not, is on the ledger. */
  lemma CountedOnLedger(ledger: seq<Tx>, asOf: nat, members: map<Text, SignerId>, requestHash: Text)
    requires asOf <= |ledger|
    ensures CountedAt(ledger, asOf, members, requestHash) <= |Approving(members, ledger, requestHash)|
  {
    hide FirstVerdict, Newest, Window;
    forall s | s in Approvers(Window(ledger, asOf), members, requestHash)
      ensures s in Approving(members, ledger, requestHash)
    {
      WindowApproverOnLedger(ledger, asOf, members, requestHash, s);
    }
    SubsetSize(Approvers(Window(ledger, asOf), members, requestHash), Approving(members, ledger, requestHash));
  }

  lemma CountStays(ledger: seq<Tx>, more: seq<Tx>, asOf: nat, members: map<Text, SignerId>, requestHash: Text)
    requires asOf <= |ledger|
    ensures CountedAt(ledger + more, asOf, members, requestHash) == CountedAt(ledger, asOf, members, requestHash)
    ensures Window(ledger + more, asOf) == Window(ledger, asOf)
  {
    assert (ledger + more)[..asOf] == ledger[..asOf];
  }

  // ---- approvals posted last are counted ----------------------------------------------

  lemma {:induction false} NewestAt(txs: seq<Tx>, members: map<Text, SignerId>, requestHash: Text, s: SignerId, j: nat)
    requires j < |txs| && Statement(txs[j], members, requestHash, s).Some?
    requires forall k :: 0 <= k < j ==> Statement(txs[k], members, requestHash, s).None?
    ensures Newest(txs, members, requestHash, s) == Statement(txs[j], members, requestHash, s)
  {
    if j > 0 {
      assert txs[1..][j - 1] == txs[j];
      NewestAt(txs[1..], members, requestHash, s, j - 1);
    }
  }

  function ApprovalTxs(accounts: seq<Text>, requestHash: Text): (txs: seq<Tx>)
    ensures |txs| == |accounts|
    ensures forall i :: 0 <= i < |txs| ==> txs[i] == Tx(accounts[i], [ApprovalMemo(requestHash, Approve)], [])
  {
    seq(|accounts|, i requires 0 <= i < |accounts| => Tx(accounts[i], [ApprovalMemo(requestHash, Approve)], []))
  }

  /** Accounts of different members. */
  predicate Accounts(accounts: seq<Text>, members: map<Text, SignerId>) {
    && (forall i :: 0 <= i < |accounts| ==> accounts[i] in members)
    && forall i, j :: 0 <= i < j < |accounts| ==> members[accounts[i]] != members[accounts[j]]
  }

  /** The newest n transactions, newest first, or all of them. */
  function Recent(ledger: seq<Tx>, n: nat): seq<Tx> {
    if |ledger| <= n then Reverse(ledger) else Reverse(ledger)[..n]
  }

  /** A window after a few more transactions. */
  lemma WindowAfter(ledger: seq<Tx>, more: seq<Tx>)
    requires |more| <= SCAN_LIMIT
    ensures var txs := ledger + more;
            Window(txs, |txs|) == Reverse(more) + Recent(ledger, SCAN_LIMIT - |more|)
  {
    var txs := ledger + more;
    assert txs[..|txs|] == txs;
    assert Reverse(txs) == Reverse(more) + Reverse(ledger);
  }

  lemma PostedApproverCounts(ledger: seq<Tx>, accounts: seq<Text>, members: map<Text, SignerId>, requestHash: Text,
                             i: nat)
    requires Accounts(accounts, members) && |accounts| <= SCAN_LIMIT && i < |accounts|
    ensures var txs := ledger + ApprovalTxs(accounts, requestHash);
            members[accounts[i]] in Approvers(Window(txs, |txs|), members, requestHash)
  {
    hide Window;
    var more := ApprovalTxs(accounts, requestHash);
    var window := Window(ledger + more, |ledger + more|);
    WindowAfter(ledger, more);
    NewestAt(window, members, requestHash, members[accounts[i]], |accounts| - 1 - i);
  }

  lemma ApprovalsDoNotThrow(accounts: seq<Text>, members: map<Text, SignerId>, requestHash: Text)
    ensures !ReadThrows(Reverse(ApprovalTxs(accounts, requestHash)), members)
  {
  }

  /** Approvals of different members posted last are all counted, whatever the
      ledger said of those members before; the scan that counts them answers if and
      only if no member's transaction among the others in its window carries a null
      approval. */
  lemma PostedApprovalsCount(ledger: seq<Tx>, accounts: seq<Text>, members: map<Text, SignerId>, requestHash: Text)
    requires Accounts(accounts, members) && |accounts| <= SCAN_LIMIT
    ensures var txs := ledger + ApprovalTxs(accounts, requestHash);
            && CountedAt(txs, |txs|, members, requestHash) >= |accounts|
            && (ReadThrows(Window(txs, |txs|), members) <==>
                ReadThrows(Recent(ledger, SCAN_LIMIT - |accounts|), members))
  {
    hide Window, Newest, ReadThrows, Recent;
    var txs := ledger + ApprovalTxs(accounts, requestHash);
    WindowAfter(ledger, ApprovalTxs(accounts, requestHash));
    ThrowsAppend(Reverse(ApprovalTxs(accounts, requestHash)), Recent(ledger, SCAN_LIMIT - |accounts|), members);
    ApprovalsDoNotThrow(accounts, members, requestHash);
    var posting := seq(|accounts|, i requires 0 <= i < |accounts| => members[accounts[i]]);
    DistinctSize(posting);
    forall s | s in posting
      ensures s in Approvers(Window(txs, |txs|), members, requestHash)
    {
      var i :| 0 <= i < |posting| && posting[i] == s;
      PostedApproverCounts(ledger, accounts, members, requestHash, i);
    }
    SubsetSize((set s | s in posting), Approvers(Window(txs, |txs|), members, requestHash));
  }

  /** One null approval among the newest transactions of a member stops every read
      until as many others have been posted as a scan asks for. */
  lemma OneNullStopsReads(ledger: seq<Tx>, tx: Tx, more: seq<Tx>, members: map<Text, SignerId>)
    requires tx.account in members && NullApproval in tx.memos && |more| < SCAN_LIMIT
    ensures var txs := ledger + [tx] + more; ReadThrows(Window(txs, |txs|), members)
  {
    var txs := ledger + [tx] + more;
    WindowAfter(ledger + [tx], more);
    assert Window(txs, |txs|)[|more|] == tx;
  }

  /** Up to four reads, stopping at the first quorum; a read that throws ends it. */
  method OnChainApproveCount(counts: seq<Option<nat>>, quorum: nat) returns (n: Option<nat>)
    requires |counts| == 4
    ensures n.Some? ==> n in counts
    ensures n.Some? && n.value >= quorum <==>
            exists i :: 0 <= i < 4 && counts[i].Some? && counts[i].value >= quorum
                        && forall j :: 0 <= j < i ==> counts[j].Some?
    ensures n.None? <==>
            exists i :: 0 <= i < 4 && counts[i].None?
                        && forall j :: 0 <= j < i ==> counts[j].Some? && counts[j].value < quorum
  {
    n := Some(0);
    for attempt := 0 to 4
      invariant forall i :: 0 <= i < attempt ==> counts[i].Some? && counts[i].value < quorum
      invariant attempt < 4
    {
      n := counts[attempt];
      if n.None? {
        return n;
      }
      if n.value >= quorum || attempt == 3 {
        return n;
      }
    }
  }
}
