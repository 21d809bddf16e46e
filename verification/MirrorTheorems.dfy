/** What the broadcasting store holds after any operations, from the operations alone
    (server/src/coordinator/store.ts:162-283, 306-363). */
module MirrorTheorems {
  import opened Canonical
  import opened Mirror
  import opened Pipeline
  import opened Types
  import opened Wrappers

  // ---- the bank's confirmation rate -----------------------------------------------------

  function Attempts(ops: seq<Op>): seq<bool> {
    if ops == [] then []
    else (if ops[0].RecordDebitAttempt? then [ops[0].confirmed] else []) + Attempts(ops[1..])
  }

  function LastOf<T>(xs: seq<T>, n: nat): seq<T> {
    if |xs| <= n then xs else xs[|xs| - n..]
  }

  lemma OutcomesStep(threshold: nat, s: Server, op: Op)
    ensures var s' := Do(threshold, s, op).0;
            s'.debitOutcomes == if !op.RecordDebitAttempt? then s.debitOutcomes
                                else if |s.debitOutcomes| < 20 then s.debitOutcomes + [op.confirmed]
                                else (s.debitOutcomes + [op.confirmed])[1..]
  {
    hide BankStatusOf, ConsortiumOf, Retain;
  }

  lemma LastStep(earlier: seq<bool>, b: bool)
    ensures var last := LastOf(earlier, 20);
            LastOf(earlier + [b], 20) == if |last| < 20 then last + [b] else (last + [b])[1..]
  {
  }

  /** The outcome window is the last 20 debit attempts, in order. */
  lemma {:induction false} OutcomesAreLast20(threshold: nat, s: Server, earlier: seq<bool>, ops: seq<Op>)
    requires s.debitOutcomes == LastOf(earlier, 20)
    ensures DoAll(threshold, s, ops).0.debitOutcomes == LastOf(earlier + Attempts(ops), 20)
    decreases |ops|
  {
    hide Do, LastOf;
    if ops == [] {
      assert earlier + Attempts(ops) == earlier;
    } else {
      var s' := Do(threshold, s, ops[0]).0;
      OutcomesStep(threshold, s, ops[0]);
      if ops[0].RecordDebitAttempt? {
        LastStep(earlier, ops[0].confirmed);
        OutcomesAreLast20(threshold, s', earlier + [ops[0].confirmed], ops[1..]);
        assert earlier + [ops[0].confirmed] + Attempts(ops[1..]) == earlier + Attempts(ops);
      } else {
        OutcomesAreLast20(threshold, s', earlier, ops[1..]);
        assert Attempts(ops) == Attempts(ops[1..]);
      }
    }
  }

  lemma {:induction false} ConfirmationsCount(outcomes: seq<bool>)
    ensures Confirmations(outcomes) == multiset(outcomes)[true]
    ensures Confirmations(outcomes) <= |outcomes|
  {
    if outcomes != [] {
      ConfirmationsCount(outcomes[1..]);
      assert outcomes == [outcomes[0]] + outcomes[1..];
    }
  }

  /** The rate is 100 without attempts, and otherwise the percentage of confirmed ones
      in the window, rounded to the nearest integer, halves up. */
  lemma RateIsRounded(s: Server)
    ensures var confirmed, all, rate := multiset(s.debitOutcomes)[true], |s.debitOutcomes|,
                                        BankStatusOf(s).confirmRatePct;
            && (all == 0 ==> rate == 100)
            && (all > 0 ==> 2 * all * rate <= 200 * confirmed + all < 2 * all * (rate + 1))
  {
    ConfirmationsCount(s.debitOutcomes);
    var all := |s.debitOutcomes|;
    if all > 0 {
      DivBounds(200 * Confirmations(s.debitOutcomes) + all, 2 * all);
    }
  }

  lemma DivBounds(a: nat, b: nat)
    requires b > 0
    ensures b * (a / b) <= a < b * (a / b + 1)
  {
  }

  // ---- the consortium's quorum ----------------------------------------------------------

  /** The member's first row says it is active. */
  predicate Active(members: seq<MemberRow>, id: SignerId) {
    exists i :: 0 <= i < |members| && members[i].signerId == id && members[i].active
                && forall j :: 0 <= j < i ==> members[j].signerId != id
  }

  lemma {:induction false} IsActiveIff(members: seq<MemberRow>, id: SignerId)
    ensures IsActive(members, id) <==> Active(members, id)
  {
    if members != [] {
      IsActiveIff(members[1..], id);
      if members[0].signerId != id {
        if i :| 0 <= i < |members| && members[i].signerId == id && members[i].active
                && forall j :: 0 <= j < i ==> members[j].signerId != id {
          assert members[1..][i - 1] == members[i];
          assert forall j :: 0 <= j < i - 1 ==> members[1..][j] == members[j + 1];
        }
        if i :| 0 <= i < |members| - 1 && members[1..][i].signerId == id && members[1..][i].active
                && forall j :: 0 <= j < i ==> members[1..][j].signerId != id {
          assert members[i + 1] == members[1..][i];
          assert forall j :: 0 < j < i + 1 ==> members[j] == members[1..][j - 1];
        }
      }
    }
  }

  ghost function AvailableAt(rows: seq<SignerRow>): set<nat> {
    set i: nat | i < |rows| && rows[i].health.online && !rows[i].revoked
  }

  lemma {:induction false} AvailableSnoc(rows: seq<SignerRow>, row: SignerRow)
    ensures Available(rows + [row]) == Available(rows) + if row.health.online && !row.revoked then 1 else 0
  {
    if rows == [] {
      assert [row][1..] == [] && [] + [row] == [row];
    } else {
      assert (rows + [row])[1..] == rows[1..] + [row];
      AvailableSnoc(rows[1..], row);
    }
  }

  lemma {:induction false} AvailableCounts(rows: seq<SignerRow>)
    ensures Available(rows) == |AvailableAt(rows)|
  {
    hide Available;
    if rows == [] {
      NoneAvailable();
    } else {
      var front, n := rows[..|rows| - 1], |rows| - 1;
      assert rows == front + [rows[n]];
      AvailableCounts(front);
      AvailableSnoc(front, rows[n]);
      assert AvailableAt(rows) == AvailableAt(front) + if rows[n].health.online && !rows[n].revoked then {n} else {};
    }
  }

  lemma NoneAvailable()
    ensures Available([]) == 0 && AvailableAt([]) == {}
  {
  }

  /** A quorum is reachable exactly when at least `threshold` of the members polled are
      online and active in the consortium. */
  lemma QuorumIff(threshold: nat, s: Server)
    ensures ConsortiumOf(threshold, s).quorumReachable <==>
            |set i: nat | i < |s.healths| && s.healths[i].online && Active(s.members, s.healths[i].signerId)| >=
            threshold
  {
    var rows := Overlay(s.healths, s.members);
    AvailableCounts(rows);
    forall id
      ensures IsActive(s.members, id) <==> Active(s.members, id)
    {
      IsActiveIff(s.members, id);
    }
    assert AvailableAt(rows) ==
           set i: nat | i < |s.healths| && s.healths[i].online && Active(s.members, s.healths[i].signerId);
  }

  // ---- alerts and balances ---------------------------------------------------------------

  /** The alerts raised, newest first. */
  function Raised(ops: seq<Op>): seq<Alert> {
    if ops == [] then [] else Raised(ops[1..]) + if ops[0].AddAlert? then [ops[0].alert] else []
  }

  lemma AlertsStep(threshold: nat, s: Server, op: Op)
    ensures var s', all := Do(threshold, s, op).0, if op.AddAlert? then [op.alert] + s.alerts else s.alerts;
            s'.alerts == if op.AddAlert? && |all| > 100 then all[..100] else all
  {
    hide BankStatusOf, ConsortiumOf, Retain;
  }

  /** The store keeps the newest 100 alerts. */
  lemma {:induction false} AlertsAreNewest100(threshold: nat, s: Server, earlier: seq<Alert>, ops: seq<Op>)
    requires s.alerts == if |earlier| > 100 then earlier[..100] else earlier
    ensures var all := Raised(ops) + earlier;
            DoAll(threshold, s, ops).0.alerts == if |all| > 100 then all[..100] else all
    decreases |ops|
  {
    hide Do;
    if ops == [] {
      assert Raised(ops) + earlier == earlier;
    } else {
      AlertsStep(threshold, s, ops[0]);
      var now := (if ops[0].AddAlert? then [ops[0].alert] else []) + earlier;
      var s' := Do(threshold, s, ops[0]).0;
      assert s'.alerts == if |now| > 100 then now[..100] else now;
      AlertsAreNewest100(threshold, s', now, ops[1..]);
      assert Raised(ops[1..]) + now == Raised(ops) + earlier;
    }
  }

  /** What was credited to one meter. */
  function Credits(ops: seq<Op>, meterId: Text): int {
    if ops == [] then 0
    else (if ops[0].CreditMeter? && ops[0].meterId == meterId then ops[0].amountKwh else 0) + Credits(ops[1..], meterId)
  }

  /** How often one meter was credited. */
  function CreditCount(ops: seq<Op>, meterId: Text): nat {
    if ops == [] then 0
    else (if ops[0].CreditMeter? && ops[0].meterId == meterId then 1 else 0) + CreditCount(ops[1..], meterId)
  }

  datatype Account = Account(balanceKwh: int, dispenses: int)

  function AccountOf(meters: seq<MeterRow>, meterId: Text): Account {
    match FindMeter(meters, meterId)
    case None => Account(0, 0)
    case Some(i) => Account(meters[i].balanceKwh, meters[i].dispenses)
  }

  function Holding(meter: MeterRow): Account {
    Account(meter.balanceKwh, meter.dispenses)
  }

  lemma {:induction false} FindFirst(meters: seq<MeterRow>, id: Text, i: nat)
    requires i < |meters| && meters[i].meterId == id && forall j :: 0 <= j < i ==> meters[j].meterId != id
    ensures FindMeter(meters, id) == Some(i)
  {
    if i > 0 {
      FindFirst(meters[1..], id, i - 1);
    }
  }

  lemma {:induction false} FoundIsFirst(meters: seq<MeterRow>, id: Text)
    ensures FindMeter(meters, id).Some? ==>
              forall j :: 0 <= j < FindMeter(meters, id).value ==> meters[j].meterId != id
  {
    if meters != [] && meters[0].meterId != id {
      FoundIsFirst(meters[1..], id);
      assert forall j :: 0 < j < |meters| ==> meters[j] == meters[1..][j - 1];
    }
  }

  lemma BalanceStep(threshold: nat, s: Server, op: Op, id: Text)
    ensures var before := AccountOf(s.meters, id);
            AccountOf(Do(threshold, s, op).0.meters, id) ==
            if op.CreditMeter? && op.meterId == id
            then Account(before.balanceKwh + op.amountKwh, before.dispenses + 1) else before
  {
    hide BankStatusOf, ConsortiumOf, Retain, FindMeter;
    if op.CreditMeter? {
      var meter, found := Credited(s.meters, op.meterId, op.amountKwh, op.now), FindMeter(s.meters, op.meterId);
      FoundIsFirst(s.meters, id);
      FoundIsFirst(s.meters, op.meterId);
      if found.None? {
        Appended(s.meters, meter, id);
      } else {
        Replaced(s.meters, meter, found.value, id);
      }
    }
  }

  lemma Appended(meters: seq<MeterRow>, meter: MeterRow, id: Text)
    requires FindMeter(meters, meter.meterId).None?
    ensures AccountOf(meters + [meter], id) == if id == meter.meterId then Holding(meter) else AccountOf(meters, id)
  {
    hide FindMeter;
    FoundIsFirst(meters, id);
    if id == meter.meterId {
      FindFirst(meters + [meter], id, |meters|);
    } else if FindMeter(meters, id).Some? {
      FindFirst(meters + [meter], id, FindMeter(meters, id).value);
    } else {
      NotFound(meters + [meter], id);
    }
  }

  lemma Replaced(meters: seq<MeterRow>, meter: MeterRow, i: nat, id: Text)
    requires FindMeter(meters, meter.meterId) == Some(i)
    ensures AccountOf(meters[i := meter], id) == if id == meter.meterId then Holding(meter) else AccountOf(meters, id)
  {
    hide FindMeter;
    FoundIsFirst(meters, id);
    FoundIsFirst(meters, meter.meterId);
    if id == meter.meterId {
      FindFirst(meters[i := meter], id, i);
    } else if FindMeter(meters, id).Some? {
      FindFirst(meters[i := meter], id, FindMeter(meters, id).value);
    } else {
      NotFound(meters[i := meter], id);
    }
  }

  lemma NotFound(meters: seq<MeterRow>, id: Text)
    requires forall i :: 0 <= i < |meters| ==> meters[i].meterId != id
    ensures FindMeter(meters, id).None?
  {
    hide FindMeter;
  }

  /** Every meter's balance is what it had plus what was credited to it and to no other,
      and its dispenses have grown by the number of those credits. */
  lemma {:induction false} BalancesAreCredits(threshold: nat, s: Server, ops: seq<Op>, id: Text)
    ensures var before, after := AccountOf(s.meters, id), AccountOf(DoAll(threshold, s, ops).0.meters, id);
            && after.balanceKwh == before.balanceKwh + Credits(ops, id)
            && after.dispenses == before.dispenses + CreditCount(ops, id)
    decreases |ops|
  {
    hide Do, AccountOf;
    if ops != [] {
      BalanceStep(threshold, s, ops[0], id);
      BalancesAreCredits(threshold, Do(threshold, s, ops[0]).0, ops[1..], id);
    }
  }

  // ---- governance -------------------------------------------------------------------------

  /** The flag of a merchant's first row. */
  function RevokedOf(merchants: seq<Merchant>, id: Text): Option<bool> {
    if merchants == [] then None
    else if merchants[0].merchantId == id then Some(merchants[0].revoked)
    else RevokedOf(merchants[1..], id)
  }

  function ActiveOf(members: seq<MemberRow>, id: SignerId): Option<bool> {
    if members == [] then None
    else if members[0].signerId == id then Some(members[0].active)
    else ActiveOf(members[1..], id)
  }

  lemma {:induction false} MerchantFound(merchants: seq<Merchant>, id: Text, revoked: bool, other: Text)
    ensures FindMerchant(merchants, id).Some? <==> RevokedOf(merchants, id).Some?
    ensures FindMerchant(merchants, id).Some? ==>
              var i := FindMerchant(merchants, id).value;
              RevokedOf(merchants[i := merchants[i].(revoked := revoked)], other) ==
              if other == id then Some(revoked) else RevokedOf(merchants, other)
  {
    if merchants != [] && merchants[0].merchantId != id {
      MerchantFound(merchants[1..], id, revoked, other);
      if FindMerchant(merchants, id).Some? {
        var i := FindMerchant(merchants, id).value;
        assert merchants[i := merchants[i].(revoked := revoked)][1..] ==
               merchants[1..][i - 1 := merchants[1..][i - 1].(revoked := revoked)];
      }
    }
  }

  lemma {:induction false} MemberFound(members: seq<MemberRow>, id: SignerId, active: bool, other: SignerId)
    ensures FindMember(members, id).Some? <==> ActiveOf(members, id).Some?
    ensures FindMember(members, id).Some? ==>
              var i := FindMember(members, id).value;
              ActiveOf(members[i := members[i].(active := active)], other) ==
              if other == id then Some(active) else ActiveOf(members, other)
  {
    if members != [] && members[0].signerId != id {
      MemberFound(members[1..], id, active, other);
      if FindMember(members, id).Some? {
        var i := FindMember(members, id).value;
        assert members[i := members[i].(active := active)][1..] ==
               members[1..][i - 1 := members[1..][i - 1].(active := active)];
      }
    }
  }

  lemma MerchantsStep(threshold: nat, s: Server, op: Op, id: Text)
    ensures RevokedOf(Do(threshold, s, op).0.merchants, id) ==
            if op.SetMerchantRevoked? && op.merchantId == id && RevokedOf(s.merchants, id).Some?
            then Some(op.revoked) else RevokedOf(s.merchants, id)
  {
    hide BankStatusOf, ConsortiumOf, Retain, FindMerchant, RevokedOf;
    if op.SetMerchantRevoked? {
      MerchantFound(s.merchants, op.merchantId, op.revoked, id);
    }
  }

  lemma MembersStep(threshold: nat, s: Server, op: Op, id: SignerId)
    ensures ActiveOf(Do(threshold, s, op).0.members, id) ==
            if op.SetMemberStatus? && op.signerId == id && ActiveOf(s.members, id).Some?
            then Some(op.active) else ActiveOf(s.members, id)
  {
    hide BankStatusOf, ConsortiumOf, Retain, FindMember, ActiveOf;
    if op.SetMemberStatus? {
      MemberFound(s.members, op.signerId, op.active, id);
    }
  }

  function LastRevoked(ops: seq<Op>, id: Text, before: bool): bool {
    if ops == [] then before
    else LastRevoked(ops[1..], id,
                     if ops[0].SetMerchantRevoked? && ops[0].merchantId == id then ops[0].revoked else before)
  }

  function LastActive(ops: seq<Op>, id: SignerId, before: bool): bool {
    if ops == [] then before
    else LastActive(ops[1..], id,
                    if ops[0].SetMemberStatus? && ops[0].signerId == id then ops[0].active else before)
  }

  /** A registered merchant is revoked exactly when the last decision about it, and not
      about another, revoked it; nothing registers a merchant later. */
  lemma {:induction false} RevokedAsDecided(threshold: nat, s: Server, ops: seq<Op>, id: Text)
    ensures var before, after := RevokedOf(s.merchants, id), RevokedOf(DoAll(threshold, s, ops).0.merchants, id);
            after == if before.None? then None else Some(LastRevoked(ops, id, before.value))
    decreases |ops|
  {
    hide Do, RevokedOf;
    if ops != [] {
      MerchantsStep(threshold, s, ops[0], id);
      RevokedAsDecided(threshold, Do(threshold, s, ops[0]).0, ops[1..], id);
    }
  }

  /** A member is active exactly when the last decision about it made it so. */
  lemma {:induction false} ActiveAsDecided(threshold: nat, s: Server, ops: seq<Op>, id: SignerId)
    ensures var before, after := ActiveOf(s.members, id), ActiveOf(DoAll(threshold, s, ops).0.members, id);
            after == if before.None? then None else Some(LastActive(ops, id, before.value))
    decreases |ops|
  {
    hide Do, ActiveOf;
    if ops != [] {
      MembersStep(threshold, s, ops[0], id);
      ActiveAsDecided(threshold, Do(threshold, s, ops[0]).0, ops[1..], id);
    }
  }

  /** The entry an operation logs: a decision about a party that is registered, or an
      entry of its own. */
  function EntryOf(s: Server, op: Op): seq<Text> {
    match op
    case SetMerchantRevoked(id, _, entry) => if RevokedOf(s.merchants, id).Some? then [entry] else []
    case SetMemberStatus(id, _, entry) => if ActiveOf(s.members, id).Some? then [entry] else []
    case AddGovernanceEntry(entry) => [entry]
    case _ => []
  }

  /** The entries logged, newest first. */
  function Logged(s: Server, ops: seq<Op>): seq<Text> {
    if ops == [] then [] else Logged(s, ops[1..]) + EntryOf(s, ops[0])
  }

  lemma LogStep(threshold: nat, s: Server, op: Op)
    ensures var all := EntryOf(s, op) + s.governanceLog;
            Do(threshold, s, op).0.governanceLog ==
            if EntryOf(s, op) != [] && |all| > 200 then all[..200] else all
  {
    hide BankStatusOf, ConsortiumOf, Retain, FindMember, FindMerchant, ActiveOf, RevokedOf;
    if op.SetMerchantRevoked? {
      MerchantFound(s.merchants, op.merchantId, op.revoked, op.merchantId);
    }
    if op.SetMemberStatus? {
      MemberFound(s.members, op.signerId, op.active, op.signerId);
    }
  }

  ghost predicate SameParties(s: Server, s': Server) {
    && (forall id :: RevokedOf(s.merchants, id).Some? <==> RevokedOf(s'.merchants, id).Some?)
    && (forall id :: ActiveOf(s.members, id).Some? <==> ActiveOf(s'.members, id).Some?)
  }

  lemma {:induction false} SameEntries(s: Server, s': Server, ops: seq<Op>)
    requires SameParties(s, s')
    ensures Logged(s, ops) == Logged(s', ops)
  {
    hide RevokedOf, ActiveOf;
    if ops != [] {
      SameEntries(s, s', ops[1..]);
    }
  }

  lemma PartiesStay(threshold: nat, s: Server, op: Op)
    ensures SameParties(s, Do(threshold, s, op).0)
  {
    hide RevokedOf, ActiveOf, Do;
    forall id
      ensures RevokedOf(s.merchants, id).Some? <==> RevokedOf(Do(threshold, s, op).0.merchants, id).Some?
    {
      MerchantsStep(threshold, s, op, id);
    }
    forall id
      ensures ActiveOf(s.members, id).Some? <==> ActiveOf(Do(threshold, s, op).0.members, id).Some?
    {
      MembersStep(threshold, s, op, id);
    }
  }

  /** The store keeps the newest 200 entries of the governance log. */
  lemma {:induction false} LogIsNewest200(threshold: nat, s: Server, earlier: seq<Text>, ops: seq<Op>)
    requires s.governanceLog == if |earlier| > 200 then earlier[..200] else earlier
    ensures var all := Logged(s, ops) + earlier;
            DoAll(threshold, s, ops).0.governanceLog == if |all| > 200 then all[..200] else all
    decreases |ops|
  {
    hide Do, EntryOf, SameParties;
    if ops == [] {
      assert Logged(s, ops) + earlier == earlier;
    } else {
      var s' := Do(threshold, s, ops[0]).0;
      LogStep(threshold, s, ops[0]);
      PartiesStay(threshold, s, ops[0]);
      SameEntries(s, s', ops[1..]);
      var now := EntryOf(s, ops[0]) + earlier;
      CappedTwice(EntryOf(s, ops[0]), earlier);
      LogIsNewest200(threshold, s', now, ops[1..]);
      assert Logged(s, ops[1..]) + now == Logged(s, ops) + earlier;
    }
  }

  lemma CappedTwice(more: seq<Text>, earlier: seq<Text>)
    ensures var kept, now := if |earlier| > 200 then earlier[..200] else earlier, more + earlier;
            (if more != [] && |more + kept| > 200 then (more + kept)[..200] else more + kept) ==
            if |now| > 200 then now[..200] else now
  {
  }

  // ---- the bank's last confirmation -----------------------------------------------------

  function LastConfirmed(ops: seq<Op>, before: Option<Text>): Option<Text> {
    if ops == [] then before
    else LastConfirmed(ops[1..], if ops[0].RecordDebitAttempt? && ops[0].confirmed then Some(ops[0].now) else before)
  }

  lemma ConfirmationStep(threshold: nat, s: Server, op: Op)
    ensures Do(threshold, s, op).0.lastConfirmationAt ==
            if op.RecordDebitAttempt? && op.confirmed then Some(op.now) else s.lastConfirmationAt
  {
    hide BankStatusOf, ConsortiumOf, Retain;
  }

  /** The time shown for the bank is that of the last attempt it confirmed. */
  lemma {:induction false} ConfirmedLast(threshold: nat, s: Server, ops: seq<Op>)
    ensures DoAll(threshold, s, ops).0.lastConfirmationAt == LastConfirmed(ops, s.lastConfirmationAt)
    decreases |ops|
  {
    hide Do;
    if ops != [] {
      ConfirmationStep(threshold, s, ops[0]);
      ConfirmedLast(threshold, Do(threshold, s, ops[0]).0, ops[1..]);
    }
  }

  // ---- what was reported last -----------------------------------------------------------

  datatype BankReport = BankReport(up: bool, mode: Text)

  function LastBankReport(ops: seq<Op>, before: BankReport): BankReport {
    if ops == [] then before
    else
      var op := ops[0];
      LastBankReport(ops[1..], if !op.UpdateBankHealth? then before
                               else BankReport(op.up, if op.mode.Some? then op.mode.value else before.mode))
  }

  function LastHealths(ops: seq<Op>, before: seq<Health>): seq<Health> {
    if ops == [] then before
    else LastHealths(ops[1..], if ops[0].UpdateSignerHealths? then ops[0].healths else before)
  }

  lemma ReportStep(threshold: nat, s: Server, op: Op)
    ensures var s' := Do(threshold, s, op).0;
            && s'.healths == (if op.UpdateSignerHealths? then op.healths else s.healths)
            && BankReport(s'.bankUp, s'.bankMode) ==
               if op.UpdateBankHealth? then BankReport(op.up, if op.mode.Some? then op.mode.value else s.bankMode)
               else BankReport(s.bankUp, s.bankMode)
  {
    hide BankStatusOf, ConsortiumOf, Retain;
  }

  /** The bank is shown up and in the mode last polled, and the members as last polled. */
  lemma {:induction false} ShownAsPolled(threshold: nat, s: Server, ops: seq<Op>)
    ensures var s' := DoAll(threshold, s, ops).0;
            && s'.healths == LastHealths(ops, s.healths)
            && BankReport(s'.bankUp, s'.bankMode) == LastBankReport(ops, BankReport(s.bankUp, s.bankMode))
    decreases |ops|
  {
    hide Do;
    if ops != [] {
      ReportStep(threshold, s, ops[0]);
      ShownAsPolled(threshold, Do(threshold, s, ops[0]).0, ops[1..]);
    }
  }

  /** What the operations make of one request's row. */
  function RowAfter(ops: seq<Op>, id: Text, row: Option<Row>): Option<Row> {
    if ops == [] then row
    else RowAfter(ops[1..], id, RowStep(ops[0], id, row))
  }

  function RowStep(op: Op, id: Text, row: Option<Row>): Option<Row> {
    match op
    case CreateRecord(x, fields) => if x == id then Some(Row(id, Pending, [Pending], fields)) else row
    case MoveRecord(x, status) =>
      if x == id && row.Some? then
        Some(Row(row.value.id, status, row.value.history + [status], row.value.fields))
      else row
    case SetFields(x, fields) =>
      if x == id && row.Some? then Some(Row(row.value.id, row.value.status, row.value.history, fields)) else row
    case _ => row
  }

  function LiveRow(s: Server, id: Text): Option<Row> {
    if id in s.live then Some(s.live[id]) else None
  }

  lemma RowStepIs(threshold: nat, s: Server, op: Op, id: Text)
    ensures LiveRow(Do(threshold, s, op).0, id) == RowStep(op, id, LiveRow(s, id))
  {
    hide BankStatusOf, ConsortiumOf, Retain;
  }

  /** A request's row is made by the operations on it alone: PENDING when created, then
      every move appended to its history, with the fields last set. */
  lemma {:induction false} RowIsOwn(threshold: nat, s: Server, ops: seq<Op>, id: Text)
    ensures LiveRow(DoAll(threshold, s, ops).0, id) == RowAfter(ops, id, LiveRow(s, id))
    decreases |ops|
  {
    hide Do, LiveRow, RowStep;
    if ops != [] {
      RowStepIs(threshold, s, ops[0], id);
      RowIsOwn(threshold, Do(threshold, s, ops[0]).0, ops[1..], id);
    }
  }

  // ---- the client's reconciliation ------------------------------------------------------

  function LastReport(ops: seq<Op>, before: Text): Text {
    if ops == [] then before
    else LastReport(ops[1..], if ops[0].ReportReconciliation? then ops[0].report else before)
  }

  lemma TwoEvents(client: Option<Snapshot>, a: WsEvent, b: WsEvent)
    ensures ReduceAll(client, []) == client && ReduceAll(client, [a]) == Reduce(client, a)
    ensures ReduceAll(client, [a, b]) == Reduce(Reduce(client, a), b)
  {
    hide Reduce;
    assert [a][1..] == [] && [a, b][1..] == [b] && [b][1..] == [];
    assert ReduceAll(Reduce(client, a), [b]) == ReduceAll(Reduce(Reduce(client, a), b), []);
  }

  lemma ReportedStep(threshold: nat, s: Server, op: Op, snap: Snapshot)
    ensures var after := ReduceAll(Some(snap), Do(threshold, s, op).1);
            && after.Some?
            && after.value.reconciliation == if op.ReportReconciliation? then op.report else snap.reconciliation
  {
    hide BankStatusOf, ConsortiumOf, Retain, UpsertRequest, Capped, WithoutAlert, FindMeter, Credited, ReduceAll;
    var evs := Do(threshold, s, op).1;
    assert |evs| <= 2 && forall e :: e in evs ==> !e.Hello?;
    if |evs| == 2 {
      assert evs == [evs[0], evs[1]];
      TwoEvents(Some(snap), evs[0], evs[1]);
    } else if |evs| == 1 {
      assert evs == [evs[0]];
      TwoEvents(Some(snap), evs[0], evs[0]);
    } else {
      assert evs == [];
      TwoEvents(Some(snap), BankChanged(snap.bank), BankChanged(snap.bank));
    }
  }

  lemma {:induction false} ReportedAfter(threshold: nat, s: Server, ops: seq<Op>, snap: Snapshot)
    ensures var after := ReduceAll(Some(snap), DoAll(threshold, s, ops).1);
            after.Some? && after.value.reconciliation == LastReport(ops, snap.reconciliation)
    decreases |ops|
  {
    hide Do, ReduceAll;
    if ops == [] {
      TwoEvents(Some(snap), BankChanged(snap.bank), BankChanged(snap.bank));
    } else {
      var (s1, evs) := Do(threshold, s, ops[0]);
      ReportedStep(threshold, s, ops[0], snap);
      ReduceAppend(Some(snap), evs, DoAll(threshold, s1, ops[1..]).1);
      ReportedAfter(threshold, s1, ops[1..], ReduceAll(Some(snap), evs).value);
    }
  }

  /** A client shows the divergence report of its hello or the last one broadcast since. */
  lemma ClientShowsLastReport(threshold: nat, s: Server, client: Option<Snapshot>, reconciliation: Text, ops: seq<Op>)
    requires forall id :: id in s.order ==> id in s.live
    ensures var seen := ReduceAll(client, [Hello(BuildSnapshot(threshold, s, reconciliation))]
                                          + DoAll(threshold, s, ops).1);
            seen.Some? && seen.value.reconciliation == LastReport(ops, reconciliation)
  {
    hide ReduceAll, DoAll, Rows, BankStatusOf, ConsortiumOf;
    var hello := Hello(BuildSnapshot(threshold, s, reconciliation));
    TwoEvents(client, hello, hello);
    ReduceAppend(client, [hello], DoAll(threshold, s, ops).1);
    ReportedAfter(threshold, s, ops, hello.state);
  }
}
