/** The coordinator's broadcasting store and the dashboard's reducer
    (server/src/coordinator/store.ts:122-146, 168-175, 218-245, 257-283, 306-335,
    352-363, 450-463, dashboard/src/store.ts:28-101): a client that applies
    `hello` and every later event holds what the server holds. */
module Mirror {
  import opened Canonical
  import opened Lists
  import opened Pipeline
  import opened Types
  import opened Wrappers

  const ALERT_CAP := 100

  const GOVLOG_CAP := 200

  const DEBIT_OUTCOME_WINDOW := 20

  // ---- what is shown -------------------------------------------------------------------

  /** A request record: `fields` stands for everything but status and history. */
  datatype Row = Row(id: Text, status: Status, history: seq<Status>, fields: Text)

  datatype Alert = Alert(id: Text, text: Text)

  datatype Merchant = Merchant(merchantId: Text, name: Text, revoked: bool)

  datatype MemberRow = MemberRow(signerId: SignerId, name: Text, active: bool)

  datatype MeterRow = MeterRow(meterId: Text, balanceKwh: Number, dispenses: nat, lastDispenseAt: Option<Text>)

  datatype BankStatus = BankStatus(up: bool, mode: Text, confirmRatePct: int, lastConfirmationAt: Option<Text>)

  datatype Health = Health(signerId: SignerId, online: bool, detail: Text)

  datatype SignerRow = SignerRow(health: Health, revoked: bool)

  datatype ConsortiumStatus = ConsortiumStatus(signers: seq<SignerRow>, quorumReachable: bool)

  datatype Snapshot = Snapshot(
    requests: seq<Row>, bank: BankStatus, consortium: ConsortiumStatus, reconciliation: Text, alerts: seq<Alert>,
    members: seq<MemberRow>, merchants: seq<Merchant>, governanceLog: seq<Text>, meters: seq<MeterRow>)

  datatype WsEvent =
    | Hello(state: Snapshot)
    | RequestUpdated(record: Row)
    | BankChanged(bank: BankStatus)
    | ConsortiumChanged(consortium: ConsortiumStatus)
    | ReconciliationChanged(reconciliation: Text)
    | AlertRaised(alert: Alert)
    | GovernanceUpdated(members: seq<MemberRow>, merchants: seq<Merchant>, governanceLog: seq<Text>)
    | MeterUpdated(meter: MeterRow)

  // ---- the dashboard's reducer ------------------------------------------------------------

  function Capped<T>(xs: seq<T>, cap: nat): seq<T> {
    if |xs| > cap then xs[..cap] else xs
  }

  function FindRow(rows: seq<Row>, id: Text): (r: Option<nat>)
    ensures r.Some? ==> r.value < |rows| && rows[r.value].id == id && forall i :: 0 <= i < r.value ==> rows[i].id != id
    ensures r.None? ==> forall i :: 0 <= i < |rows| ==> rows[i].id != id
  {
    if rows == [] then None
    else if rows[0].id == id then Some(0)
    else
      match FindRow(rows[1..], id)
      case None => None
      case Some(i) => Some(i + 1)
  }

  function UpsertRequest(rows: seq<Row>, record: Row): seq<Row> {
    match FindRow(rows, record.id)
    case None => Capped([record] + rows, REQUEST_CAP)
    case Some(i) => rows[i := record]
  }

  function WithoutAlert(alerts: seq<Alert>, id: Text): seq<Alert> {
    if alerts == [] then []
    else if alerts[0].id == id then WithoutAlert(alerts[1..], id)
    else [alerts[0]] + WithoutAlert(alerts[1..], id)
  }

  function FindMeter(meters: seq<MeterRow>, id: Text): (r: Option<nat>)
    ensures r.Some? ==> r.value < |meters| && meters[r.value].meterId == id
    ensures r.None? ==> forall i :: 0 <= i < |meters| ==> meters[i].meterId != id
  {
    if meters == [] then None
    else if meters[0].meterId == id then Some(0)
    else
      match FindMeter(meters[1..], id)
      case None => None
      case Some(i) => Some(i + 1)
  }

  /** One event at a client; before the first snapshot the others are ignored. */
  function Reduce(client: Option<Snapshot>, ev: WsEvent): Option<Snapshot> {
    if ev.Hello? then Some(ev.state)
    else
      match client
      case None => None
      case Some(snap) =>
        match ev
        case Hello(state) => Some(state)
        case RequestUpdated(record) => Some(snap.(requests := UpsertRequest(snap.requests, record)))
        case BankChanged(bank) => Some(snap.(bank := bank))
        case ConsortiumChanged(consortium) => Some(snap.(consortium := consortium))
        case ReconciliationChanged(r) => Some(snap.(reconciliation := r))
        case AlertRaised(alert) =>
          Some(snap.(alerts := Capped([alert] + WithoutAlert(snap.alerts, alert.id), ALERT_CAP)))
        case GovernanceUpdated(members, merchants, log) =>
          Some(snap.(members := members, merchants := merchants, governanceLog := log))
        case MeterUpdated(meter) =>
          match FindMeter(snap.meters, meter.meterId)
          case None => Some(snap.(meters := snap.meters + [meter]))
          case Some(i) => Some(snap.(meters := snap.meters[i := meter]))
  }

  function ReduceAll(client: Option<Snapshot>, evs: seq<WsEvent>): Option<Snapshot>
    decreases |evs|
  {
    if evs == [] then client else ReduceAll(Reduce(client, evs[0]), evs[1..])
  }

  // ---- the server's state -------------------------------------------------------------------

  /** `live` holds every record a pipeline still refers to, `order` the retained
      ids; the last emitted statuses are empty until the first emission. */
  datatype Server = Server(
    live: map<Text, Row>, order: seq<Text>, alerts: seq<Alert>, members: seq<MemberRow>, merchants: seq<Merchant>,
    governanceLog: seq<Text>, meters: seq<MeterRow>, bankUp: bool, bankMode: Text, lastConfirmationAt: Option<Text>,
    debitOutcomes: seq<bool>, healths: seq<Health>, lastBank: Option<BankStatus>,
    lastConsortium: Option<ConsortiumStatus>)

  function Confirmations(outcomes: seq<bool>): nat {
    if outcomes == [] then 0 else Confirmations(outcomes[1..]) + if outcomes[0] then 1 else 0
  }

  /** A percentage rounded half up. */
  function RoundedPct(part: nat, whole: nat): int {
    if whole == 0 then 100 else (200 * part + whole) / (2 * whole)
  }

  function BankStatusOf(s: Server): BankStatus {
    BankStatus(s.bankUp, s.bankMode, RoundedPct(Confirmations(s.debitOutcomes), |s.debitOutcomes|),
               s.lastConfirmationAt)
  }

  function IsActive(members: seq<MemberRow>, id: SignerId): bool {
    if members == [] then false
    else if members[0].signerId == id then members[0].active
    else IsActive(members[1..], id)
  }

  function Overlay(healths: seq<Health>, members: seq<MemberRow>): seq<SignerRow> {
    seq(|healths|, i requires 0 <= i < |healths| => SignerRow(healths[i], !IsActive(members, healths[i].signerId)))
  }

  function Available(rows: seq<SignerRow>): nat {
    if rows == [] then 0 else Available(rows[1..]) + if rows[0].health.online && !rows[0].revoked then 1 else 0
  }

  function ConsortiumOf(threshold: nat, s: Server): ConsortiumStatus {
    var rows := Overlay(s.healths, s.members);
    ConsortiumStatus(rows, Available(rows) >= threshold)
  }

  function Rows(s: Server): (rows: seq<Row>)
    requires forall id :: id in s.order ==> id in s.live
    ensures |rows| == |s.order| && forall i :: 0 <= i < |rows| ==> rows[i] == s.live[s.order[i]]
  {
    seq(|s.order|, i requires 0 <= i < |s.order| => s.live[s.order[i]])
  }

  function BuildSnapshot(threshold: nat, s: Server, reconciliation: Text): Snapshot
    requires forall id :: id in s.order ==> id in s.live
  {
    Snapshot(Rows(s), BankStatusOf(s), ConsortiumOf(threshold, s), reconciliation, s.alerts, s.members, s.merchants,
             s.governanceLog, s.meters)
  }

  // ---- the server's operations -------------------------------------------------------------

  datatype Op =
    | CreateRecord(id: Text, fields: Text)
    | MoveRecord(id: Text, status: Status)
    | SetFields(id: Text, fields: Text)
    | AddAlert(alert: Alert)
    | SetMerchantRevoked(merchantId: Text, revoked: bool, entry: Text)
    | SetMemberStatus(signerId: SignerId, active: bool, entry: Text)
    | AddGovernanceEntry(entry: Text)
    | UpdateBankHealth(up: bool, mode: Option<Text>)
    | RecordDebitAttempt(confirmed: bool, now: Text)
    | UpdateSignerHealths(healths: seq<Health>)
    | CreditMeter(meterId: Text, amountKwh: Number, now: Text)
    | ReportReconciliation(report: Text)

  function EmitBank(s: Server): (Server, seq<WsEvent>) {
    var status := BankStatusOf(s);
    if s.lastBank == Some(status) then (s, []) else (s.(lastBank := Some(status)), [BankChanged(status)])
  }

  function EmitConsortium(threshold: nat, s: Server): (Server, seq<WsEvent>) {
    var status := ConsortiumOf(threshold, s);
    if s.lastConsortium == Some(status) then (s, [])
    else (s.(lastConsortium := Some(status)), [ConsortiumChanged(status)])
  }

  function LogEntry(s: Server, entry: Text): (Server, seq<WsEvent>) {
    var log := Capped([entry] + s.governanceLog, GOVLOG_CAP);
    (s.(governanceLog := log), [GovernanceUpdated(s.members, s.merchants, log)])
  }

  function FindMerchant(merchants: seq<Merchant>, id: Text): (r: Option<nat>)
    ensures r.Some? ==> r.value < |merchants| && merchants[r.value].merchantId == id
  {
    if merchants == [] then None
    else if merchants[0].merchantId == id then Some(0)
    else
      match FindMerchant(merchants[1..], id)
      case None => None
      case Some(i) => Some(i + 1)
  }

  function FindMember(members: seq<MemberRow>, id: SignerId): (r: Option<nat>)
    ensures r.Some? ==> r.value < |members| && members[r.value].signerId == id
  {
    if members == [] then None
    else if members[0].signerId == id then Some(0)
    else
      match FindMember(members[1..], id)
      case None => None
      case Some(i) => Some(i + 1)
  }

  function Credited(meters: seq<MeterRow>, meterId: Text, amountKwh: Number, now: Text): MeterRow {
    var meter := match FindMeter(meters, meterId) case None => MeterRow(meterId, 0, 0, None) case Some(i) => meters[i];
    MeterRow(meterId, meter.balanceKwh + amountKwh, meter.dispenses + 1, Some(now))
  }

  /** What an operation does to the server and what it broadcasts, in order. */
  function Do(threshold: nat, s: Server, op: Op): (Server, seq<WsEvent>) {
    match op
    case CreateRecord(id, fields) =>
      var row := Row(id, Pending, [Pending], fields);
      (s.(live := s.live[id := row], order := Retain(s.order, id)), [RequestUpdated(row)])
    case MoveRecord(id, status) =>
      if id !in s.live then (s, [])
    else
        var row := s.live[id].(status := status, history := s.live[id].history + [status]);
        (s.(live := s.live[id := row]), [RequestUpdated(row)])
    case SetFields(id, fields) =>
      (if id in s.live then s.(live := s.live[id := s.live[id].(fields := fields)]) else s, [])
    case AddAlert(alert) => (s.(alerts := Capped([alert] + s.alerts, ALERT_CAP)), [AlertRaised(alert)])
    case SetMerchantRevoked(merchantId, revoked, entry) =>
      (match FindMerchant(s.merchants, merchantId)
       case None => (s, [])
       case Some(i) => LogEntry(s.(merchants := s.merchants[i := s.merchants[i].(revoked := revoked)]), entry))
    case SetMemberStatus(signerId, active, entry) =>
      (match FindMember(s.members, signerId)
       case None => (s, [])
       case Some(i) =>
         var (s1, evs1) := LogEntry(s.(members := s.members[i := s.members[i].(active := active)]), entry);
         var (s2, evs2) := EmitConsortium(threshold, s1);
         (s2, evs1 + evs2))
    case AddGovernanceEntry(entry) => LogEntry(s, entry)
    case UpdateBankHealth(up, mode) =>
      EmitBank(s.(bankUp := up, bankMode := if mode.Some? then mode.value else s.bankMode))
    case RecordDebitAttempt(confirmed, now) =>
      var outcomes := s.debitOutcomes + [confirmed];
      EmitBank(s.(debitOutcomes := if |outcomes| > DEBIT_OUTCOME_WINDOW then outcomes[1..] else outcomes,
                  lastConfirmationAt := if confirmed then Some(now) else s.lastConfirmationAt))
    case UpdateSignerHealths(healths) => EmitConsortium(threshold, s.(healths := healths))
    case CreditMeter(meterId, amountKwh, now) =>
      var meter := Credited(s.meters, meterId, amountKwh, now);
      (s.(meters := match FindMeter(s.meters, meterId)
                    case None => s.meters + [meter]
                    case Some(i) => s.meters[i := meter]),
       [MeterUpdated(meter)])
    case ReportReconciliation(report) => (s, [ReconciliationChanged(report)])
  }

  function DoAll(threshold: nat, s: Server, ops: seq<Op>): (Server, seq<WsEvent>)
    decreases |ops|
  {
    if ops == [] then (s, [])
    else
      var (s1, evs) := Do(threshold, s, ops[0]);
      var (s2, more) := DoAll(threshold, s1, ops[1..]);
      (s2, evs + more)
  }

  // ---- hypotheses and invariants -----------------------------------------------------------

  /** Request ids and alert ids are fresh, and a record is not evicted before its
      last transition. */
  ghost predicate Allowed(s: Server, op: Op) {
    match op
    case CreateRecord(id, _) => id !in s.live
    case MoveRecord(id, _) => id in s.order
    case AddAlert(alert) => forall i :: 0 <= i < |s.alerts| ==> s.alerts[i].id != alert.id
    case _ => true
  }

  ghost predicate AllAllowed(threshold: nat, s: Server, ops: seq<Op>)
    decreases |ops|
  {
    ops == [] || (Allowed(s, ops[0]) && AllAllowed(threshold, Do(threshold, s, ops[0]).0, ops[1..]))
  }

  ghost predicate ServerOk(threshold: nat, s: Server) {
    && Distinct(s.order) && |s.order| <= REQUEST_CAP
    && (forall id :: id in s.order ==> id in s.live) && (forall id :: id in s.live ==> s.live[id].id == id)
    && (s.lastBank.Some? ==> s.lastBank.value == BankStatusOf(s))
    && (s.lastConsortium.Some? ==> s.lastConsortium.value == ConsortiumOf(threshold, s))
  }

  /** The client lists the retained requests in order with their status and history. */
  ghost predicate RequestsMirrored(s: Server, rows: seq<Row>) {
    && |rows| == |s.order|
    && forall i :: 0 <= i < |rows| ==>
         && rows[i].id == s.order[i] && s.order[i] in s.live
         && rows[i].status == s.live[s.order[i]].status && rows[i].history == s.live[s.order[i]].history
  }

  ghost predicate Mirrors(threshold: nat, s: Server, snap: Snapshot) {
    && RequestsMirrored(s, snap.requests)
    && snap.alerts == s.alerts && snap.meters == s.meters
    && snap.members == s.members && snap.merchants == s.merchants && snap.governanceLog == s.governanceLog
    && snap.bank == BankStatusOf(s) && snap.consortium == ConsortiumOf(threshold, s)
  }

  // ---- one operation ---------------------------------------------------------------------------

  lemma CreateMirrors(s: Server, rows: seq<Row>, id: Text, fields: Text)
    requires RequestsMirrored(s, rows) && id !in s.live && |s.order| <= REQUEST_CAP
    requires forall x :: x in s.order ==> x in s.live
    ensures RequestsMirrored(Do(0, s, CreateRecord(id, fields)).0,
                             UpsertRequest(rows, Row(id, Pending, [Pending], fields)))
  {
    var row := Row(id, Pending, [Pending], fields);
    assert forall i :: 0 <= i < |rows| ==> rows[i].id != id;
    var full, order := [row] + rows, [id] + s.order;
    assert forall i :: 0 <= i < |full| ==> full[i].id == order[i];
  }

  /** A transition is mirrored if and only if its record is still retained. */
  lemma MoveMirrorsIff(s: Server, rows: seq<Row>, id: Text, status: Status)
    requires RequestsMirrored(s, rows) && id in s.live && s.live[id].id == id && Distinct(s.order)
    ensures var row := s.live[id].(status := status, history := s.live[id].history + [status]);
            RequestsMirrored(Do(0, s, MoveRecord(id, status)).0, UpsertRequest(rows, row)) <==> id in s.order
  {
    if id in s.order {
      RetainedMoveMirrors(s, rows, id, status);
    } else {
      EvictedMoveShows(s, rows, id, status);
    }
  }

  lemma RetainedMoveMirrors(s: Server, rows: seq<Row>, id: Text, status: Status)
    requires RequestsMirrored(s, rows) && id in s.live && s.live[id].id == id && Distinct(s.order) && id in s.order
    ensures var row := s.live[id].(status := status, history := s.live[id].history + [status]);
            RequestsMirrored(Do(0, s, MoveRecord(id, status)).0, UpsertRequest(rows, row))
  {
    var k :| 0 <= k < |s.order| && s.order[k] == id;
    assert rows[k].id == id;
  }

  /** The client shows a row for a record the server no longer lists. */
  lemma EvictedMoveShows(s: Server, rows: seq<Row>, id: Text, status: Status)
    requires RequestsMirrored(s, rows) && id in s.live && s.live[id].id == id && id !in s.order
    ensures var row := s.live[id].(status := status, history := s.live[id].history + [status]);
            !RequestsMirrored(Do(0, s, MoveRecord(id, status)).0, UpsertRequest(rows, row))
  {
    var rows' := UpsertRequest(rows, s.live[id].(status := status, history := s.live[id].history + [status]));
    assert FindRow(rows, id).None?;
    assert rows'[0].id == id;
    assert |s.order| == 0 ==> |rows'| == 1;
  }

  lemma FieldsMirror(s: Server, rows: seq<Row>, id: Text, fields: Text)
    requires RequestsMirrored(s, rows)
    ensures RequestsMirrored(Do(0, s, SetFields(id, fields)).0, rows)
  {
  }

  lemma {:induction false} NoSuchAlert(alerts: seq<Alert>, id: Text)
    requires forall i :: 0 <= i < |alerts| ==> alerts[i].id != id
    ensures WithoutAlert(alerts, id) == alerts
  {
    if alerts != [] {
      NoSuchAlert(alerts[1..], id);
    }
  }

  lemma CreateKeepsServer(threshold: nat, s: Server, id: Text, fields: Text)
    requires ServerOk(threshold, s) && id !in s.live
    ensures ServerOk(threshold, Do(threshold, s, CreateRecord(id, fields)).0)
  {
    var s' := Do(threshold, s, CreateRecord(id, fields)).0;
    var order := [id] + s.order;
    assert Distinct(order);
    assert s'.order == Capped(order, REQUEST_CAP);
    assert BankStatusOf(s') == BankStatusOf(s) && ConsortiumOf(threshold, s') == ConsortiumOf(threshold, s);
  }

  lemma DoKeepsServer(threshold: nat, s: Server, op: Op)
    requires ServerOk(threshold, s) && Allowed(s, op)
    ensures ServerOk(threshold, Do(threshold, s, op).0)
  {
    hide Overlay, Available, Confirmations, RoundedPct;
    if op.CreateRecord? {
      CreateKeepsServer(threshold, s, op.id, op.fields);
    }
  }

  /** The client that applied these events mirrors the server. */
  ghost predicate Follows(threshold: nat, s: Server, snap: Snapshot, evs: seq<WsEvent>) {
    ReduceAll(Some(snap), evs).Some? && Mirrors(threshold, s, ReduceAll(Some(snap), evs).value)
  }

  lemma RequestOpMirrors(threshold: nat, s: Server, snap: Snapshot, op: Op)
    requires ServerOk(threshold, s) && Mirrors(threshold, s, snap) && Allowed(s, op)
    requires op.CreateRecord? || op.MoveRecord? || op.SetFields?
    ensures Follows(threshold, Do(threshold, s, op).0, snap, Do(threshold, s, op).1)
  {
    hide RequestsMirrored, UpsertRequest, Retain, Distinct, ReduceAll;
    OneEvent(snap, Do(threshold, s, op).1);
    if op.CreateRecord? {
      CreateMirrors(s, snap.requests, op.id, op.fields);
    } else if op.MoveRecord? {
      MoveMirrorsIff(s, snap.requests, op.id, op.status);
    } else {
      FieldsMirror(s, snap.requests, op.id, op.fields);
    }
  }

  lemma AlertOpMirrors(threshold: nat, s: Server, snap: Snapshot, op: Op)
    requires ServerOk(threshold, s) && Mirrors(threshold, s, snap) && Allowed(s, op) && op.AddAlert?
    ensures Follows(threshold, Do(threshold, s, op).0, snap, Do(threshold, s, op).1)
  {
    hide RequestsMirrored, Distinct, ReduceAll;
    OneEvent(snap, Do(threshold, s, op).1);
    NoSuchAlert(s.alerts, op.alert.id);
    SameRequests(s, Do(threshold, s, op).0, snap.requests);
  }

  lemma GovernanceOpMirrors(threshold: nat, s: Server, snap: Snapshot, op: Op)
    requires ServerOk(threshold, s) && Mirrors(threshold, s, snap)
    requires op.SetMerchantRevoked? || op.SetMemberStatus? || op.AddGovernanceEntry?
    ensures Follows(threshold, Do(threshold, s, op).0, snap, Do(threshold, s, op).1)
  {
    hide RequestsMirrored, Distinct, ReduceAll, Overlay, Available, FindMerchant, FindMember;
    OneEvent(snap, Do(threshold, s, op).1);
    SameRequests(s, Do(threshold, s, op).0, snap.requests);
  }

  lemma StatusOpMirrors(threshold: nat, s: Server, snap: Snapshot, op: Op)
    requires ServerOk(threshold, s) && Mirrors(threshold, s, snap)
    requires op.UpdateBankHealth? || op.RecordDebitAttempt? || op.UpdateSignerHealths?
    ensures Follows(threshold, Do(threshold, s, op).0, snap, Do(threshold, s, op).1)
  {
    hide RequestsMirrored, Distinct, ReduceAll, Overlay, Available, RoundedPct, Confirmations;
    OneEvent(snap, Do(threshold, s, op).1);
    SameRequests(s, Do(threshold, s, op).0, snap.requests);
  }

  lemma MeterOpMirrors(threshold: nat, s: Server, snap: Snapshot, op: Op)
    requires ServerOk(threshold, s) && Mirrors(threshold, s, snap) && (op.CreditMeter? || op.ReportReconciliation?)
    ensures Follows(threshold, Do(threshold, s, op).0, snap, Do(threshold, s, op).1)
  {
    hide RequestsMirrored, Distinct, ReduceAll, FindMeter;
    OneEvent(snap, Do(threshold, s, op).1);
    SameRequests(s, Do(threshold, s, op).0, snap.requests);
  }

  /** After an operation, the client that applied its events mirrors the server. */
  lemma DoMirrors(threshold: nat, s: Server, snap: Snapshot, op: Op)
    requires ServerOk(threshold, s) && Mirrors(threshold, s, snap) && Allowed(s, op)
    ensures Follows(threshold, Do(threshold, s, op).0, snap, Do(threshold, s, op).1)
  {
    hide Do, Follows, ServerOk, Mirrors, Allowed;
    if op.CreateRecord? || op.MoveRecord? || op.SetFields? {
      RequestOpMirrors(threshold, s, snap, op);
    } else if op.AddAlert? {
      AlertOpMirrors(threshold, s, snap, op);
    } else if op.SetMerchantRevoked? || op.SetMemberStatus? || op.AddGovernanceEntry? {
      GovernanceOpMirrors(threshold, s, snap, op);
    } else if op.CreditMeter? || op.ReportReconciliation? {
      MeterOpMirrors(threshold, s, snap, op);
    } else {
      StatusOpMirrors(threshold, s, snap, op);
    }
  }

  lemma SameRequests(s: Server, s': Server, rows: seq<Row>)
    requires RequestsMirrored(s, rows) && s'.live == s.live && s'.order == s.order
    ensures RequestsMirrored(s', rows)
  {
  }

  /** Applying no event, one event or two. */
  lemma OneEvent(snap: Snapshot, evs: seq<WsEvent>)
    ensures evs == [] ==> ReduceAll(Some(snap), evs) == Some(snap)
    ensures |evs| == 1 ==> ReduceAll(Some(snap), evs) == Reduce(Some(snap), evs[0])
    ensures |evs| == 2 ==> ReduceAll(Some(snap), evs) == Reduce(Reduce(Some(snap), evs[0]), evs[1])
  {
    hide Reduce;
    if |evs| == 1 {
      assert evs[1..] == [];
    } else if |evs| == 2 {
      assert evs[1..] == [evs[1]] && [evs[1]][1..] == [];
      assert ReduceAll(Some(snap), evs) == ReduceAll(Reduce(Some(snap), evs[0]), [evs[1]]);
    }
  }

  // ---- every run --------------------------------------------------------------------------------

  lemma {:induction false} ReduceAppend(client: Option<Snapshot>, a: seq<WsEvent>, b: seq<WsEvent>)
    ensures ReduceAll(client, a + b) == ReduceAll(ReduceAll(client, a), b)
    decreases |a|
  {
    hide Reduce;
    if a == [] {
      assert a + b == b;
    } else {
      assert (a + b)[1..] == a[1..] + b;
      ReduceAppend(Reduce(client, a[0]), a[1..], b);
    }
  }

  lemma {:induction false} MirrorsOn(threshold: nat, s: Server, snap: Snapshot, ops: seq<Op>)
    requires ServerOk(threshold, s) && Mirrors(threshold, s, snap) && AllAllowed(threshold, s, ops)
    ensures Follows(threshold, DoAll(threshold, s, ops).0, snap, DoAll(threshold, s, ops).1)
    decreases |ops|
  {
    hide Do, Reduce, Mirrors, ServerOk, Allowed;
    if ops != [] {
      var (s1, evs) := Do(threshold, s, ops[0]);
      DoKeepsServer(threshold, s, ops[0]);
      DoMirrors(threshold, s, snap, ops[0]);
      MirrorsOn(threshold, s1, ReduceAll(Some(snap), evs).value, ops[1..]);
      ReduceAppend(Some(snap), evs, DoAll(threshold, s1, ops[1..]).1);
    }
  }

  lemma {:induction false} DoAllKeepsServer(threshold: nat, s: Server, ops: seq<Op>)
    requires ServerOk(threshold, s) && AllAllowed(threshold, s, ops)
    ensures ServerOk(threshold, DoAll(threshold, s, ops).0)
    decreases |ops|
  {
    hide Do, ServerOk, Allowed;
    if ops != [] {
      DoKeepsServer(threshold, s, ops[0]);
      DoAllKeepsServer(threshold, Do(threshold, s, ops[0]).0, ops[1..]);
    }
  }

  /** The server at boot: nothing has happened and nothing was emitted. */
  ghost predicate Booted(s: Server) {
    s.live == map[] && s.order == [] && s.alerts == [] && s.lastBank.None? && s.lastConsortium.None?
  }

  /** Whenever a client connects and whatever it held before, `hello` and all later
      events leave it with what the server holds. */
  lemma ClientMirrorsServer(threshold: nat, boot: Server, before: seq<Op>, client: Option<Snapshot>,
                            reconciliation: Text, after: seq<Op>)
    requires Booted(boot) && AllAllowed(threshold, boot, before)
    requires AllAllowed(threshold, DoAll(threshold, boot, before).0, after)
    ensures var s := DoAll(threshold, boot, before).0;
            && (forall id :: id in s.order ==> id in s.live)
            && var (s', evs) := DoAll(threshold, s, after);
               var seen := ReduceAll(client, [Hello(BuildSnapshot(threshold, s, reconciliation))] + evs);
               seen.Some? && Mirrors(threshold, s', seen.value)
  {
    hide Do, DoAll, AllAllowed, Overlay, Available, Confirmations, RoundedPct;
    assert ServerOk(threshold, boot);
    DoAllKeepsServer(threshold, boot, before);
    var s := DoAll(threshold, boot, before).0;
    var hello := BuildSnapshot(threshold, s, reconciliation);
    assert Mirrors(threshold, s, hello);
    MirrorsOn(threshold, s, hello, after);
    var evs := DoAll(threshold, s, after).1;
    assert ([Hello(hello)] + evs)[1..] == evs;
  }

  /** What the store holds before anything happened. */
  function Boot(members: seq<MemberRow>, merchants: seq<Merchant>, meters: seq<MeterRow>,
                healths: seq<Health>): Server {
    Server(map[], [], [], members, merchants, [], meters, false, [], None, [], healths, None, None)
  }

  lemma {:induction false} DoAllSnoc(threshold: nat, s: Server, ops: seq<Op>, op: Op)
    ensures var (s1, evs) := DoAll(threshold, s, ops);
            var (s2, more) := Do(threshold, s1, op);
            DoAll(threshold, s, ops + [op]) == (s2, evs + more)
    decreases |ops|
  {
    hide Do;
    if ops == [] {
      assert [] + [op] == [op] && [op][1..] == [];
      var (s2, more) := Do(threshold, s, op);
      assert DoAll(threshold, s2, []) == (s2, []);
      assert more + [] == more == [] + more;
    } else {
      assert (ops + [op])[1..] == ops[1..] + [op];
      var (s1, evs) := Do(threshold, s, ops[0]);
      DoAllSnoc(threshold, s1, ops[1..], op);
      var (s2, mid) := DoAll(threshold, s1, ops[1..]);
      var (s3, more) := Do(threshold, s2, op);
      assert evs + (mid + more) == (evs + mid) + more;
    }
  }

  // ---- the store as it runs -------------------------------------------------------------------

  /** The module-level state of the coordinator's store; every method returns what
      it broadcasts. */
  class BroadcastStore {
    const threshold: nat
    var live: map<Text, Row>
    var requestOrder: seq<Text>
    var alerts: seq<Alert>
    var members: seq<MemberRow>
    var merchants: seq<Merchant>
    var governanceLog: seq<Text>
    var meters: seq<MeterRow>
    var bankUp: bool
    var bankMode: Text
    var lastConfirmationAt: Option<Text>
    var debitOutcomes: seq<bool>
    var healths: seq<Health>
    var lastBank: Option<BankStatus>
    var lastConsortium: Option<ConsortiumStatus>

    function View(): Server
      reads this
    {
      Server(live, requestOrder, alerts, members, merchants, governanceLog, meters, bankUp, bankMode,
             lastConfirmationAt,
             debitOutcomes, healths, lastBank, lastConsortium)
    }

    constructor (threshold: nat, members: seq<MemberRow>, merchants: seq<Merchant>, meters: seq<MeterRow>,
                 healths: seq<Health>)
      ensures View() == Boot(members, merchants, meters, healths) && this.threshold == threshold
    {
      this.threshold := threshold;
      live, requestOrder, alerts, governanceLog := map[], [], [], [];
      this.members, this.merchants, this.meters, this.healths := members, merchants, meters, healths;
      bankUp, bankMode, lastConfirmationAt, debitOutcomes, lastBank, lastConsortium := false, [], None, [], None, None;
    }

    /** The lists keep within their caps. */
    predicate Bounded()
      reads this`requestOrder, this`alerts, this`governanceLog
    {
      |requestOrder| <= REQUEST_CAP && |alerts| <= ALERT_CAP && |governanceLog| <= GOVLOG_CAP
    }

    method Create(id: Text, fields: Text) returns (evs: seq<WsEvent>)
      requires |requestOrder| <= REQUEST_CAP
      modifies this`live, this`requestOrder
      ensures (View(), evs) == Do(threshold, old(View()), CreateRecord(id, fields))
    {
      var row := Row(id, Pending, [Pending], fields);
      live := live[id := row];
      requestOrder := [id] + requestOrder;
      ghost var full := requestOrder;
      while |requestOrder| > REQUEST_CAP
        invariant |requestOrder| <= |full| && requestOrder == full[..|requestOrder|]
        invariant |requestOrder| == |full| || |requestOrder| >= REQUEST_CAP
        invariant live == old(live)[id := row]
      {
        requestOrder := requestOrder[..|requestOrder| - 1];
      }
      evs := [RequestUpdated(row)];
    }

    method Move(id: Text, status: Status) returns (evs: seq<WsEvent>)
      requires id in live
      modifies this`live
      ensures (View(), evs) == Do(threshold, old(View()), MoveRecord(id, status))
    {
      var record := live[id];
      record := record.(status := status, history := record.history + [status]);
      live := live[id := record];
      evs := [RequestUpdated(record)];
    }

    method Raise(alert: Alert) returns (evs: seq<WsEvent>)
      requires |alerts| <= ALERT_CAP
      modifies this`alerts
      ensures (View(), evs) == Do(threshold, old(View()), AddAlert(alert))
    {
      alerts := [alert] + alerts;
      if |alerts| > ALERT_CAP {
        alerts := alerts[..|alerts| - 1];
      }
      evs := [AlertRaised(alert)];
    }

    method AddEntry(entry: Text) returns (evs: seq<WsEvent>)
      requires |governanceLog| <= GOVLOG_CAP
      modifies this`governanceLog
      ensures (View(), evs) == Do(threshold, old(View()), AddGovernanceEntry(entry))
      ensures |governanceLog| <= GOVLOG_CAP
    {
      governanceLog := [entry] + governanceLog;
      if |governanceLog| > GOVLOG_CAP {
        governanceLog := governanceLog[..|governanceLog| - 1];
      }
      evs := [GovernanceUpdated(members, merchants, governanceLog)];
    }

    method RevokeMerchant(merchantId: Text, revoked: bool, entry: Text) returns (evs: seq<WsEvent>)
      requires |governanceLog| <= GOVLOG_CAP
      modifies this`merchants, this`governanceLog
      ensures (View(), evs) == Do(threshold, old(View()), SetMerchantRevoked(merchantId, revoked, entry))
    {
      var found := FindMerchant(merchants, merchantId);
      if found.None? {
        return [];
      }
      merchants := merchants[found.value := merchants[found.value].(revoked := revoked)];
      evs := AddEntry(entry);
    }

    method EmitConsortiumIfChanged() returns (evs: seq<WsEvent>)
      modifies this`lastConsortium
      ensures (View(), evs) == EmitConsortium(threshold, old(View()))
    {
      var status := ConsortiumOf(threshold, View());
      if lastConsortium != Some(status) {
        lastConsortium := Some(status);
        return [ConsortiumChanged(status)];
      }
      return [];
    }

    method ChangeMember(signerId: SignerId, active: bool, entry: Text) returns (evs: seq<WsEvent>)
      requires |governanceLog| <= GOVLOG_CAP
      modifies this`members, this`governanceLog, this`lastConsortium
      ensures (View(), evs) == Do(threshold, old(View()), SetMemberStatus(signerId, active, entry))
    {
      var found := FindMember(members, signerId);
      if found.None? {
        return [];
      }
      members := members[found.value := members[found.value].(active := active)];
      var logged := AddEntry(entry);
      var more := EmitConsortiumIfChanged();
      evs := logged + more;
    }

    method SignersPolled(healths: seq<Health>) returns (evs: seq<WsEvent>)
      modifies this`healths, this`lastConsortium
      ensures (View(), evs) == Do(threshold, old(View()), UpdateSignerHealths(healths))
    {
      this.healths := healths;
      evs := EmitConsortiumIfChanged();
    }

    method EmitBankIfChanged() returns (evs: seq<WsEvent>)
      modifies this`lastBank
      ensures (View(), evs) == EmitBank(old(View()))
    {
      var status := BankStatusOf(View());
      if lastBank != Some(status) {
        lastBank := Some(status);
        return [BankChanged(status)];
      }
      return [];
    }

    method BankPolled(up: bool, mode: Option<Text>) returns (evs: seq<WsEvent>)
      modifies this`bankUp, this`bankMode, this`lastBank
      ensures (View(), evs) == Do(threshold, old(View()), UpdateBankHealth(up, mode))
    {
      bankUp := up;
      if mode.Some? {
        bankMode := mode.value;
      }
      evs := EmitBankIfChanged();
    }

    method DebitAttempted(confirmed: bool, now: Text) returns (evs: seq<WsEvent>)
      modifies this`debitOutcomes, this`lastConfirmationAt, this`lastBank
      ensures (View(), evs) == Do(threshold, old(View()), RecordDebitAttempt(confirmed, now))
    {
      debitOutcomes := debitOutcomes + [confirmed];
      if |debitOutcomes| > DEBIT_OUTCOME_WINDOW {
        debitOutcomes := debitOutcomes[1..];
      }
      if confirmed {
        lastConfirmationAt := Some(now);
      }
      evs := EmitBankIfChanged();
    }

    method Credit(meterId: Text, amountKwh: Number, now: Text) returns (evs: seq<WsEvent>)
      modifies this`meters
      ensures (View(), evs) == Do(threshold, old(View()), CreditMeter(meterId, amountKwh, now))
    {
      if FindMeter(meters, meterId).None? {
        FindAppended(meters, MeterRow(meterId, 0, 0, None));
        meters := meters + [MeterRow(meterId, 0, 0, None)];
      }
      var i := FindMeter(meters, meterId).value;
      var meter := meters[i];
      meter := MeterRow(meterId, meter.balanceKwh + amountKwh, meter.dispenses + 1, Some(now));
      meters := meters[i := meter];
      assert FindMeter(old(meters), meterId).None? ==> meters == old(meters) + [meter];
      evs := [MeterUpdated(meter)];
    }

    method Edit(id: Text, fields: Text)
      modifies this`live
      ensures (View(), []) == Do(threshold, old(View()), SetFields(id, fields))
    {
      if id in live {
        live := live[id := live[id].(fields := fields)];
      }
    }

    method PerformLogged(op: Op) returns (evs: seq<WsEvent>)
      requires Bounded() && (op.SetMerchantRevoked? || op.SetMemberStatus? || op.AddGovernanceEntry? || op.AddAlert?)
      modifies this
      ensures Bounded() && (View(), evs) == Do(threshold, old(View()), op)
    {
      hide EmitConsortium;
      if op.SetMerchantRevoked? {
        evs := RevokeMerchant(op.merchantId, op.revoked, op.entry);
      } else if op.SetMemberStatus? {
        LogCapped(threshold, View(), op.signerId, op.active, op.entry);
        evs := ChangeMember(op.signerId, op.active, op.entry);
      } else if op.AddGovernanceEntry? {
        evs := AddEntry(op.entry);
      } else {
        evs := Raise(op.alert);
      }
    }

    /** One operation of the store. */
    method Perform(op: Op) returns (evs: seq<WsEvent>)
      requires Bounded()
      modifies this
      ensures Bounded() && (View(), evs) == Do(threshold, old(View()), op)
    {
      hide EmitBank, EmitConsortium, Credited;
      match op
      case CreateRecord(id, fields) => evs := Create(id, fields);
      case MoveRecord(id, status) =>
        if id in live {
          evs := Move(id, status);
        } else {
          evs := [];
        }
      case SetFields(id, fields) =>
        Edit(id, fields);
        evs := [];
      case UpdateBankHealth(up, mode) => evs := BankPolled(up, mode);
      case RecordDebitAttempt(confirmed, now) => evs := DebitAttempted(confirmed, now);
      case UpdateSignerHealths(polled) => evs := SignersPolled(polled);
      case CreditMeter(meterId, amountKwh, now) => evs := Credit(meterId, amountKwh, now);
      case ReportReconciliation(report) => evs := [ReconciliationChanged(report)];
      case _ => evs := PerformLogged(op);
    }

    method PerformAll(ops: seq<Op>) returns (evs: seq<WsEvent>)
      requires Bounded()
      modifies this
      ensures Bounded() && (View(), evs) == DoAll(threshold, old(View()), ops)
    {
      hide Do, Bounded;
      evs := [];
      ghost var s := View();
      for k := 0 to |ops|
        invariant Bounded() && (View(), evs) == DoAll(threshold, s, ops[..k])
      {
        assert ops[..k + 1] == ops[..k] + [ops[k]];
        DoAllSnoc(threshold, s, ops[..k], ops[k]);
        var more := Perform(ops[k]);
        evs := evs + more;
      }
      assert ops[..|ops|] == ops;
    }
  }

  lemma LogCapped(threshold: nat, s: Server, signerId: SignerId, active: bool, entry: Text)
    requires |s.governanceLog| <= GOVLOG_CAP
    ensures var s' := Do(threshold, s, SetMemberStatus(signerId, active, entry)).0;
            |s'.governanceLog| <= GOVLOG_CAP && s'.order == s.order && s'.alerts == s.alerts
  {
    hide ConsortiumOf;
  }

  /** A store and a client that connects in the middle: the client ends with what the
      store then holds. */
  method Broadcast(threshold: nat, members: seq<MemberRow>, merchants: seq<Merchant>, meters: seq<MeterRow>,
                   healths: seq<Health>, before: seq<Op>, client: Option<Snapshot>, reconciliation: Text,
                   after: seq<Op>)
    returns (store: BroadcastStore, seen: Option<Snapshot>)
    requires AllAllowed(threshold, Boot(members, merchants, meters, healths), before)
    requires AllAllowed(threshold, DoAll(threshold, Boot(members, merchants, meters, healths), before).0, after)
    ensures fresh(store)
    ensures store.View() ==
            DoAll(threshold, DoAll(threshold, Boot(members, merchants, meters, healths), before).0, after).0
    ensures seen.Some? && Mirrors(threshold, store.View(), seen.value)
  {
    hide DoAll, AllAllowed, Mirrors, ReduceAll, BuildSnapshot;
    ghost var boot := Boot(members, merchants, meters, healths);
    store := new BroadcastStore(threshold, members, merchants, meters, healths);
    ClientMirrorsServer(threshold, boot, before, client, reconciliation, after);
    var early := store.PerformAll(before);
    var hello := BuildSnapshot(threshold, store.View(), reconciliation);
    var evs := store.PerformAll(after);
    seen := ReduceAll(client, [Hello(hello)] + evs);
  }

  lemma {:induction false} FindAppended(meters: seq<MeterRow>, meter: MeterRow)
    requires FindMeter(meters, meter.meterId).None?
    ensures FindMeter(meters + [meter], meter.meterId) == Some(|meters|)
  {
    if meters != [] {
      assert (meters + [meter])[1..] == meters[1..] + [meter];
      FindAppended(meters[1..], meter);
    }
  }
}
