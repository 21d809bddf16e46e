/** The bank: confirmation, idempotent replay and reversal
    (server/src/bank/index.ts:26-158, server/src/bank/sign.ts). */
module Bank {
  import opened Canonical
  import opened Types
  import opened Wrappers

  datatype Mode = Confirm | Decline | OmitSignature | Timeout

  datatype Outcome = Confirmed | SignatureOmitted

  datatype Entry = Entry(debit: Debit, reversed: bool, outcome: Outcome)

  datatype BankState = BankState(mode: Mode, log: seq<Entry>, reversals: seq<Text>)

  datatype DebitReply =
    | Confirmation(debit: Debit) // 200
    | InvalidRequest             // 400
    | Declined                   // 402
    | TimedOut                   // 504

  // ---- the handlers as functions of the state ---------------------------------

  /** The last entry whose payload has the given key; the indexes hold it. */
  function FindBy(log: seq<Entry>, key: DebitPayload -> Text, value: Text): (r: Option<nat>)
    ensures r.Some? ==> r.value < |log| && key(log[r.value].debit.payload) == value
    ensures r.None? ==> forall i :: 0 <= i < |log| ==> key(log[i].debit.payload) != value
  {
    if log == [] then None
    else if key(log[|log| - 1].debit.payload) == value then Some(|log| - 1)
    else FindBy(log[..|log| - 1], key, value)
  }

  function FindRequest(log: seq<Entry>, requestId: Text): (r: Option<nat>)
    ensures r.Some? ==> r.value < |log| && log[r.value].debit.payload.requestId == requestId
    ensures r.None? ==> forall i :: 0 <= i < |log| ==> log[i].debit.payload.requestId != requestId
  {
    FindBy(log, (p: DebitPayload) => p.requestId, requestId)
  }

  function FindRef(log: seq<Entry>, debitRef: Text): (r: Option<nat>)
    ensures r.Some? ==> r.value < |log| && log[r.value].debit.payload.debitRef == debitRef
    ensures r.None? ==> forall i :: 0 <= i < |log| ==> log[i].debit.payload.debitRef != debitRef
  {
    FindBy(log, (p: DebitPayload) => p.debitRef, debitRef)
  }

  function NewEntry(bankKey: Text, mode: Mode, req: DebitRequest, debitRef: Text, at: Text): Entry {
    var payload := DebitPayload(debitRef, req.requestId, req.meterId, req.amountKwh, req.amount, req.currency, at);
    if mode == Confirm then Entry(Debit(payload, SignedBy(bankKey, payload)), false, Confirmed)
    else Entry(Debit(payload, Forged), false, SignatureOmitted)
  }

  /** POST /api/debits. The reference and the time come from the random source
      and the clock. */
  function HandleDebit(bankKey: Text, st: BankState, req: DebitRequest, debitRef: Text, at: Text): (BankState,
                       DebitReply) {
    if req.requestId == [] || req.meterId == [] then (st, InvalidRequest)
    else
      match FindRequest(st.log, req.requestId)
      case Some(i) => (st, Confirmation(st.log[i].debit))
      case None =>
        match st.mode
        case Decline => (st, Declined)
        case Timeout => (st, TimedOut)
        case _ =>
          var entry := NewEntry(bankKey, st.mode, req, debitRef, at);
          (st.(log := st.log + [entry]), Confirmation(entry.debit))
  }

  /** POST /api/debits/:debitRef/reverse; false is the 404. */
  function HandleReverse(st: BankState, debitRef: Text): (BankState, bool) {
    match FindRef(st.log, debitRef)
    case None => (st, false)
    case Some(i) =>
      if st.log[i].reversed then (st, true)
      else (st.(log := st.log[i := st.log[i].(reversed := true)], reversals := st.reversals + [debitRef]), true)
  }

  // ---- what every handler keeps ------------------------------------------------

  ghost predicate FreshRef(st: BankState, debitRef: Text) {
    debitRef != [] && forall i :: 0 <= i < |st.log| ==> st.log[i].debit.payload.debitRef != debitRef
  }

  /** One entry per request and one per reference. */
  ghost predicate OneEntryEach(log: seq<Entry>) {
    forall i, j :: 0 <= i < j < |log| ==>
      && log[i].debit.payload.requestId != log[j].debit.payload.requestId
      && log[i].debit.payload.debitRef != log[j].debit.payload.debitRef
  }

  /** Only confirmed entries carry the bank's signature; a reversed one is in the reversal log. */
  ghost predicate EntryOk(bankKey: Text, reversals: seq<Text>, e: Entry) {
    && e.debit.payload.debitRef != []
    && (e.outcome == Confirmed <==> e.debit.bankSignature == SignedBy(bankKey, e.debit.payload))
    && (e.reversed <==> e.debit.payload.debitRef in reversals)
  }

  ghost predicate EntriesOk(bankKey: Text, st: BankState) {
    forall i :: 0 <= i < |st.log| ==> EntryOk(bankKey, st.reversals, st.log[i])
  }

  /** The reversal log lists entries of the log, once each. */
  ghost predicate ReversalsOk(st: BankState) {
    && (forall ref :: ref in st.reversals ==> exists i :: 0 <= i < |st.log| && st.log[i].debit.payload.debitRef == ref)
    && (forall i, j :: 0 <= i < j < |st.reversals| ==> st.reversals[i] != st.reversals[j])
  }

  /** One entry per request, one per reference; only confirmed entries carry the
      bank's signature; the reversal log lists the reversed entries, once each. */
  ghost predicate BankInvariant(bankKey: Text, st: BankState) {
    OneEntryEach(st.log) && EntriesOk(bankKey, st) && ReversalsOk(st)
  }

  lemma AppendedReversals(st: BankState, entry: Entry)
    requires ReversalsOk(st)
    ensures ReversalsOk(st.(log := st.log + [entry]))
  {
    var st' := st.(log := st.log + [entry]);
    forall ref | ref in st'.reversals
      ensures exists i :: 0 <= i < |st'.log| && st'.log[i].debit.payload.debitRef == ref
    {
      var i :| 0 <= i < |st.log| && st.log[i].debit.payload.debitRef == ref;
      assert st'.log[i] == st.log[i];
    }
  }

  lemma FreshNotReversed(st: BankState, debitRef: Text)
    requires ReversalsOk(st) && FreshRef(st, debitRef)
    ensures debitRef !in st.reversals
  {
  }

  /** Adding an entry for a new request under a fresh reference. */
  lemma AppendKeepsInvariant(bankKey: Text, st: BankState, entry: Entry)
    requires BankInvariant(bankKey, st) && FreshRef(st, entry.debit.payload.debitRef) && !entry.reversed
    requires forall i :: 0 <= i < |st.log| ==> st.log[i].debit.payload.requestId != entry.debit.payload.requestId
    requires entry.outcome == Confirmed <==> entry.debit.bankSignature == SignedBy(bankKey, entry.debit.payload)
    ensures BankInvariant(bankKey, st.(log := st.log + [entry]))
  {
    hide ReversalsOk;
    AppendedReversals(st, entry);
    FreshNotReversed(st, entry.debit.payload.debitRef);
  }

  lemma DebitKeepsInvariant(bankKey: Text, st: BankState, req: DebitRequest, debitRef: Text, at: Text)
    requires BankInvariant(bankKey, st) && FreshRef(st, debitRef)
    ensures BankInvariant(bankKey, HandleDebit(bankKey, st, req, debitRef, at).0)
  {
    hide BankInvariant, FreshRef;
    if FindRequest(st.log, req.requestId).None? {
      AppendKeepsInvariant(bankKey, st, NewEntry(bankKey, st.mode, req, debitRef, at));
    }
  }

  lemma MarkedEntries(bankKey: Text, st: BankState, k: nat)
    requires OneEntryEach(st.log) && EntriesOk(bankKey, st) && k < |st.log|
    ensures EntriesOk(bankKey, st.(log := st.log[k := st.log[k].(reversed := true)],
                                   reversals := st.reversals + [st.log[k].debit.payload.debitRef]))
  {
  }

  lemma MarkedReversals(bankKey: Text, st: BankState, k: nat)
    requires EntriesOk(bankKey, st) && ReversalsOk(st) && k < |st.log| && !st.log[k].reversed
    ensures ReversalsOk(st.(log := st.log[k := st.log[k].(reversed := true)],
                            reversals := st.reversals + [st.log[k].debit.payload.debitRef]))
  {
    var st' := st.(log := st.log[k := st.log[k].(reversed := true)],
                   reversals := st.reversals + [st.log[k].debit.payload.debitRef]);
    assert EntryOk(bankKey, st.reversals, st.log[k]);
    forall ref | ref in st'.reversals
      ensures exists i :: 0 <= i < |st'.log| && st'.log[i].debit.payload.debitRef == ref
    {
      if ref in st.reversals {
        var i :| 0 <= i < |st.log| && st.log[i].debit.payload.debitRef == ref;
        assert st'.log[i].debit.payload.debitRef == ref;
      } else {
        assert st'.log[k].debit.payload.debitRef == ref;
      }
    }
  }

  lemma ReverseKeepsInvariant(bankKey: Text, st: BankState, debitRef: Text)
    requires BankInvariant(bankKey, st)
    ensures BankInvariant(bankKey, HandleReverse(st, debitRef).0)
  {
    hide EntriesOk, ReversalsOk;
    var found := FindRef(st.log, debitRef);
    if found.Some? && !st.log[found.value].reversed {
      MarkedEntries(bankKey, st, found.value);
      MarkedReversals(bankKey, st, found.value);
    }
  }

  // ---- idempotent replay over whole runs ---------------------------------------

  datatype BankEvent =
    | SetMode(mode: Mode)
    | Debited(req: DebitRequest, debitRef: Text, at: Text)
    | Reversed(debitRef: Text)

  function Apply(bankKey: Text, st: BankState, ev: BankEvent): BankState {
    match ev
    case SetMode(mode) => st.(mode := mode)
    case Debited(req, debitRef, at) => HandleDebit(bankKey, st, req, debitRef, at).0
    case Reversed(debitRef) => HandleReverse(st, debitRef).0
  }

  function Run(bankKey: Text, st: BankState, evs: seq<BankEvent>): BankState
    decreases |evs|
  {
    if evs == [] then st else Run(bankKey, Apply(bankKey, st, evs[0]), evs[1..])
  }

  lemma {:induction false} LogOnlyGrows(bankKey: Text, st: BankState, evs: seq<BankEvent>)
    ensures var st' := Run(bankKey, st, evs);
            && |st.log| <= |st'.log|
            && forall i :: 0 <= i < |st.log| ==>
                 && st'.log[i].debit == st.log[i].debit && st'.log[i].outcome == st.log[i].outcome
                 && (st.log[i].reversed ==> st'.log[i].reversed)
    decreases |evs|
  {
    if evs != [] {
      LogOnlyGrows(bankKey, Apply(bankKey, st, evs[0]), evs[1..]);
    }
  }

  /** The payload a debit call asks for, under the reference and time it drew. */
  predicate Carries(ev: BankEvent, p: DebitPayload) {
    ev.Debited? && p.debitRef == ev.debitRef && p.confirmedAt == ev.at && p.requestId == ev.req.requestId
    && p.meterId == ev.req.meterId && p.amountKwh == ev.req.amountKwh && p.amount == ev.req.amount
    && p.currency == ev.req.currency
  }

  /** Every entry the log gains is exactly what some debit call asked for. */
  lemma {:induction false} EntriesComeFromRequests(bankKey: Text, st: BankState, evs: seq<BankEvent>, i: nat)
    requires |st.log| <= i < |Run(bankKey, st, evs).log|
    ensures exists k :: 0 <= k < |evs| && Carries(evs[k], Run(bankKey, st, evs).log[i].debit.payload)
    decreases |evs|
  {
    var st1 := Apply(bankKey, st, evs[0]);
    var p := Run(bankKey, st, evs).log[i].debit.payload;
    LogOnlyGrows(bankKey, st1, evs[1..]);
    if i < |st1.log| {
      assert Carries(evs[0], p);
    } else {
      EntriesComeFromRequests(bankKey, st1, evs[1..], i);
      var k :| 0 <= k < |evs[1..]| && Carries(evs[1..][k], p);
      assert Carries(evs[k + 1], p);
    }
  }

  ghost predicate OneEntryPerRequest(st: BankState) {
    forall i, j :: 0 <= i < j < |st.log| ==> st.log[i].debit.payload.requestId != st.log[j].debit.payload.requestId
  }

  lemma {:induction false} OneEntryAlways(bankKey: Text, st: BankState, evs: seq<BankEvent>)
    requires OneEntryPerRequest(st)
    ensures OneEntryPerRequest(Run(bankKey, st, evs))
    decreases |evs|
  {
    if evs != [] {
      OneEntryAlways(bankKey, Apply(bankKey, st, evs[0]), evs[1..]);
    }
  }

  /** Once a request is confirmed, every later call for it gets the same debit
      back, whatever happened in between and whatever the mode is, and changes
      nothing. */
  lemma ReplayReturnsSameDebit(bankKey: Text, st: BankState, req: DebitRequest, debitRef: Text, at: Text,
                               evs: seq<BankEvent>,
                               again: DebitRequest, debitRef': Text, at': Text)
    requires OneEntryPerRequest(st) && again.requestId == req.requestId && again.meterId != []
    requires HandleDebit(bankKey, st, req, debitRef, at).1.Confirmation?
    ensures var later := Run(bankKey, HandleDebit(bankKey, st, req, debitRef, at).0, evs);
            HandleDebit(bankKey, later, again, debitRef', at') == (later, HandleDebit(bankKey, st, req, debitRef, at).1)
  {
    var (st1, reply) := HandleDebit(bankKey, st, req, debitRef, at);
    var later := Run(bankKey, st1, evs);
    assert OneEntryPerRequest(st1);
    OneEntryAlways(bankKey, st1, evs);
    LogOnlyGrows(bankKey, st1, evs);
    var k := FindRequest(st1.log, req.requestId).value;
    assert st1.log[k].debit == reply.debit;
    var k' := FindRequest(later.log, req.requestId).value;
    assert later.log[k].debit.payload.requestId == later.log[k'].debit.payload.requestId;
    assert k == k';
  }

  // ---- what only grows ----------------------------------------------------------

  /** The bank confirmed this payload. */
  ghost predicate BankConfirmed(log: seq<Entry>, p: DebitPayload) {
    exists i :: 0 <= i < |log| && log[i].debit.payload == p && log[i].outcome == Confirmed
  }

  /** The log keeps its debits and outcomes. */
  ghost predicate Extends(log: seq<Entry>, log': seq<Entry>) {
    && |log| <= |log'|
    && forall i :: 0 <= i < |log| ==> log'[i].debit == log[i].debit && log'[i].outcome == log[i].outcome
  }

  lemma BankExtends(bankKey: Text, st: BankState, ev: BankEvent)
    ensures Extends(st.log, Apply(bankKey, st, ev).log)
  {
  }

  lemma SameLogExtends(log: seq<Entry>)
    ensures Extends(log, log)
  {
  }

  lemma ConfirmedStays(log: seq<Entry>, log': seq<Entry>)
    requires Extends(log, log')
    ensures forall p :: BankConfirmed(log, p) ==> BankConfirmed(log', p)
  {
    forall p | BankConfirmed(log, p)
      ensures BankConfirmed(log', p)
    {
      var i :| 0 <= i < |log| && log[i].debit.payload == p && log[i].outcome == Confirmed;
      assert log'[i].debit.payload == p;
    }
  }

  // ---- the service ---------------------------------------------------------------

  /** One log entry, shared by the log and both indexes. */
  class DebitLogEntry {
    const debit: Debit
    const outcome: Outcome
    var reversed: bool

    constructor (debit: Debit, outcome: Outcome)
      ensures this.debit == debit && this.outcome == outcome && !reversed
    {
      this.debit := debit;
      this.outcome := outcome;
      reversed := false;
    }
  }

  class BankService {
    var mode: Mode
    var debitLog: seq<DebitLogEntry>
    var byRequestId: map<Text, DebitLogEntry>
    var byDebitRef: map<Text, DebitLogEntry>
    var reversalLog: seq<Text>

    ghost predicate Valid()
      reads this
    {
      && (forall e :: e in debitLog ==>
            && e.debit.payload.requestId in byRequestId && byRequestId[e.debit.payload.requestId] == e
            && e.debit.payload.debitRef in byDebitRef && byDebitRef[e.debit.payload.debitRef] == e)
      && (forall k :: k in byRequestId ==> byRequestId[k] in debitLog && byRequestId[k].debit.payload.requestId == k)
      && (forall k :: k in byDebitRef ==> byDebitRef[k] in debitLog && byDebitRef[k].debit.payload.debitRef == k)
      && (forall i, j :: 0 <= i < j < |debitLog| ==> debitLog[i] != debitLog[j])
    }

    ghost function View(): BankState
      reads this, debitLog
    {
      BankState(mode,
                seq(|debitLog|, i requires 0 <= i < |debitLog| reads this, debitLog =>
                      Entry(debitLog[i].debit, debitLog[i].reversed, debitLog[i].outcome)),
                reversalLog)
    }

    constructor ()
      ensures Valid() && View() == BankState(Confirm, [], [])
    {
      mode := Confirm;
      debitLog := [];
      byRequestId := map[];
      byDebitRef := map[];
      reversalLog := [];
    }

    /** The indexes find what a scan of the log finds. */
    lemma RequestIndex(requestId: Text)
      requires Valid()
      ensures requestId in byRequestId <==> FindRequest(View().log, requestId).Some?
      ensures requestId in byRequestId ==> debitLog[FindRequest(View().log, requestId).value] == byRequestId[requestId]
    {
      var found := FindRequest(View().log, requestId);
      if found.Some? {
        assert debitLog[found.value] in debitLog;
      }
      if requestId in byRequestId {
        var k :| 0 <= k < |debitLog| && debitLog[k] == byRequestId[requestId];
        assert View().log[k].debit.payload.requestId == requestId;
      }
    }

    lemma RefIndex(debitRef: Text)
      requires Valid()
      ensures debitRef in byDebitRef <==> FindRef(View().log, debitRef).Some?
      ensures debitRef in byDebitRef ==> debitLog[FindRef(View().log, debitRef).value] == byDebitRef[debitRef]
    {
      var found := FindRef(View().log, debitRef);
      if found.Some? {
        assert debitLog[found.value] in debitLog;
      }
      if debitRef in byDebitRef {
        var k :| 0 <= k < |debitLog| && debitLog[k] == byDebitRef[debitRef];
        assert View().log[k].debit.payload.debitRef == debitRef;
      }
    }

    method PostDebit(bankKey: Text, req: DebitRequest, debitRef: Text, at: Text) returns (reply: DebitReply)
      requires Valid() && FreshRef(View(), debitRef)
      modifies this
      ensures Valid() && (View(), reply) == HandleDebit(bankKey, old(View()), req, debitRef, at)
      ensures forall e :: e in debitLog ==> e in old(debitLog) || fresh(e)
    {
      if req.requestId == [] || req.meterId == [] {
        return InvalidRequest;
      }
      RequestIndex(req.requestId);
      if req.requestId in byRequestId {
        var prior := byRequestId[req.requestId];
        return Confirmation(prior.debit);
      }
      match mode
      case Decline => return Declined;
      case Timeout => return TimedOut;
      case _ =>
        var debit := Record(NewEntry(bankKey, mode, req, debitRef, at));
        return Confirmation(debit);
    }

    lemma FreshUnindexed(debitRef: Text)
      requires Valid() && FreshRef(View(), debitRef)
      ensures debitRef !in byDebitRef
    {
      RefIndex(debitRef);
    }

    /** A new entry in the log and both indexes. */
    twostate predicate Appended(new entry: DebitLogEntry)
      reads this
    {
      && fresh(entry) && debitLog == old(debitLog) + [entry]
      && byRequestId == old(byRequestId)[entry.debit.payload.requestId := entry]
      && byDebitRef == old(byDebitRef)[entry.debit.payload.debitRef := entry]
    }

    twostate lemma AppendedValid(new entry: DebitLogEntry)
      requires old(Valid()) && Appended(entry)
      requires entry.debit.payload.requestId !in old(byRequestId) && entry.debit.payload.debitRef !in old(byDebitRef)
      ensures Valid()
    {
    }

    twostate lemma AppendedView(new entry: DebitLogEntry, made: Entry)
      requires Appended(entry) && mode == old(mode) && reversalLog == old(reversalLog)
      requires forall e :: e in old(debitLog) ==> e.reversed == old(e.reversed)
      requires made == Entry(entry.debit, entry.reversed, entry.outcome)
      ensures View() == old(View()).(log := old(View()).log + [made])
    {
      assert forall i :: 0 <= i < |old(debitLog)| ==> debitLog[i] == old(debitLog)[i];
      assert View().log == old(View()).log + [made];
    }

    method Record(made: Entry) returns (debit: Debit)
      requires Valid() && !made.reversed && FreshRef(View(), made.debit.payload.debitRef)
      requires made.debit.payload.requestId !in byRequestId
      modifies this
      ensures Valid() && View() == old(View()).(log := old(View()).log + [made]) && debit == made.debit
      ensures forall e :: e in debitLog ==> e in old(debitLog) || fresh(e)
    {
      hide Valid, View, FreshRef, FindRef, FindRequest;
      FreshUnindexed(made.debit.payload.debitRef);
      var entry := new DebitLogEntry(made.debit, made.outcome);
      debitLog := debitLog + [entry];
      byRequestId := byRequestId[entry.debit.payload.requestId := entry];
      byDebitRef := byDebitRef[entry.debit.payload.debitRef := entry];
      AppendedValid(entry);
      AppendedView(entry, made);
      return entry.debit;
    }

    method SetMode(mode: Mode)
      requires Valid()
      modifies this`mode
      ensures Valid() && View() == old(View()).(mode := mode) && debitLog == old(debitLog)
    {
      this.mode := mode;
    }

    method PostReverse(debitRef: Text) returns (ok: bool)
      requires Valid()
      modifies this, debitLog
      ensures Valid() && debitLog == old(debitLog)
      ensures (View(), ok) == HandleReverse(old(View()), debitRef)
    {
      RefIndex(debitRef);
      if debitRef !in byDebitRef {
        return false;
      }
      var entry := byDebitRef[debitRef];
      ghost var st, k := View(), FindRef(View().log, debitRef).value;
      if !entry.reversed {
        entry.reversed := true;
        reversalLog := reversalLog + [debitRef];
        assert View().log == st.log[k := st.log[k].(reversed := true)];
      }
      return true;
    }
  }
}
