/** The coordinator process: its module-level state and the code between the
    awaits of each pipeline run, as methods that change records in place
    (server/src/coordinator/store.ts:100-160, 375-419,
    server/src/coordinator/pipeline.ts:46-82, 268-562). Each method is the
    corresponding step of the machine. */
module Coordinator {
  import opened Approvals
  import opened Bank
  import opened Canonical
  import opened Ceremony
  import opened Lists
  import opened Meter
  import opened Pipeline
  import opened Reconciliation
  import opened Types
  import opened Verify
  import opened Wrappers
  import Frost

  class PipelineRecord {
    const request: Request
    var status: Status
    var history: seq<Status>
    var debit: Option<Debit>
    var publication: Option<Text>
    var approvals: Option<nat>
    var token: Option<Token>
    var signerSet: seq<SignerId>
    var ledger: Option<LedgerRecord>
    var dispensedKwh: Option<Number>
    var debitReversed: Option<bool>

    function View(): Record
      reads this
    {
      Record(request, status, history, debit, publication, approvals, token, signerSet, ledger, dispensedKwh,
             debitReversed)
    }

    constructor (request: Request)
      ensures View() == NewRecord(request) && this.request == request
    {
      this.request := request;
      status, history, debit, publication, approvals, token := Pending, [Pending], None, None, None, None;
      signerSet, ledger, dispensedKwh, debitReversed := [], None, None, None;
    }

    lemma Fields()
      ensures View().request == request && View().debit == debit && View().token == token && View().status == status
    {
    }

    method SetDebit(d: Debit)
      modifies this`debit
      ensures View() == old(View()).(debit := Some(d))
    {
      debit := Some(d);
    }

    method SetPublication(requestTxHash: Text)
      modifies this`publication
      ensures View() == old(View()).(publication := Some(requestTxHash))
    {
      publication := Some(requestTxHash);
    }

    method SetApprovals(n: nat)
      modifies this`approvals
      ensures View() == old(View()).(approvals := Some(n))
    {
      approvals := Some(n);
    }

    method SetToken(t: Token, signers: seq<SignerId>)
      modifies this`token, this`signerSet
      ensures View() == old(View()).(token := Some(t), signerSet := signers)
    {
      token := Some(t);
      signerSet := signers;
    }

    method SetLedger(l: LedgerRecord)
      modifies this`ledger
      ensures View() == old(View()).(ledger := Some(l))
    {
      ledger := Some(l);
    }

    method SetDispensed(kwh: Number)
      modifies this`dispensedKwh
      ensures View() == old(View()).(dispensedKwh := Some(kwh))
    {
      dispensedKwh := Some(kwh);
    }

    method SetReversed(reversed: bool)
      modifies this`debitReversed
      ensures View() == old(View()).(debitReversed := Some(reversed))
    {
      debitReversed := Some(reversed);
    }

    /** Every state change goes through here. */
    method MoveTo(s: Status)
      modifies this
      ensures View() == Transition(old(View()), s)
    {
      status := s;
      history := history + [s];
    }
  }

  /** A pipeline run waiting for a reply, with the record it closes over. */
  datatype Suspended = Suspended(record: PipelineRecord, at: Await)

  class Store {
    var requests: map<Text, PipelineRecord>
    var requestOrder: seq<Text>
    var consumedDebitRefs: map<Text, Text>
    var audit: seq<LedgerRecord>
    const meter: MeterService
    var runs: map<Text, Suspended>
    ghost var reverseAsked: set<Text>
    ghost var answers: map<Text, BankAnswer>
    ghost var signed: map<Text, SignedCeremony>

    ghost function Records(): set<PipelineRecord>
      reads this`runs
    {
      set id | id in runs :: runs[id].record
    }

    /** Every run closes over its own record; the retained records are those of
        the listed runs. */
    ghost predicate Valid()
      reads this`runs, this`requests, this`requestOrder, Records(), meter
    {
      && meter.Valid()
      && (forall id :: id in runs ==> runs[id].record.request.requestId == id)
      && (forall id :: id in requests <==> id in requestOrder)
      && (forall id :: id in requests ==> id in runs && requests[id] == runs[id].record)
      && Distinct(requestOrder) && |requestOrder| <= REQUEST_CAP
    }

    ghost function RunsView(): map<Text, PipelineRun>
      reads this`runs, Records()
    {
      map id | id in runs :: PipelineRun(runs[id].record.View(), runs[id].at)
    }

    /** The machine's state, given what is outside. */
    ghost function View(outside: Outside): State
      reads this, Records(), meter
    {
      State(outside, RunsView(), requestOrder, consumedDebitRefs, meter.View(), audit,
            Observed(reverseAsked, answers, signed))
    }

    constructor ()
      ensures Valid() && View(IDLE.outside) == IDLE && fresh(meter)
    {
      meter := new MeterService();
      requests, requestOrder, consumedDebitRefs, audit := map[], [], map[], [];
      runs, reverseAsked, answers, signed := map[], {}, map[], map[];
    }

    // ---- the store ---------------------------------------------------------------------

    /** Put a new record first and evict the oldest beyond the cap. */
    method CreateRecord(request: Request) returns (record: PipelineRecord)
      requires Valid() && request.requestId !in requests
      modifies this`requests, this`requestOrder
      ensures fresh(record) && record.View() == NewRecord(request) && record.request == request
      ensures requestOrder == Retain(old(requestOrder), request.requestId)
      ensures Distinct(requestOrder) && |requestOrder| <= REQUEST_CAP
      ensures forall id :: id in requests <==> id in requestOrder
      ensures forall id :: id in requests ==>
                if id == request.requestId then requests[id] == record
                else id in runs && requests[id] == runs[id].record
    {
      hide MeterService.Valid, PipelineRecord.View, NewRecord, Distinct, Retain;
      record := new PipelineRecord(request);
      PutRecord(record, request.requestId);
    }

    /** The map and the list take the record and keep the newest ids. */
    method PutRecord(record: PipelineRecord, id: Text)
      requires Distinct(requestOrder) && |requestOrder| <= REQUEST_CAP && id !in requests
      requires forall x :: x in requests <==> x in requestOrder
      modifies this`requests, this`requestOrder
      ensures requestOrder == Retain(old(requestOrder), id)
      ensures Distinct(requestOrder) && |requestOrder| <= REQUEST_CAP
      ensures forall x :: x in requests <==> x in requestOrder
      ensures forall x :: x in requests ==>
                if x == id then requests[x] == record else x in old(requests) && requests[x] == old(requests)[x]
    {
      hide Distinct, Retain;
      PutFirst(requestOrder, id);
      requests := requests[id := record];
      requestOrder := [id] + requestOrder;
      EvictOldest();
    }

    method EvictOldest()
      requires Distinct(requestOrder) && forall id :: id in requests <==> id in requestOrder
      modifies this`requests, this`requestOrder
      ensures requestOrder ==
              if |old(requestOrder)| > REQUEST_CAP then old(requestOrder)[..REQUEST_CAP] else old(requestOrder)
      ensures forall id :: id in requests <==> id in requestOrder
      ensures forall id :: id in requests ==> id in old(requests) && requests[id] == old(requests)[id]
    {
      ghost var full := requestOrder;
      while |requestOrder| > REQUEST_CAP
        invariant |requestOrder| <= |full| && requestOrder == full[..|requestOrder|]
        invariant |requestOrder| == |full| || |requestOrder| >= REQUEST_CAP
        invariant forall id :: id in requests <==> id in requestOrder
        invariant forall id :: id in requests ==> id in old(requests) && requests[id] == old(requests)[id]
      {
        var evicted := requestOrder[|requestOrder| - 1];
        assert requestOrder == requestOrder[..|requestOrder| - 1] + [evicted];
        requestOrder := requestOrder[..|requestOrder| - 1];
        requests := requests - {evicted};
      }
    }

    /** The check and the claim happen without an await between them. */
    method ClaimDebitRef(debitRef: Text, requestId: Text) returns (ok: bool)
      modifies this`consumedDebitRefs
      ensures ok == !ClaimedByOther(old(consumedDebitRefs), debitRef, requestId)
      ensures consumedDebitRefs == if ok then old(consumedDebitRefs)[debitRef := requestId] else old(consumedDebitRefs)
    {
      if debitRef in consumedDebitRefs && consumedDebitRefs[debitRef] != []
        && consumedDebitRefs[debitRef] != requestId {
        return false;
      }
      consumedDebitRefs := consumedDebitRefs[debitRef := requestId];
      return true;
    }

    /** What the monitor counts are the retained records of the machine's state. */
    lemma RetainedIsView(outside: Outside)
      requires Valid()
      ensures RetainedView() == Retained(View(outside))
    {
      hide PipelineRecord.View;
      assert forall id :: id in requests ==> requests[id] == runs[id].record;
    }

    ghost function RetainedView(): map<Text, Record>
      reads this, set id | id in requests :: requests[id]
    {
      map id | id in requests :: requests[id].View()
    }

    /** The counting loop: tokens are counted, debits and receipts collected in sets. */
    method TallyAll() returns (t: Tally)
      ensures t == TallyOf(RetainedView(), requests.Keys)
    {
      hide TallyOf, Counted;
      ghost var rs := RetainedView();
      t := Tally(0, {}, {}, {});
      NoneCounted(rs);
      var left := requests.Keys;
      assert rs.Keys - left == {};
      while left != {}
        invariant left <= requests.Keys && t == TallyOf(rs, rs.Keys - left)
        decreases |left|
      {
        var id :| id in left;
        CountRecord(rs, left, id);
        t := CountOne(t, requests[id]);
        left := left - {id};
      }
      assert rs.Keys - left == requests.Keys;
    }

    method CountOne(t: Tally, r: PipelineRecord) returns (t': Tally)
      ensures t' == Counted(t, r.View())
    {
      t' := t;
      if Terminal(r.status) {
        if r.status == Delivered {
          if r.token.Some? {
            t' := t'.(tokens := t'.tokens + 1);
          }
          if r.debit.Some? {
            t' := t'.(deliveredDebitRefs := t'.deliveredDebitRefs + {r.debit.value.payload.debitRef});
          }
          if r.ledger.Some? {
            t' := t'.(deliveredTxHashes := t'.deliveredTxHashes + {r.ledger.value.txHash});
          }
        } else if r.status == RejectedAbandoned {
          if r.debit.Some? && r.debitReversed != Some(true) {
            t' := t'.(stuckDebitRefs := t'.stuckDebitRefs + {r.debit.value.payload.debitRef});
          }
        }
      }
    }

    method ComputeReconciliation() returns (report: Report)
      ensures report == Reconcile(RetainedView())
    {
      hide TokenIds, DeliveredRefs, DeliveredTxs, StuckRefs;
      var t := TallyAll();
      assert RetainedView().Keys == requests.Keys;
      var stuckDebitRefs := t.stuckDebitRefs - t.deliveredDebitRefs;
      var debits := |t.deliveredDebitRefs| + |stuckDebitRefs|;
      var records := |t.deliveredTxHashes|;
      var delta := Max(Abs(t.tokens - debits), Abs(t.tokens - records));
      return Report(t.tokens, debits, records, delta);
    }

    /** When only run id's record and await changed, so did the view. */
    twostate lemma OneRunChanged(id: Text)
      requires old(Valid()) && id in old(runs) && id in runs
      requires runs == old(runs)[id := Suspended(old(runs[id].record), runs[id].at)]
      requires requests == old(requests) && requestOrder == old(requestOrder) && meter.Valid()
      requires forall other :: other in old(runs) && other != id ==>
               runs[other].record.View() == old(runs[other].record.View())
      ensures Valid() && RunsView() == old(RunsView())[id := PipelineRun(runs[id].record.View(), runs[id].at)]
      ensures Records() == old(Records())
    {
      hide PipelineRecord.View, MeterService.Valid;
      SameRecords(id);
    }

    twostate lemma SameRecords(id: Text)
      requires id in old(runs) && id in runs && runs == old(runs)[id := Suspended(old(runs[id].record), runs[id].at)]
      ensures Records() == old(Records())
    {
      assert forall other :: other in runs <==> other in old(runs);
      assert forall other :: other in runs ==> runs[other].record == old(runs[other].record);
    }

    // ---- the segments of a run ------------------------------------------------------------

    // ---- what is observed ------------------------------------------------------------------

    ghost method NoteAnswer(id: Text, answer: BankAnswer, outside: Outside)
      requires Valid()
      modifies this`answers
      ensures Valid() && Records() == old(Records()) && View(outside) == Heard(old(View(outside)), id, answer)
    {
      answers := answers[id := answer];
    }

    ghost method NoteSigned(id: Text, ceremony: SignedCeremony, outside: Outside)
      requires Valid()
      modifies this`signed
      ensures Valid() && Records() == old(Records()) && RunsView() == old(RunsView())
      ensures View(outside) == NoteCeremony(old(View(outside)), id, ceremony)
    {
      signed := signed[id := ceremony];
    }

    // ---- suspending ------------------------------------------------------------------------

    /** Suspend a run at its next await. */
    method Suspend(id: Text, at: Await, ghost outside: Outside)
      requires Valid() && id in runs
      modifies this`runs
      ensures Valid() && runs == old(runs)[id := Suspended(old(runs[id].record), at)] && Records() == old(Records())
      ensures View(outside) == Put(old(View(outside)), id, PipelineRun(runs[id].record.View(), at))
    {
      runs := runs[id := runs[id].(at := at)];
      OneRunChanged(id);
    }

    /** Move a run's record on and suspend the run. */
    method MoveAndSuspend(id: Text, s: Status, at: Await, ghost outside: Outside)
      requires Valid() && id in runs
      modifies this`runs, runs[id].record
      ensures Valid() && runs == old(runs)[id := Suspended(old(runs[id].record), at)] && Records() == old(Records())
      ensures View(outside) == Put(old(View(outside)), id, PipelineRun(Transition(old(runs[id].record.View()), s), at))
    {
      var record := runs[id].record;
      record.MoveTo(s);
      runs := runs[id := Suspended(record, at)];
      OneRunChanged(id);
    }

    /** A created record is listed and its run is about to start. */
    ghost predicate Starting(record: PipelineRecord)
      reads this, Records(), meter
    {
      && meter.Valid()
      && (forall id :: id in runs ==> runs[id].record.request.requestId == id)
      && (forall id :: id in requests <==> id in requestOrder)
      && (forall id :: id in requests ==>
            if id == record.request.requestId then requests[id] == record
            else id in runs && requests[id] == runs[id].record)
      && Distinct(requestOrder) && |requestOrder| <= REQUEST_CAP
    }

    method AddRun(record: PipelineRecord, at: Await, ghost outside: Outside)
      requires Starting(record)
      modifies this`runs
      ensures Valid() && forall r :: r in Records() ==> r in old(Records()) || r == record
      ensures View(outside) == Put(old(View(outside)), record.request.requestId, PipelineRun(record.View(), at))
    {
      hide PipelineRecord.View, Distinct, MeterService.Valid;
      runs := runs[record.request.requestId := Suspended(record, at)];
      assert RunsView() == old(RunsView())[record.request.requestId := PipelineRun(record.View(), at)];
    }

    /** A new record, listed and about to start. */
    method ListRecord(request: Request, ghost outside: Outside) returns (record: PipelineRecord)
      requires Valid() && request.requestId !in requests
      modifies this`requests, this`requestOrder
      ensures fresh(record) && record.View() == NewRecord(request) && record.request == request && Starting(record)
      ensures View(outside) == old(View(outside)).(order := Retain(old(requestOrder), request.requestId))
    {
      hide PipelineRecord.View, Retain, Distinct, MeterService.Valid;
      record := CreateRecord(request);
      assert RunsView() == old(RunsView());
    }

    method OnRequest(request: Request, merchantOk: bool, ghost outside: Outside)
      requires Valid() && request.requestId !in requests
      modifies this
      ensures Valid() && View(outside) == OnCreated(old(View(outside)), request, merchantOk)
      ensures fresh(Records() - old(Records()))
    {
      hide PipelineRecord.View, Retain, Distinct, MeterService.Valid, MeterService.View, Valid;
      var record := ListRecord(request, outside);
      ghost var listed := View(outside);
      if !merchantOk {
        record.MoveTo(Rejected);
        assert View(outside) == listed;
      }
      AddRun(record, if merchantOk then PreflightPoll else Finished, outside);
    }

    /** The request route: the idempotency check sees the retained records only, and
        the run starts in the same synchronous segment. */
    method PostRequest(env: Env, request: Request, admitted: bool, merchantOk: bool,
                       ghost outside: Outside) returns (status: int)
      requires Valid()
      modifies this
      ensures Valid() && fresh(Records() - old(Records()))
      ensures status == if old(request.requestId in requestOrder) then 200 else if admitted then 202 else 429
      ensures View(outside) == Step(env, old(View(outside)), Requested(request, admitted, merchantOk))
    {
      hide OnCreated;
      if request.requestId in requests {
        return 200;
      }
      if !admitted {
        return 429;
      }
      OnRequest(request, merchantOk, outside);
      return 202;
    }

    /** Ask the bank to reverse the debit, or end at once without one. */
    method AbandonRun(id: Text, ghost outside: Outside)
      requires Valid() && id in runs
      modifies this`runs, this`reverseAsked, runs[id].record
      ensures Valid() && View(outside) == Abandon(old(View(outside)), id, old(runs[id].record.View()))
      ensures Records() == old(Records())
    {
      var record := runs[id].record;
      if record.debit.Some? && record.debit.value.payload.debitRef != [] {
        reverseAsked := reverseAsked + {record.debit.value.payload.debitRef};
        runs := runs[id := Suspended(record, ReversalReply)];
        OneRunChanged(id);
      } else {
        EndAbandoned(id, false, outside);
      }
    }

    method EndAbandoned(id: Text, reversed: bool, ghost outside: Outside)
      requires Valid() && id in runs
      modifies this`runs, runs[id].record
      ensures Valid() && Records() == old(Records())
      ensures View(outside) == Put(old(View(outside)), id, FinishAbandoned(old(runs[id].record.View()), reversed))
    {
      var record := runs[id].record;
      record.SetReversed(reversed);
      record.MoveTo(RejectedAbandoned);
      runs := runs[id := Suspended(record, Finished)];
      OneRunChanged(id);
    }

    method OnPreflight(env: Env, id: Text, online: seq<SignerInfo>, ghost outside: Outside)
      requires Valid() && id in runs && runs[id].at.PreflightPoll?
      modifies this, runs[id].record
      ensures Valid() && Records() == old(Records())
      ensures View(outside) == Step(env, old(View(outside)), PreflightPolled(id, online))
    {
      hide Step, PipelineRecord.View, Valid;
      StepIsResume(env, View(outside), id, PreflightPolled(id, online));
      if |online| < env.threshold {
        MoveAndSuspend(id, Rejected, Finished, outside);
        return;
      }
      Suspend(id, DebitReply, outside);
    }

    /** Hold the debit and suspend the run, without an await. */
    method HoldDebit(id: Text, debit: Debit, s: Status, at: Await, ghost outside: Outside)
      requires Valid() && id in runs
      modifies this`runs, runs[id].record
      ensures Valid() && Records() == old(Records())
      ensures View(outside) ==
              Put(old(View(outside)), id,
                  PipelineRun(Transition(old(runs[id].record.View()).(debit := Some(debit)), s), at))
    {
      hide PipelineRecord.View;
      runs[id].record.SetDebit(debit);
      runs[id].record.MoveTo(s);
      runs := runs[id := runs[id].(at := at)];
      OneRunChanged(id);
    }

    /** One debit, one token: the claim is made before anything else can run. */
    method OnGoodDebit(id: Text, debit: Debit, ghost outside: Outside)
      requires Valid() && id in runs
      modifies this, runs[id].record
      ensures Valid() && Records() == old(Records())
      ensures View(outside) == OnVerifiedDebit(old(View(outside)), id, old(runs[id].record.View()), debit)
    {
      hide PipelineRecord.View, Transition;
      ghost var r := runs[id].record.View();
      var claimed := ClaimDebitRef(debit.payload.debitRef, id);
      assert View(outside) == old(View(outside)).(consumed := consumedDebitRefs);
      assert runs[id].record.View() == r;
      if claimed {
        HoldDebit(id, debit, DebitConfirmed, PublishReply, outside);
      } else {
        HoldDebit(id, debit, Rejected, Finished, outside);
      }
    }

    /** The four rejections of wall 1, and the claim. */
    method TakeAnswer(env: Env, id: Text, answer: BankAnswer, ghost outside: Outside)
      requires Valid() && id in runs
      modifies this, runs[id].record
      ensures Valid() && Records() == old(Records())
      ensures View(outside) == OnDebit(env, old(View(outside)), id, old(runs[id].record.View()), answer)
    {
      hide PipelineRecord.View, OnVerifiedDebit;
      runs[id].record.Fields();
      if !answer.Answered? {
        MoveAndSuspend(id, Rejected, Finished, outside);
        return;
      }
      var debit := answer.debit;
      if !VerifyBankSignature(debit, env.bankKey) || debit.payload.requestId != runs[id].record.request.requestId {
        MoveAndSuspend(id, Rejected, Finished, outside);
        return;
      }
      OnGoodDebit(id, debit, outside);
    }

    method OnDebitReply(env: Env, id: Text, answer: BankAnswer, ghost outside: Outside)
      requires Valid() && id in runs && runs[id].at.DebitReply?
      modifies this, runs[id].record
      ensures Valid() && Records() == old(Records())
      ensures View(outside) == Step(env, old(View(outside)), DebitReplied(id, answer))
    {
      hide Step, PipelineRecord.View, OnDebit, Heard, Transition, MeterService.Valid, MeterService.View, Valid;
      StepIsResume(env, View(outside), id, DebitReplied(id, answer));
      TakeAnswer(env, id, answer, outside);
      NoteAnswer(id, answer, outside);
    }

    method HoldPublication(id: Text, requestTxHash: Text, ghost outside: Outside)
      requires Valid() && id in runs
      modifies this`runs, runs[id].record
      ensures Valid() && Records() == old(Records())
      ensures View(outside) ==
              Put(old(View(outside)), id,
                  PipelineRun(Transition(old(runs[id].record.View()).(publication := Some(requestTxHash)), Published),
                              ApproverPoll))
    {
      hide PipelineRecord.View;
      runs[id].record.SetPublication(requestTxHash);
      runs[id].record.MoveTo(Published);
      runs := runs[id := runs[id].(at := ApproverPoll)];
      OneRunChanged(id);
    }

    method OnPublishReply(env: Env, id: Text, requestTxHash: Option<Text>, ghost outside: Outside)
      requires Valid() && id in runs && runs[id].at.PublishReply?
      modifies this, runs[id].record
      ensures Valid() && Records() == old(Records())
      ensures View(outside) == Step(env, old(View(outside)), PublishReplied(id, requestTxHash))
    {
      hide Step, PipelineRecord.View, Abandon, Transition, Valid;
      StepIsResume(env, View(outside), id, PublishReplied(id, requestTxHash));
      if requestTxHash.None? {
        AbandonRun(id, outside);
        return;
      }
      HoldPublication(id, requestTxHash.value, outside);
    }

    method OnApproverPoll(env: Env, id: Text, online: seq<SignerInfo>, ghost outside: Outside)
      requires Valid() && id in runs && runs[id].at.ApproverPoll?
      modifies this, runs[id].record
      ensures Valid() && Records() == old(Records())
      ensures View(outside) == Step(env, old(View(outside)), ApproversPolled(id, online))
    {
      hide Step, PipelineRecord.View, Abandon;
      StepIsResume(env, View(outside), id, ApproversPolled(id, online));
      if |online| < env.threshold {
        AbandonRun(id, outside);
        return;
      }
      Suspend(id, ApprovalsRead, outside);
    }

    /** Keep the approvals read, without an await. */
    method HoldApprovals(id: Text, n: nat, ghost outside: Outside)
      requires Valid() && id in runs
      modifies runs[id].record
      ensures Valid() && runs[id].record.View() == old(runs[id].record.View()).(approvals := Some(n))
      ensures View(outside) == Put(old(View(outside)), id, PipelineRun(runs[id].record.View(), runs[id].at))
    {
      hide PipelineRecord.View;
      runs[id].record.SetApprovals(n);
      OneRunChanged(id);
    }

    method TakeCount(env: Env, id: Text, approveCount: nat, ghost outside: Outside)
      requires Valid() && id in runs
      modifies this, runs[id].record
      ensures Valid() && Records() == old(Records())
      ensures View(outside) == OnCounted(env, old(View(outside)), id, old(runs[id].record.View()), approveCount)
    {
      hide PipelineRecord.View, Abandon, Transition, Valid;
      HoldApprovals(id, approveCount, outside);
      ghost var counted := runs[id].record.View();
      OverwriteRun(old(View(outside)), id, RunsView()[id], counted,
                   PipelineRun(Transition(counted, Approved), OnlinePoll));
      assert View(outside) == Put(old(View(outside)), id, RunsView()[id]);
      assert Abandon(View(outside), id, counted) == Abandon(old(View(outside)), id, counted);
      if approveCount < env.quorum {
        AbandonRun(id, outside);
        return;
      }
      MoveAndSuspend(id, Approved, OnlinePoll, outside);
    }

    /** The approvals come from a scan of what the ledger showed when it was read; a
        scan that throws ends in the pipeline's catch-all. */
    method OnApprovals(env: Env, id: Text, asOf: nat, window: seq<Tx>, ghost outside: Outside)
      requires Valid() && id in runs && runs[id].at.ApprovalsRead? && window == Seen(outside.ledger, asOf)
      modifies this, runs[id].record
      ensures Valid() && Records() == old(Records())
      ensures View(outside) == Step(env, old(View(outside)), ApprovalsCounted(id, asOf))
    {
      hide Step, PipelineRecord.View, OnCounted, Backstop, HashRequest, Approvers, Window, Seen, CountSeen,
        ReadThrows, Transition, MeterService.Valid, MeterService.View;
      runs[id].record.Fields();
      StepIsResume(env, View(outside), id, ApprovalsCounted(id, asOf));
      SeenCount(env, outside.ledger, asOf, runs[id].record.request);
      var approveCount := CountApproving(env, runs[id].record.request, window);
      if approveCount.None? {
        TakeThrow(id, outside);
      } else {
        TakeCount(env, id, approveCount.value, outside);
      }
    }

    method OnSignerPoll(env: Env, id: Text, online: seq<SignerInfo>, ghost outside: Outside)
      requires Valid() && id in runs && runs[id].at.OnlinePoll?
      modifies this, runs[id].record
      ensures Valid() && Records() == old(Records())
      ensures View(outside) == Step(env, old(View(outside)), SignersPolled(id, online))
    {
      hide Step, PipelineRecord.View, Abandon, Pool, Valid;
      StepIsResume(env, View(outside), id, SignersPolled(id, online));
      if |online| < env.threshold {
        AbandonRun(id, outside);
        return;
      }
      Suspend(id, CeremonyReply(online, {}, 1), outside);
    }

    /** Hold the token and move to SIGNED, without an await. */
    method HoldToken(id: Text, token: Token, signerSet: seq<SignerId>, ghost outside: Outside)
      requires Valid() && id in runs
      modifies runs[id].record
      ensures Valid()
      ensures runs[id].record.View() ==
              Transition(old(runs[id].record.View()).(token := Some(token), signerSet := signerSet), Signed)
      ensures View(outside) == Put(old(View(outside)), id, PipelineRun(runs[id].record.View(), runs[id].at))
    {
      hide PipelineRecord.View;
      runs[id].record.SetToken(token, signerSet);
      runs[id].record.MoveTo(Signed);
      OneRunChanged(id);
    }

    method OnToken(env: Env, id: Text, token: Token, signerSet: seq<SignerId>, ghost outside: Outside)
      requires Valid() && id in runs
      modifies this, runs[id].record
      ensures Valid() && Records() == old(Records())
      ensures View(outside) == OnSigned(env, old(View(outside)), id, old(runs[id].record.View()), token, signerSet)
    {
      hide PipelineRecord.View, Abandon, VerifyTokenForMeter;
      HoldToken(id, token, signerSet, outside);
      ghost var signedRecord := runs[id].record.View();
      OverwriteRun(old(View(outside)), id, RunsView()[id], signedRecord, PipelineRun(signedRecord, ReceiptReply(None)));
      var check := meter.Check(env, token);
      assert View(outside) == Put(old(View(outside)), id, RunsView()[id]);
      assert Abandon(View(outside), id, signedRecord) == Abandon(old(View(outside)), id, signedRecord);
      if check != Accepted {
        AbandonRun(id, outside);
      } else {
        Suspend(id, ReceiptReply(None), outside);
      }
    }

    /** What the loop does with the outcome of a ceremony. */
    method TakeOutcome(env: Env, id: Text, replies: Replies, outcome: CeremonyOutcome, ghost outside: Outside)
      requires Valid() && id in runs && runs[id].at.CeremonyReply? && Ready(env, RunsView()[id])
      modifies this, runs[id].record
      ensures Valid() && Records() == old(Records())
      ensures View(outside) ==
              OnOutcome(env, old(View(outside)), id, old(runs[id].record.View()), old(runs[id].at), replies, outcome)
    {
      hide PipelineRecord.View, Abandon, OnSigned, TokenFor, Chosen, Pool, MeterService.Valid, MeterService.View, Valid;
      var at := runs[id].at;
      match outcome
      case TokenSigned(signature, signerSet) => TakeSignature(env, id, replies, signature, signerSet, outside);
      case Refused(who) =>
        var refused := at.refused + {who};
        if |Pool(at.online, refused)| < env.threshold {
          AbandonRun(id, outside);
        } else {
          Suspend(id, CeremonyReply(at.online, refused, at.ceremonies + 1), outside);
        }
      case _ => AbandonRun(id, outside);
    }

    /** The aggregate becomes the token. */
    method TakeSignature(env: Env, id: Text, replies: Replies, signature: Frost.Signature, signerSet: seq<SignerId>,
                         ghost outside: Outside)
      requires Valid() && id in runs && runs[id].at.CeremonyReply? && Ready(env, RunsView()[id])
      modifies this, runs[id].record
      ensures Valid() && Records() == old(Records())
      ensures View(outside) == OnOutcome(env, old(View(outside)), id, old(runs[id].record.View()), old(runs[id].at),
                                         replies,
                                         TokenSigned(signature, signerSet))
    {
      hide PipelineRecord.View, Abandon, OnSigned, TokenFor, Chosen, Pool, NoteCeremony, MeterService.Valid,
        MeterService.View, Valid;
      runs[id].record.Fields();
      ghost var at, record := runs[id].at, runs[id].record.View();
      NoteSigned(id, SignedCeremony(Chosen(at.online, at.refused, env.threshold), replies, signature), outside);
      assert runs[id].record.View() == record;
      OnToken(env, id, TokenFor(env, runs[id].record.debit.value), signerSet, outside);
    }

    /** One ceremony with the first members of the pool, then the loop goes on. */
    method OnCeremonyEnd(env: Env, id: Text, replies: Replies, ghost outside: Outside)
      requires Valid() && id in runs && runs[id].at.CeremonyReply? && Ready(env, RunsView()[id]) && Shaped(env, replies)
      modifies this, runs[id].record
      ensures Valid() && Records() == old(Records())
      ensures View(outside) == Step(env, old(View(outside)), CeremonyEnded(id, replies))
    {
      hide Step, PipelineRecord.View, OnOutcome, CeremonyOf, CeremonyResult, TokenMessage, Pool;
      runs[id].record.Fields();
      StepIsResume(env, View(outside), id, CeremonyEnded(id, replies));
      var at := runs[id].at;
      var chosen := Chosen(at.online, at.refused, env.threshold);
      var message := TokenMessage(env, runs[id].record.debit.value);
      var outcome := RunCeremony(env.suite, env.group, chosen, replies, message);
      ResultIsOutcome(env.suite, env.group, chosen, replies, message, outcome);
      TakeOutcome(env, id, replies, outcome, outside);
    }

    /** The receipt reaches the ledger; the coordinator still waits for the reply. */
    method OnReceiptSubmitted(env: Env, id: Text, txHash: Text, ghost outside: Outside)
      requires Valid() && id in runs && runs[id].at == ReceiptReply(None)
      modifies this`runs
      ensures Valid() && Records() == old(Records())
      ensures View(outside.(receipts := outside.receipts[txHash := id])) ==
              Step(env, old(View(outside)), ReceiptSubmitted(id, txHash))
    {
      hide PipelineRecord.View, Resume, MeterService.Valid, MeterService.View;
      Suspend(id, ReceiptReply(Some(txHash)), outside);
    }

    /** Hold the receipt, audit it and move to RECORDED, without an await. */
    method HoldReceipt(id: Text, ledger: LedgerRecord, ghost outside: Outside)
      requires Valid() && id in runs
      modifies this`audit, runs[id].record
      ensures Valid()
      ensures runs[id].record.View() == Transition(old(runs[id].record.View()).(ledger := Some(ledger)), Recorded)
      ensures View(outside) ==
              Put(old(View(outside)), id, PipelineRun(runs[id].record.View(), runs[id].at))
              .(audit := [ledger] + old(audit))
    {
      hide PipelineRecord.View;
      runs[id].record.SetLedger(ledger);
      audit := [ledger] + audit;
      runs[id].record.MoveTo(Recorded);
      OneRunChanged(id);
    }

    /** The token is dispensed and the run ends. */
    method FinishDelivered(id: Text, dispensedKwh: Number, ghost outside: Outside)
      requires Valid() && id in runs
      modifies this`runs, runs[id].record
      ensures Valid() && Records() == old(Records())
      ensures View(outside) ==
              Put(old(View(outside)), id,
                  PipelineRun(Transition(old(runs[id].record.View()).(dispensedKwh := Some(dispensedKwh)), Delivered),
                              Finished))
    {
      hide PipelineRecord.View;
      runs[id].record.SetDispensed(dispensedKwh);
      runs[id].record.MoveTo(Delivered);
      runs := runs[id := runs[id].(at := Finished)];
      OneRunChanged(id);
    }

    /** The meter is handed the token. */
    method PresentToken(env: Env, token: Token, ghost outside: Outside) returns (delivery: DeliveryResult)
      requires Valid()
      modifies meter
      ensures Valid() && RunsView() == old(RunsView()) && delivery == DeliverToken(env, old(meter.View()), token).1
      ensures View(outside) == old(View(outside)).(meter := DeliverToken(env, old(meter.View()), token).0)
    {
      hide PipelineRecord.View, DeliverToken, MeterService.Valid, MeterService.View;
      delivery := meter.Deliver(env, token);
      assert RunsView() == old(RunsView());
    }

    method OnRecorded(env: Env, id: Text, token: Token, ledger: LedgerRecord, ghost outside: Outside)
      requires Valid() && id in runs
      modifies this, meter, runs[id].record
      ensures Valid() && Records() == old(Records())
      ensures View(outside) ==
              OnConfirmedReceipt(env, old(View(outside)), id, old(runs[id].record.View()), token, ledger)
    {
      hide PipelineRecord.View, Abandon, DeliverToken, Transition, MeterService.Valid, MeterService.View, Valid;
      HoldReceipt(id, ledger, outside);
      ghost var st, recorded := old(View(outside)).(audit := audit), RunsView()[id];
      var delivery := PresentToken(env, token, outside);
      ghost var st' := st.(meter := meter.View());
      assert View(outside) == Put(st', id, recorded);
      if delivery != Accepted {
        RefusedUnchanged(env, st.meter, token);
        OverwriteRun(st, id, recorded, recorded.record, recorded);
        AbandonRun(id, outside);
      } else {
        FinishDelivered(id, token.payload.amountKwh, outside);
        OverwriteRun(st', id, recorded, recorded.record, RunsView()[id]);
      }
    }

    method OnReceiptReply(env: Env, id: Text, ok: bool, ghost outside: Outside)
      requires Valid() && id in runs && runs[id].at.ReceiptReply? && Ready(env, RunsView()[id])
      modifies this, meter, runs[id].record
      ensures Valid() && Records() == old(Records())
      ensures View(outside) == Step(env, old(View(outside)), ReceiptReplied(id, ok))
    {
      hide Step, PipelineRecord.View, Abandon, Receipt, OnConfirmedReceipt, Valid;
      var record, submitted := runs[id].record, runs[id].at.submitted;
      record.Fields();
      StepIsResume(env, View(outside), id, ReceiptReplied(id, ok));
      if !ok || submitted.None? {
        AbandonRun(id, outside);
        return;
      }
      OnRecorded(env, id, record.token.value, Receipt(env, record.View(), submitted.value), outside);
    }

    method OnReversalReply(env: Env, id: Text, ok: bool, ghost outside: Outside)
      requires Valid() && id in runs && runs[id].at.ReversalReply?
      modifies this, runs[id].record
      ensures Valid() && Records() == old(Records())
      ensures View(outside) == Step(env, old(View(outside)), ReversalReplied(id, ok))
    {
      hide Step, PipelineRecord.View, FinishAbandoned;
      StepIsResume(env, View(outside), id, ReversalReplied(id, ok));
      EndAbandoned(id, ok, outside);
    }

    /** What the catch-all of the pipeline does. */
    method TakeThrow(id: Text, ghost outside: Outside)
      requires Valid() && id in runs
      modifies this, runs[id].record
      ensures Valid() && Records() == old(Records())
      ensures View(outside) == Backstop(old(View(outside)), id, old(RunsView()[id]))
    {
      hide PipelineRecord.View, Abandon, FinishAbandoned, Valid;
      var record := runs[id].record;
      record.Fields();
      if Terminal(record.status) {
        return;
      }
      if runs[id].at.ReversalReply? {
        EndAbandoned(id, false, outside);
      } else if record.debit.Some? {
        AbandonRun(id, outside);
      } else {
        MoveAndSuspend(id, Rejected, Finished, outside);
      }
    }

    /** The awaited call of a run throws. */
    method OnThrow(env: Env, id: Text, ghost outside: Outside)
      requires Valid() && id in runs && !runs[id].at.Finished? && Ready(env, RunsView()[id])
      modifies this, runs[id].record
      ensures Valid() && Records() == old(Records())
      ensures View(outside) == Step(env, old(View(outside)), CallThrew(id))
    {
      hide Step, PipelineRecord.View, Backstop, Heard, Transition, MeterService.Valid, MeterService.View, Valid;
      StepIsResume(env, View(outside), id, CallThrew(id));
      ghost var atDebit := runs[id].at.DebitReply?;
      TakeThrow(id, outside);
      if atDebit {
        NoteAnswer(id, NoReply, outside);
      }
    }
  }

  /** The newest id first, and at most as many as are kept. */
  lemma PutFirst(order: seq<Text>, id: Text)
    requires Distinct(order) && id !in order && |order| <= REQUEST_CAP
    ensures Distinct([id] + order) && Distinct(Retain(order, id)) && |Retain(order, id)| <= REQUEST_CAP
    ensures Retain(order, id) == if |[id] + order| > REQUEST_CAP then ([id] + order)[..REQUEST_CAP] else [id] + order
  {
  }

  lemma SeenCount(env: Env, ledger: seq<Tx>, asOf: nat, request: Request)
    ensures CountSeen(env, ledger, asOf, request) ==
            |Approvers(Seen(ledger, asOf), env.members, HashRequest(env, request))|
  {
    hide HashRequest, Approvers, Window;
  }

  /** Reading the members' verdicts and counting the approvals. */
  method CountApproving(env: Env, request: Request, window: seq<Tx>) returns (n: Option<nat>)
    ensures n == if ReadThrows(window, env.members) then None
                 else Some(|Approvers(window, env.members, HashRequest(env, request))|)
  {
    hide HashRequest, Newest, ReadThrows;
    var requestHash := HashRequest(env, request);
    var scanned := ReadApprovals(window, env.members, requestHash);
    if scanned.None? {
      return None;
    }
    var approvals := scanned.value;
    var approving := set s | s in approvals && approvals[s].verdict == Approve;
    ApproversRead(approvals, window, env.members, requestHash);
    return Some(|approving|);
  }

  /** What a run held before it is put again does not matter. */
  lemma OverwriteRun(st: State, id: Text, before: PipelineRun, r: Record, run: PipelineRun)
    ensures Abandon(st.(runs := st.runs[id := before]), id, r) == Abandon(st, id, r)
    ensures Put(st.(runs := st.runs[id := before]), id, run) == Put(st, id, run)
  {
    hide FinishAbandoned;
    assert st.runs[id := before][id := run] == st.runs[id := run];
    assert st.runs[id := before][id := PipelineRun(r, ReversalReply)] == st.runs[id := PipelineRun(r, ReversalReply)];
    assert st.runs[id := before][id := FinishAbandoned(r, false)] == st.runs[id := FinishAbandoned(r, false)];
  }

  datatype Tally = Tally(tokens: nat, deliveredDebitRefs: set<Text>, deliveredTxHashes: set<Text>,
                         stuckDebitRefs: set<Text>)

  function TallyOf(rs: map<Text, Record>, ids: set<Text>): Tally {
    Tally(|TokenIds(rs, ids)|, DeliveredRefs(rs, ids), DeliveredTxs(rs, ids), StuckRefs(rs, ids))
  }

  function Counted(t: Tally, r: Record): Tally {
    Tally(t.tokens + (if CountsToken(r) then 1 else 0),
          t.deliveredDebitRefs + (if CountsDebit(r) then {r.debit.value.payload.debitRef} else {}),
          t.deliveredTxHashes + (if CountsReceipt(r) then {r.ledger.value.txHash} else {}),
          t.stuckDebitRefs + (if Stuck(r) then {r.debit.value.payload.debitRef} else {}))
  }

  /** Counting one more record is counting one more member of the sets. */
  lemma CountRecord(rs: map<Text, Record>, left: set<Text>, id: Text)
    requires id in rs && id in left && left <= rs.Keys
    ensures TallyOf(rs, rs.Keys - (left - {id})) == Counted(TallyOf(rs, rs.Keys - left), rs[id])
  {
    hide TokenIds, DeliveredRefs, DeliveredTxs, StuckRefs, CountsToken, CountsDebit, CountsReceipt, Stuck;
    var done := rs.Keys - left;
    assert rs.Keys - (left - {id}) == done + {id};
    CountToken(rs, done, id);
    CountDebit(rs, done, id);
    CountReceipt(rs, done, id);
    CountStuck(rs, done, id);
  }

  lemma NoneCounted(rs: map<Text, Record>)
    ensures TallyOf(rs, {}) == Tally(0, {}, {}, {})
  {
    assert TokenIds(rs, {}) == {};
  }

  /** What one more record adds to each count. */
  lemma CountToken(rs: map<Text, Record>, done: set<Text>, id: Text)
    requires id in rs && id !in done
    ensures |TokenIds(rs, done + {id})| == |TokenIds(rs, done)| + if CountsToken(rs[id]) then 1 else 0
  {
    assert TokenIds(rs, done + {id}) == TokenIds(rs, done) + (if CountsToken(rs[id]) then {id} else {});
    assert id !in TokenIds(rs, done);
  }

  lemma CountDebit(rs: map<Text, Record>, done: set<Text>, id: Text)
    requires id in rs
    ensures DeliveredRefs(rs, done + {id}) ==
            DeliveredRefs(rs, done) + (if CountsDebit(rs[id]) then {rs[id].debit.value.payload.debitRef} else {})
  {
    forall x
      ensures x in DeliveredRefs(rs, done + {id}) <==>
              x in DeliveredRefs(rs, done) || (CountsDebit(rs[id]) && x == rs[id].debit.value.payload.debitRef)
    {
    }
  }

  lemma CountReceipt(rs: map<Text, Record>, done: set<Text>, id: Text)
    requires id in rs
    ensures DeliveredTxs(rs, done + {id}) ==
            DeliveredTxs(rs, done) + (if CountsReceipt(rs[id]) then {rs[id].ledger.value.txHash} else {})
  {
    forall x
      ensures x in DeliveredTxs(rs, done + {id}) <==>
              x in DeliveredTxs(rs, done) || (CountsReceipt(rs[id]) && x == rs[id].ledger.value.txHash)
    {
    }
  }

  lemma CountStuck(rs: map<Text, Record>, done: set<Text>, id: Text)
    requires id in rs
    ensures StuckRefs(rs, done + {id}) ==
            StuckRefs(rs, done) + (if Stuck(rs[id]) then {rs[id].debit.value.payload.debitRef} else {})
  {
    forall x
      ensures x in StuckRefs(rs, done + {id}) <==>
              x in StuckRefs(rs, done) || (Stuck(rs[id]) && x == rs[id].debit.value.payload.debitRef)
    {
    }
  }
}
