/** The coordinator, the bank and the ledger together, as objects changed in place:
    playing events on them is running the machine, so what is proved of the
    machine's reachable states holds of them. */
module Deployment {
  import opened Approvals
  import opened Bank
  import opened Canonical
  import opened Coordinator
  import opened Meter
  import opened Pipeline
  import opened PipelineInvariant
  import opened PipelineRuns
  import opened PipelineTheorems
  import opened PipelineWitnesses
  import opened Reconciliation
  import opened Types
  import opened Wrappers

  class Services {
    const store: Store
    const bank: BankService
    var ledger: seq<Tx>
    var receipts: map<Text, Text>

    ghost predicate Valid()
      reads this, store, store.Records(), store.meter, bank, bank.debitLog
    {
      store.Valid() && bank.Valid()
    }

    ghost function Surroundings(): Outside
      reads this, bank, bank.debitLog
    {
      Outside(bank.View(), ledger, receipts)
    }

    ghost function View(): State
      reads this, store, store.Records(), store.meter, bank, bank.debitLog
    {
      store.View(Surroundings())
    }

    /** What a step allocates and changes is this system's own. */
    twostate predicate OnlyOwn()
      reads this, store, store.Records(), bank
    {
      && fresh(store.Records() - old(store.Records()))
      && forall e :: e in bank.debitLog ==> e in old(bank.debitLog) || fresh(e)
    }

    constructor ()
      ensures Valid() && View() == IDLE
      ensures fresh(store) && fresh(store.meter) && fresh(bank) && store.Records() == {} && bank.debitLog == []
    {
      store := new Store();
      bank := new BankService();
      ledger, receipts := [], map[];
      new;
      assert View().runs == map[];
    }

    method HandleBank(env: Env, ev: BankEvent)
      requires Valid() && (ev.Debited? ==> FreshRef(bank.View(), ev.debitRef))
      modifies bank, bank.debitLog
      ensures Valid() && View() == BankActs(env, old(View()), ev) && OnlyOwn()
    {
      hide BankService.Valid, BankService.View, Store.Valid, Store.RunsView, MeterService.View, HandleDebit,
        HandleReverse, FreshRef;
      ghost var records: set<object> := store.Records();
      assert forall e :: e in bank.debitLog ==> (e as object) !in records;
      match ev
      case SetMode(mode) => bank.SetMode(mode);
      case Debited(req, debitRef, at) => var reply := bank.PostDebit(env.bankKey, req, debitRef, at);
      case Reversed(debitRef) => var ok := bank.PostReverse(debitRef);
    }

    method HandleRequest(env: Env, request: Request, admitted: bool, merchantOk: bool)
      requires Valid()
      modifies store
      ensures Valid() && View() == Step(env, old(View()), Requested(request, admitted, merchantOk)) && OnlyOwn()
    {
      hide BankService.Valid, BankService.View, Store.Valid, Store.View, Step;
      var status := store.PostRequest(env, request, admitted, merchantOk, Surroundings());
    }

    /** The reply to the call a run awaits. */
    method HandleReply(env: Env, ev: PipelineEvent)
      requires Valid() && AtRun(ev) && ev.id in store.runs && Answers(env, ev, store.runs[ev.id].at)
      requires Ready(env, store.RunsView()[ev.id])
      modifies store, store.meter, store.runs[ev.id].record
      ensures Valid() && View() == Step(env, old(View()), ev) && OnlyOwn()
    {
      hide BankService.Valid, BankService.View, Store.Valid, Store.View, Step, Shaped, Window, Ready;
      ghost var outside := Surroundings();
      match ev
      case PreflightPolled(id, online) => store.OnPreflight(env, id, online, outside);
      case DebitReplied(id, answer) => store.OnDebitReply(env, id, answer, outside);
      case PublishReplied(id, tx) => store.OnPublishReply(env, id, tx, outside);
      case ApproversPolled(id, online) => store.OnApproverPoll(env, id, online, outside);
      case ApprovalsCounted(id, asOf) => store.OnApprovals(env, id, asOf, Seen(ledger, asOf), outside);
      case SignersPolled(id, online) => store.OnSignerPoll(env, id, online, outside);
      case CeremonyEnded(id, replies) => store.OnCeremonyEnd(env, id, replies, outside);
      case ReceiptReplied(id, ok) => store.OnReceiptReply(env, id, ok, outside);
      case ReversalReplied(id, ok) => store.OnReversalReply(env, id, ok, outside);
      case CallThrew(id) => store.OnThrow(env, id, outside);
    }

    /** A receipt reaches the ledger; the store's run may still be waiting for it. */
    method HandleSubmission(env: Env, id: Text, txHash: Text)
      requires Valid() && id in store.runs
      modifies this`receipts, store
      ensures Valid() && View() == Step(env, old(View()), ReceiptSubmitted(id, txHash)) && OnlyOwn()
    {
      hide BankService.Valid, BankService.View, Store.Valid, Step, PipelineRecord.View, MeterService.View;
      ghost var outside := Surroundings();
      if store.runs[id].at == ReceiptReply(None) {
        store.OnReceiptSubmitted(env, id, txHash, outside);
      } else {
        LateSubmission(env, View(), id, txHash);
      }
      receipts := receipts[txHash := id];
      assert store.Records() == old(store.Records()) && store.Valid();
    }

    /** An event at a run, if the run awaits it. */
    method HandleAtRun(env: Env, ev: PipelineEvent)
      requires Valid() && Invariant(env, View()) && AtRun(ev)
      modifies this, store, store.Records(), store.meter
      ensures Valid() && View() == Step(env, old(View()), ev) && OnlyOwn()
    {
      hide BankService.Valid, BankService.View, Store.Valid, Step, Invariant, Answers, Ready;
      if ev.id !in store.runs {
        NotStarted(env, View(), ev);
        return;
      }
      RunIsReady(env, View(), ev.id);
      if ev.ReceiptSubmitted? {
        HandleSubmission(env, ev.id, ev.txHash);
      } else if Answers(env, ev, store.runs[ev.id].at) {
        HandleReply(env, ev);
      } else {
        NotAwaited(env, View(), ev);
      }
    }

    method Handle(env: Env, ev: PipelineEvent)
      requires Valid() && Invariant(env, View()) && Allows(env, View(), ev)
      modifies this, store, store.Records(), store.meter, bank, bank.debitLog
      ensures Valid() && View() == Step(env, old(View()), ev) && OnlyOwn()
    {
      hide BankService.Valid, BankService.View, Store.Valid, StepRun, OnRequested, Invariant, FreshRef, FreshNonce,
        RunAllows, DebitCall;
      match ev
      case AtBank(bankEvent) => HandleBank(env, bankEvent);
      case Posted(tx) => ledger := ledger + [tx];
      case Requested(request, admitted, merchantOk) => HandleRequest(env, request, admitted, merchantOk);
      case DebitHandled(id, debitRef, at) =>
        if id in store.runs {
          store.runs[id].record.Fields();
          HandleBank(env, Debited(DebitCall(env, store.runs[id].record.request), debitRef, at));
        }
      case _ => HandleAtRun(env, ev);
    }

    /** The divergence monitor, in any state the services can get to. */
    method Monitor(env: Env, ghost evs: seq<PipelineEvent>) returns (report: Report)
      requires Valid() && Reachable(env, evs, View())
      ensures report == Report(|DeliveredIds(View())|, |DeliveredIds(View())| + |StuckIds(View())|,
                               |DeliveredIds(View())|, |StuckIds(View())|)
    {
      hide Reachable, BankService.Valid, BankService.View, Reconcile, Retained, DeliveredIds, StuckIds, Store.View,
        Store.Valid, Store.RetainedView;
      ghost var st := View();
      DeltaIsStuck(env, evs, st);
      report := store.ComputeReconciliation();
      assert store.Records() == old(store.Records()) && Surroundings() == old(Surroundings());
      assert View() == st;
      store.RetainedIsView(Surroundings());
    }
  }

  lemma LateSubmission(env: Env, st: State, id: Text, txHash: Text)
    requires id in st.runs && st.runs[id].at != ReceiptReply(None)
    ensures Step(env, st, ReceiptSubmitted(id, txHash)) ==
            st.(outside := st.outside.(receipts := st.outside.receipts[txHash := id]))
  {
  }

  lemma NotStarted(env: Env, st: State, ev: PipelineEvent)
    requires AtRun(ev) && ev.id !in st.runs
    ensures Step(env, st, ev) == st
  {
  }

  lemma NotAwaited(env: Env, st: State, ev: PipelineEvent)
    requires AtRun(ev) && ev.id in st.runs && !Answers(env, ev, st.runs[ev.id].at)
    requires !ev.ReceiptSubmitted?
    ensures Step(env, st, ev) == st
  {
    hide Answers, Resume, Ready;
  }

  /** Events played one after the other on new services end in the machine's state. */
  method Play(env: Env, evs: seq<PipelineEvent>) returns (services: Services)
    requires AllAllow(env, IDLE, evs)
    ensures fresh(services) && services.Valid() && services.View() == Proceed(env, IDLE, evs)
  {
    hide Invariant, Step, Allows, BankService.Valid, BankService.View, Store.Valid, Store.View;
    services := new Services();
    IdleInvariant(env);
    assert evs[..0] == [];
    for i := 0 to |evs|
      invariant fresh(services) && fresh(services.store) && fresh(services.store.meter) && fresh(services.bank)
      invariant fresh(services.store.Records()) && fresh(set e | e in services.bank.debitLog)
      invariant services.Valid() && Invariant(env, services.View())
      invariant services.View() == Proceed(env, IDLE, evs[..i])
    {
      NextEvent(env, evs, i);
      StepKeeps(env, services.View(), evs[i]);
      services.Handle(env, evs[i]);
    }
    assert evs[..|evs|] == evs;
  }

  lemma NextEvent(env: Env, evs: seq<PipelineEvent>, i: nat)
    requires AllAllow(env, IDLE, evs) && i < |evs|
    ensures Allows(env, Proceed(env, IDLE, evs[..i]), evs[i])
    ensures Proceed(env, IDLE, evs[..i + 1]) == Step(env, Proceed(env, IDLE, evs[..i]), evs[i])
  {
    hide Step, Allows, Proceed, AllAllow;
    assert evs == evs[..i + 1] + evs[i + 1..] && evs[..i + 1] == evs[..i] + [evs[i]];
    ProceedAppend(env, IDLE, evs[..i + 1], evs[i + 1..]);
    ProceedStep(env, IDLE, evs[..i], evs[i]);
  }
}
