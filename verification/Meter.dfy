/** The simulated meter: signature, two replay sets and the credit
    (server/src/coordinator/meter.ts:14-47). */
module Meter {
  import opened Canonical
  import opened Types
  import opened Verify

  datatype Dispense = Dispense(meterId: Text, amountKwh: Number, debitRef: Text)

  datatype MeterState = MeterState(usedNonces: set<Text>, usedDebitRefs: set<Text>, dispensed: seq<Dispense>)

  datatype DeliveryResult = Accepted | Replay | SignatureInvalid

  const EMPTY_METER := MeterState({}, {}, [])

  /** The check that credits nothing. */
  function VerifyTokenForMeter(env: Env, st: MeterState, token: Token): DeliveryResult {
    if token.payload.nonce in st.usedNonces || token.payload.debitRef in st.usedDebitRefs then Replay
    else if token.signature != GroupSigned(Message(env, token.payload)) then SignatureInvalid
    else Accepted
  }

  function DeliverToken(env: Env, st: MeterState, token: Token): (MeterState, DeliveryResult) {
    var check := VerifyTokenForMeter(env, st, token);
    if check != Accepted then (st, check)
    else
      var p := token.payload;
      (MeterState(st.usedNonces + {p.nonce}, st.usedDebitRefs + {p.debitRef},
                  st.dispensed + [Dispense(p.meterId, p.amountKwh, p.debitRef)]), Accepted)
  }

  /** A refused token changes nothing. */
  lemma RefusedUnchanged(env: Env, st: MeterState, token: Token)
    ensures DeliverToken(env, st, token).1 != Accepted ==> DeliverToken(env, st, token).0 == st
  {
  }

  ghost predicate MeterInvariant(st: MeterState) {
    && (forall i, j :: 0 <= i < j < |st.dispensed| ==> st.dispensed[i].debitRef != st.dispensed[j].debitRef)
    && (forall ref ::
          ref in st.usedDebitRefs <==> exists i :: 0 <= i < |st.dispensed| && st.dispensed[i].debitRef == ref)
  }

  /** However often and with whatever tokens the meter is called, it dispenses at
      most once per debit reference. */
  lemma DeliverKeepsInvariant(env: Env, st: MeterState, token: Token)
    requires MeterInvariant(st)
    ensures MeterInvariant(DeliverToken(env, st, token).0)
  {
    var st' := DeliverToken(env, st, token).0;
    forall ref
      ensures ref in st'.usedDebitRefs <==> exists i :: 0 <= i < |st'.dispensed| && st'.dispensed[i].debitRef == ref
    {
      if i :| 0 <= i < |st.dispensed| && st.dispensed[i].debitRef == ref {
        assert st'.dispensed[i].debitRef == ref;
      }
      if st' != st && ref == token.payload.debitRef {
        assert st'.dispensed[|st.dispensed|].debitRef == ref;
      }
    }
  }

  /** Kilowatt-hours dispensed to one meter so far; rounding of balances is left out. */
  function MeterKwh(ds: seq<Dispense>, meterId: Text): Number {
    if ds == [] then 0
    else MeterKwh(ds[..|ds| - 1], meterId) + if ds[|ds| - 1].meterId == meterId then ds[|ds| - 1].amountKwh else 0
  }

  datatype Balance = Balance(balanceKwh: Number, dispenses: nat)

  class MeterService {
    var usedNonces: set<Text>
    var usedDebitRefs: set<Text>
    var meters: map<Text, Balance>
    ghost var dispensed: seq<Dispense>

    /** A meter's balance is the sum of what was dispensed to it. */
    ghost predicate Valid()
      reads this
    {
      && MeterInvariant(View())
      && (forall m :: m in meters ==> meters[m].balanceKwh == MeterKwh(dispensed, m))
      && (forall m :: m !in meters ==> MeterKwh(dispensed, m) == 0)
    }

    ghost function View(): MeterState
      reads this
    {
      MeterState(usedNonces, usedDebitRefs, dispensed)
    }

    constructor ()
      ensures Valid() && View() == EMPTY_METER
    {
      usedNonces, usedDebitRefs, meters, dispensed := {}, {}, map[], [];
    }

    method Check(env: Env, token: Token) returns (r: DeliveryResult)
      ensures r == VerifyTokenForMeter(env, View(), token)
    {
      if token.payload.nonce in usedNonces || token.payload.debitRef in usedDebitRefs {
        return Replay;
      }
      if token.signature != GroupSigned(Message(env, token.payload)) {
        return SignatureInvalid;
      }
      return Accepted;
    }

    method Deliver(env: Env, token: Token) returns (r: DeliveryResult)
      requires Valid()
      modifies this
      ensures Valid() && (View(), r) == DeliverToken(env, old(View()), token)
    {
      DeliverKeepsInvariant(env, View(), token);
      var check := Check(env, token);
      if check != Accepted {
        return check;
      }
      var p := token.payload;
      usedNonces := usedNonces + {p.nonce};
      usedDebitRefs := usedDebitRefs + {p.debitRef};
      CreditMeter(p.meterId, p.amountKwh, p.debitRef);
      return Accepted;
    }

    method CreditMeter(meterId: Text, amountKwh: Number, ghost debitRef: Text)
      requires forall m :: m in meters ==> meters[m].balanceKwh == MeterKwh(dispensed, m)
      requires forall m :: m !in meters ==> MeterKwh(dispensed, m) == 0
      modifies this`meters, this`dispensed
      ensures dispensed == old(dispensed) + [Dispense(meterId, amountKwh, debitRef)]
      ensures forall m :: m in meters ==> meters[m].balanceKwh == MeterKwh(dispensed, m)
      ensures forall m :: m !in meters ==> MeterKwh(dispensed, m) == 0
    {
      var meter := if meterId in meters then meters[meterId] else Balance(0, 0);
      ghost var before := dispensed;
      dispensed := dispensed + [Dispense(meterId, amountKwh, debitRef)];
      assert dispensed[..|before|] == before;
      meters := meters[meterId := Balance(meter.balanceKwh + amountKwh, meter.dispenses + 1)];
    }
  }
}
