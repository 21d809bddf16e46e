/** The per-merchant sliding-window limiter
    (server/src/coordinator/index.ts:30-45). */
module RateLimit {

  const RATE_WINDOW_MS := 10_000
  const RATE_MAX_PER_WINDOW := 20

  /** A call: who, and the clock reading. */
  datatype Call = Call(merchant: string, now: int)

  type Hits = map<string, seq<int>>

  /** The times after a cutoff, in order. */
  function After(ts: seq<int>, cutoff: int): seq<int> {
    if ts == [] then []
    else After(ts[..|ts| - 1], cutoff) + if ts[|ts| - 1] > cutoff then [ts[|ts| - 1]] else []
  }

  function Kept(hits: Hits, c: Call): seq<int> {
    After(if c.merchant in hits then hits[c.merchant] else [], c.now - RATE_WINDOW_MS)
  }

  function Accepts(hits: Hits, c: Call): bool {
    |Kept(hits, c)| < RATE_MAX_PER_WINDOW
  }

  function NextHits(hits: Hits, c: Call): Hits {
    hits[c.merchant := Kept(hits, c) + if Accepts(hits, c) then [c.now] else []]
  }

  /** The pruned table after a sequence of calls. */
  function HitsAfter(calls: seq<Call>): Hits {
    if calls == [] then map[] else NextHits(HitsAfter(calls[..|calls| - 1]), calls[|calls| - 1])
  }

  /** Every accepted time of one merchant, never pruned. */
  ghost function AcceptedTimes(calls: seq<Call>, merchant: string): seq<int> {
    if calls == [] then []
    else
      var front, c := calls[..|calls| - 1], calls[|calls| - 1];
      AcceptedTimes(front, merchant) + if c.merchant == merchant && Accepts(HitsAfter(front), c) then [c.now] else []
  }

  ghost predicate ClockNonDecreasing(calls: seq<Call>) {
    forall i, j :: 0 <= i < j < |calls| ==> calls[i].now <= calls[j].now
  }

  lemma {:induction false} AfterAppend(ts: seq<int>, us: seq<int>, cutoff: int)
    ensures After(ts + us, cutoff) == After(ts, cutoff) + After(us, cutoff)
  {
    if us == [] {
      assert ts + us == ts;
    } else {
      assert (ts + us)[..|ts + us| - 1] == ts + us[..|us| - 1];
      AfterAppend(ts, us[..|us| - 1], cutoff);
    }
  }

  /** Pruning earlier loses nothing that a later cutoff keeps. */
  lemma {:induction false} AfterAfter(ts: seq<int>, early: int, late: int)
    requires early <= late
    ensures After(After(ts, early), late) == After(ts, late)
  {
    if ts != [] {
      var front, t := ts[..|ts| - 1], ts[|ts| - 1];
      AfterAfter(front, early, late);
      AfterAppend(After(front, early), if t > early then [t] else [], late);
      assert After([t], late) == if t > late then [t] else [];
    }
  }

  /** The table holds, for each merchant that has called, its accepted times
      after some cutoff at or before the clock less the window. */
  ghost predicate Tracks(hits: Hits, calls: seq<Call>, merchant: string) {
    if merchant in hits then
      exists cutoff :: TracksFrom(hits, calls, merchant, cutoff)
    else AcceptedTimes(calls, merchant) == []
  }

  ghost predicate TracksFrom(hits: Hits, calls: seq<Call>, merchant: string, cutoff: int)
    requires merchant in hits
  {
    && calls != [] && cutoff <= calls[|calls| - 1].now - RATE_WINDOW_MS
    && hits[merchant] == After(AcceptedTimes(calls, merchant), cutoff)
  }

  lemma NoCalls(merchant: string)
    ensures HitsAfter([]) == map[] && AcceptedTimes([], merchant) == []
  {
  }

  /** One more call, seen by the table and by the full history. */
  lemma OneMore(calls: seq<Call>, c: Call, merchant: string)
    ensures HitsAfter(calls + [c]) == NextHits(HitsAfter(calls), c)
    ensures AcceptedTimes(calls + [c], merchant) ==
            if c.merchant == merchant && Accepts(HitsAfter(calls), c)
            then AcceptedTimes(calls, merchant) + [c.now] else AcceptedTimes(calls, merchant)
    ensures ClockNonDecreasing(calls + [c]) ==>
              ClockNonDecreasing(calls) && (calls != [] ==> calls[|calls| - 1].now <= c.now)
  {
    var all := calls + [c];
    assert all[..|all| - 1] == calls;
    assert forall i :: 0 <= i < |calls| ==> all[i] == calls[i];
    if calls != [] {
      assert all[|calls| - 1].now <= all[|calls|].now || !ClockNonDecreasing(all);
    }
  }

  lemma {:induction false} TableTracks(calls: seq<Call>, merchant: string)
    requires ClockNonDecreasing(calls)
    ensures Tracks(HitsAfter(calls), calls, merchant)
    decreases |calls|, 0
  {
    hide ClockNonDecreasing, HitsAfter, AcceptedTimes, After;
    if calls == [] {
      NoCalls(merchant);
    } else {
      var front, c := calls[..|calls| - 1], calls[|calls| - 1];
      var before := HitsAfter(front);
      assert calls == front + [c];
      OneMore(front, c, merchant);
      TableTracks(front, merchant);
      if c.merchant == merchant {
        KeptIsRecent(front, c);
        KeepsNow(AcceptedTimes(front, merchant), c.now);
        assert TracksFrom(HitsAfter(calls), calls, merchant, c.now - RATE_WINDOW_MS);
      } else if merchant in before {
        var cutoff :| TracksFrom(before, front, merchant, cutoff);
        assert TracksFrom(HitsAfter(calls), calls, merchant, cutoff);
      }
    }
  }

  lemma KeepsNow(ts: seq<int>, now: int)
    ensures After(ts + [now], now - RATE_WINDOW_MS) == After(ts, now - RATE_WINDOW_MS) + [now]
  {
    assert (ts + [now])[..|ts|] == ts;
  }

  /** What the prune keeps is exactly what was accepted within the window. */
  lemma {:induction false} KeptIsRecent(calls: seq<Call>, c: Call)
    requires ClockNonDecreasing(calls + [c])
    ensures Kept(HitsAfter(calls), c) == After(AcceptedTimes(calls, c.merchant), c.now - RATE_WINDOW_MS)
    decreases |calls|, 1
  {
    hide ClockNonDecreasing, HitsAfter, AcceptedTimes;
    var hits := HitsAfter(calls);
    OneMore(calls, c, c.merchant);
    TableTracks(calls, c.merchant);
    if c.merchant in hits {
      var cutoff :| TracksFrom(hits, calls, c.merchant, cutoff);
      AfterAfter(AcceptedTimes(calls, c.merchant), cutoff, c.now - RATE_WINDOW_MS);
    }
  }

  /** Which of the times lie in the half-open window (end - 10000, end]. */
  ghost function Within(ts: seq<int>, end: int): set<nat> {
    set i: nat | i < |ts| && end - 10_000 < ts[i] <= end
  }

  /** Nothing accepted lies after the last call. */
  lemma {:induction false} AcceptedBefore(calls: seq<Call>, merchant: string, now: int)
    requires ClockNonDecreasing(calls) && forall i :: 0 <= i < |calls| ==> calls[i].now <= now
    ensures forall i :: 0 <= i < |AcceptedTimes(calls, merchant)| ==> AcceptedTimes(calls, merchant)[i] <= now
  {
    hide HitsAfter;
    if calls != [] {
      AcceptedBefore(calls[..|calls| - 1], merchant, now);
    }
  }

  /** What a prune keeps is as many as lie after the cutoff. */
  lemma {:induction false} AfterCounts(ts: seq<int>, cutoff: int)
    ensures |After(ts, cutoff)| == |set i: nat | i < |ts| && ts[i] > cutoff|
  {
    if ts != [] {
      var front, n := ts[..|ts| - 1], |ts| - 1;
      AfterCounts(front, cutoff);
      var before := set i: nat | i < |front| && front[i] > cutoff;
      assert (set i: nat | i < |ts| && ts[i] > cutoff) == before + if ts[n] > cutoff then {n} else {};
    }
  }

  lemma LastIsLatest(calls: seq<Call>, c: Call)
    requires ClockNonDecreasing(calls + [c])
    ensures ClockNonDecreasing(calls) && forall i :: 0 <= i < |calls| ==> calls[i].now <= c.now
  {
    assert forall i :: 0 <= i < |calls| ==> (calls + [c])[i] == calls[i];
    assert (calls + [c])[|calls|] == c;
  }

  /** A call is accepted exactly when fewer than 20 of the merchant's earlier calls
      were accepted at times t with now - 10000 < t <= now. */
  lemma AcceptsIffFewRecent(calls: seq<Call>, c: Call)
    requires ClockNonDecreasing(calls + [c])
    ensures Accepts(HitsAfter(calls), c) <==> |Within(AcceptedTimes(calls, c.merchant), c.now)| < 20
  {
    hide HitsAfter, AcceptedTimes, After, ClockNonDecreasing;
    var ts := AcceptedTimes(calls, c.merchant);
    KeptIsRecent(calls, c);
    LastIsLatest(calls, c);
    AcceptedBefore(calls, c.merchant, c.now);
    AfterCounts(ts, c.now - RATE_WINDOW_MS);
    assert Within(ts, c.now) == set i: nat | i < |ts| && ts[i] > c.now - RATE_WINDOW_MS;
  }

  /** No window of ten seconds ever holds more than 20 accepted calls of a merchant. */
  lemma {:induction false} WindowNeverExceeded(calls: seq<Call>, merchant: string, end: int)
    requires ClockNonDecreasing(calls)
    ensures |Within(AcceptedTimes(calls, merchant), end)| <= 20
  {
    hide ClockNonDecreasing, HitsAfter, AcceptedTimes, After, Accepts;
    if calls == [] {
      NoCalls(merchant);
      assert Within([], end) == {};
    } else {
      var front, c := calls[..|calls| - 1], calls[|calls| - 1];
      assert calls == front + [c];
      OneMore(front, c, merchant);
      WindowNeverExceeded(front, merchant, end);
      var ts := AcceptedTimes(front, merchant);
      if c.merchant == merchant && Accepts(HitsAfter(front), c) && c.now <= end {
        AcceptsIffFewRecent(front, c);
        LastIsLatest(front, c);
        AcceptedBefore(front, merchant, c.now);
        OneMoreWithin(ts, c.now, end);
        SubsetCount(Within(ts + [c.now], end), Within(ts, c.now) + {|ts|});
      } else {
        assert Within(AcceptedTimes(calls, merchant), end) == Within(ts, end);
      }
    }
  }

  lemma OneMoreWithin(ts: seq<int>, now: int, end: int)
    requires now <= end && forall i :: 0 <= i < |ts| ==> ts[i] <= now
    ensures Within(ts + [now], end) <= Within(ts, now) + {|ts|}
  {
  }

  lemma SubsetCount(a: set<nat>, b: set<nat>)
    requires a <= b
    ensures |a| <= |b|
  {
    assert b == a + (b - a);
  }

  /** The module-level table and the handler's check. */
  class Limiter {
    var merchantHits: Hits
    ghost var calls: seq<Call>

    ghost predicate Valid()
      reads this
    {
      merchantHits == HitsAfter(calls) && ClockNonDecreasing(calls)
    }

    constructor ()
      ensures Valid() && calls == []
    {
      merchantHits := map[];
      calls := [];
    }

    method RateLimitOk(merchantId: string, now: int) returns (ok: bool)
      requires Valid() && (calls != [] ==> calls[|calls| - 1].now <= now)
      modifies this
      ensures Valid() && calls == old(calls) + [Call(merchantId, now)]
      ensures ok <==> |Within(AcceptedTimes(old(calls), merchantId), now)| < 20
      ensures AcceptedTimes(calls, merchantId) == AcceptedTimes(old(calls), merchantId) + if ok then [now] else []
    {
      hide HitsAfter, AcceptedTimes, After;
      var cutoff := now - RATE_WINDOW_MS;
      var hits := After(if merchantId in merchantHits then merchantHits[merchantId] else [], cutoff);
      ghost var c, before := Call(merchantId, now), calls;
      StillNonDecreasing(before, c);
      OneMore(before, c, merchantId);
      AcceptsIffFewRecent(before, c);
      assert hits == Kept(merchantHits, c) && hits + [] == hits;
      calls := calls + [c];
      if |hits| >= RATE_MAX_PER_WINDOW {
        merchantHits := merchantHits[merchantId := hits];
        assert AcceptedTimes(before, merchantId) + [] == AcceptedTimes(before, merchantId);
        return false;
      }
      hits := hits + [now];
      merchantHits := merchantHits[merchantId := hits];
      return true;
    }
  }

  lemma StillNonDecreasing(calls: seq<Call>, c: Call)
    requires ClockNonDecreasing(calls) && (calls != [] ==> calls[|calls| - 1].now <= c.now)
    ensures ClockNonDecreasing(calls + [c])
  {
    forall i, j | 0 <= i < j < |calls| + 1
      ensures (calls + [c])[i].now <= (calls + [c])[j].now
    {
      if j == |calls| && i < |calls| - 1 {
        assert calls[i].now <= calls[|calls| - 1].now;
      }
    }
  }
}
