/**
 * `triggerRequestReRuns`: a persisted map from endpoint slug to the number of runs still
 * owed. Each call loads the map, inserts or decrements the entry of the current endpoint,
 * tells the host runner which request to run next, and writes the map back.
 *
 * The JavaScript reads the endpoint's name from a free variable (`endpoint.request_name`);
 * here it is the explicit argument `requestName`. The persisted JSON string is modelled as
 * the already-parsed map.
 */
module ReRuns {
  import opened Slug

  /** The instruction given to the host runner: run the request `id` next, or clear the
      override and let the collection run on in its own order. */
  datatype NextRequest = Jump(id: string) | Clear

  /** The persisted map after a call, and the instruction that call gave. */
  datatype Outcome = Outcome(store: map<string, int>, next: NextRequest)

  /** One call on the store, for the endpoint whose slug is `key`. */
  function Step(store: map<string, int>, key: string, endpointId: string, times: int): (r: Outcome)
    ensures r.store - {key} == store - {key}
    ensures r.next.Jump? <==> key in r.store
    ensures r.next.Jump? ==> r.next.id == endpointId
  {
    if key in store then
      var left := store[key] - 1;
      if left > 0 then Outcome(store[key := left], Jump(endpointId))
      else Outcome(store - {key}, Clear)
    else Outcome(store[key := times], Jump(endpointId))
  }

  /** The persisted map after a run of calls, and the instructions given, in order. */
  datatype Trace = Trace(store: map<string, int>, steps: seq<NextRequest>)

  /** `calls` consecutive calls for the same endpoint. */
  function Run(store: map<string, int>, key: string, endpointId: string, times: int, calls: nat): (r: Trace)
    ensures |r.steps| == calls
    ensures r.store - {key} == store - {key}
    decreases calls
  {
    if calls == 0 then Trace(store, [])
    else
      var o := Step(store, key, endpointId, times);
      var rest := Run(o.store, key, endpointId, times, calls - 1);
      Trace(rest.store, [o.next] + rest.steps)
  }

  function Jumps(endpointId: string, n: nat): (r: seq<NextRequest>)
    ensures |r| == n && forall i :: 0 <= i < n ==> r[i] == Jump(endpointId)
  {
    seq(n, _ => Jump(endpointId))
  }

  /** Every stored count is at least 1: the invariant one would want of the persisted map, so
      that an entry exists exactly while re-runs are still owed. The code keeps it only when
      `times >= 1` (`StepKeepsCountsPositive`). */
  predicate PositiveCounts(store: map<string, int>) {
    forall k :: k in store ==> store[k] >= 1
  }

  /** A first call stores `times` and jumps; nothing else changes. */
  lemma StepOnAbsentKey(store: map<string, int>, key: string, endpointId: string, times: int)
    requires key !in store
    ensures Step(store, key, endpointId, times) == Outcome(store[key := times], Jump(endpointId))
  {
  }

  /** A later call decrements; it jumps while the count stays positive and otherwise drops
      the entry and clears. `times` plays no part. */
  lemma StepOnPresentKey(store: map<string, int>, key: string, endpointId: string, times: int)
    requires key in store
    ensures store[key] - 1 > 0 ==>
      Step(store, key, endpointId, times) == Outcome(store[key := store[key] - 1], Jump(endpointId))
    ensures store[key] - 1 <= 0 ==>
      Step(store, key, endpointId, times) == Outcome(store - {key}, Clear)
  {
  }

  /** Calls with `times >= 1` keep every stored count at least 1. */
  lemma StepKeepsCountsPositive(store: map<string, int>, key: string, endpointId: string, times: int)
    requires PositiveCounts(store) && times >= 1
    ensures PositiveCounts(Step(store, key, endpointId, times).store)
  {
  }

  /** With `times <= 0` the first call still jumps, and stores a count below 1. */
  lemma NonPositiveTimesStoresNonPositiveCount(store: map<string, int>, key: string, endpointId: string, times: int)
    requires key !in store && times <= 0
    ensures Step(store, key, endpointId, times).next == Jump(endpointId)
    ensures !PositiveCounts(Step(store, key, endpointId, times).store)
  {
    StepOnAbsentKey(store, key, endpointId, times);
  }

  /** From a stored count `c >= 1`, `c` calls jump `c - 1` times, then clear and drop the entry. */
  lemma {:induction false} Countdown(store: map<string, int>, key: string, endpointId: string, times: int, c: nat)
    requires key in store && store[key] == c && c >= 1
    ensures Run(store, key, endpointId, times, c) == Trace(store - {key}, Jumps(endpointId, c - 1) + [Clear])
    decreases c
  {
    var o := Step(store, key, endpointId, times);
    if c == 1 {
      assert o == Outcome(store - {key}, Clear);
      assert Run(o.store, key, endpointId, times, 0) == Trace(store - {key}, []);
      assert Jumps(endpointId, 0) + [Clear] == [Clear];
    } else {
      assert o == Outcome(store[key := c - 1], Jump(endpointId));
      Countdown(o.store, key, endpointId, times, c - 1);
      assert o.store - {key} == store - {key};
      assert [Jump(endpointId)] + (Jumps(endpointId, c - 2) + [Clear]) == Jumps(endpointId, c - 1) + [Clear];
    }
  }

  /** The lifecycle of one endpoint's entry: with `times = n >= 1` and no entry yet, calls
      1 to n jump and call n + 1 clears, and the store ends as it began. */
  lemma {:induction false} ReRunLifecycle(store: map<string, int>, key: string, endpointId: string, n: nat)
    requires key !in store && n >= 1
    ensures Run(store, key, endpointId, n, n + 1) == Trace(store, Jumps(endpointId, n) + [Clear])
  {
    var o := Step(store, key, endpointId, n);
    assert o == Outcome(store[key := n], Jump(endpointId));
    Countdown(o.store, key, endpointId, n, n);
    assert store[key := n] - {key} == store;
    assert [Jump(endpointId)] + (Jumps(endpointId, n - 1) + [Clear]) == Jumps(endpointId, n) + [Clear];
  }

  /** With `times <= 1` (the default is 1) a fresh endpoint is run once more, then cleared. */
  lemma {:induction false} SingleReRun(store: map<string, int>, key: string, endpointId: string, times: int)
    requires key !in store && times <= 1
    ensures Run(store, key, endpointId, times, 2) == Trace(store, [Jump(endpointId), Clear])
  {
    var o := Step(store, key, endpointId, times);
    assert o == Outcome(store[key := times], Jump(endpointId));
    var o2 := Step(o.store, key, endpointId, times);
    assert o2 == Outcome(store, Clear) by {
      assert store[key := times] - {key} == store;
    }
    assert Run(o2.store, key, endpointId, times, 0) == Trace(store, []);
  }

  /** The host's global variable that holds the persisted map (`set_next_request`). */
  class ReRunStore {
    var entries: map<string, int>

    /** An absent global reads as the empty map. */
    constructor ()
      ensures entries == map[]
    {
      entries := map[];
    }

    /** `triggerRequestReRuns(endpointId, times)` for the endpoint named `requestName`:
        its entry is keyed by the name's slug. */
    method TriggerRequestReRuns(endpointId: string, times: int, requestName: string) returns (next: NextRequest)
      modifies this
      ensures Outcome(entries, next) == Step(old(entries), Slugify(requestName), endpointId, times)
    {
      next := TriggerForKey(Slugify(requestName), endpointId, times);
    }

    /** The body of `triggerRequestReRuns` once the slug `key` is known: load the map,
        insert or decrement, give one instruction, write the map back. */
    method TriggerForKey(key: string, endpointId: string, times: int) returns (next: NextRequest)
      modifies this
      ensures key !in old(entries) ==>
        entries == old(entries)[key := times] && next == Jump(endpointId)
      ensures key in old(entries) && old(entries)[key] - 1 > 0 ==>
        entries == old(entries)[key := old(entries)[key] - 1] && next == Jump(endpointId)
      ensures key in old(entries) && old(entries)[key] - 1 <= 0 ==>
        entries == old(entries) - {key} && next == Clear
      ensures Outcome(entries, next) == Step(old(entries), key, endpointId, times)
    {
      var loaded := entries;
      if key in loaded {
        loaded := loaded[key := loaded[key] - 1];
        if loaded[key] > 0 {
          next := Jump(endpointId);
        } else {
          loaded := loaded - {key};
          next := Clear;
        }
      } else {
        loaded := loaded[key := times];
        next := Jump(endpointId);
      }
      entries := loaded;
    }
  }
}
