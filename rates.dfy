/** The framework's counter-to-rate conversion (get_rate with
    raise_overflow=True) over the per-service value store, and the
    try/except pattern in which the plug-ins use it: convert the counter,
    turn it into a rate, report the rate, and skip the metric silently on
    any error. */
module Rates {
  import opened Common

  /** The last stored (time, counter) pair of one key. */
  datatype Sample = Sample(time: real, value: real)

  /** get_rate for a key whose previous sample is `last`: no rate for a new
      key, for a clock that did not advance, or for a counter that went
      down; otherwise the counter's increase per second. */
  function RateOf(last: Option<Sample>, now: real, value: real): (r: Option<real>)
    ensures r.Some? <==> last.Some? && last.value.time < now && last.value.value <= value
    ensures r.Some? ==> r.value >= 0.0 && r.value * (now - last.value.time) == value - last.value.value
  {
    if last.None? || now <= last.value.time then None
    else
      var rate := (value - last.value.value) / (now - last.value.time);
      if rate < 0.0 then None else Some(rate)
  }

  /** One guarded rate metric of a check: the store key, the counter as the
      int() conversion produced it (a conversion error skips the metric
      without touching the store), and how the rate is reported. */
  datatype RateRequest = RateRequest(key: string, counter: Try<int>, metric: string, title: string,
                                     boundaries: Option<Bounds>)

  function Previous(samples: map<string, Sample>, key: string): Option<Sample> {
    if key in samples then Some(samples[key]) else None
  }

  /** The items one request yields against a store. */
  function RateItems(samples: map<string, Sample>, req: RateRequest, now: real): seq<CheckItem> {
    if req.counter.Raised? then []
    else
      var rate := RateOf(Previous(samples, req.key), now, req.counter.value as real);
      if rate.None? then [] else CheckLevels(rate.value, NoLevels, NoLevels, Some(req.metric), req.title, req.boundaries)
  }

  /** The store after one request. */
  function RateStore(samples: map<string, Sample>, req: RateRequest, now: real): map<string, Sample> {
    if req.counter.Raised? then samples else samples[req.key := Sample(now, req.counter.value as real)]
  }

  /** Requests processed in order: the final store and the items yielded. */
  function RateFold(samples: map<string, Sample>, reqs: seq<RateRequest>, now: real): (map<string, Sample>, seq<CheckItem>) {
    Steps(samples, reqs, StoreAt(now), ItemsAt(now))
  }

  function StoreAt(now: real): (map<string, Sample>, RateRequest) -> map<string, Sample> {
    (samples: map<string, Sample>, req: RateRequest) => RateStore(samples, req, now)
  }

  function ItemsAt(now: real): (map<string, Sample>, RateRequest) -> seq<CheckItem> {
    (samples: map<string, Sample>, req: RateRequest) => RateItems(samples, req, now)
  }

  /** A loop over reqs in which each one updates a state and yields
      items: the final state and the items, in order. */
  function Steps<S, R, I>(state: S, reqs: seq<R>, update: (S, R) -> S, emit: (S, R) -> seq<I>): (S, seq<I>) {
    if reqs == [] then (state, [])
    else
      var prefix := Steps(state, reqs[..|reqs| - 1], update, emit);
      var req := reqs[|reqs| - 1];
      (update(prefix.0, req), prefix.1 + emit(prefix.0, req))
  }

  /** Running the loop over two batches one after the other is running it
      over their concatenation. */
  lemma {:induction false} StepsAppend<S, R, I>(state: S, a: seq<R>, b: seq<R>, update: (S, R) -> S, emit: (S, R) -> seq<I>)
    ensures Steps(state, a + b, update, emit).0 == Steps(Steps(state, a, update, emit).0, b, update, emit).0
    ensures Steps(state, a + b, update, emit).1
         == Steps(state, a, update, emit).1 + Steps(Steps(state, a, update, emit).0, b, update, emit).1
  {
    if b != [] {
      var n := |b| - 1;
      assert (a + b)[..|a + b| - 1] == a + b[..n];
      assert (a + b)[|a + b| - 1] == b[n];
      StepsAppend(state, a, b[..n], update, emit);
      var first := Steps(state, a, update, emit);
      var before := Steps(first.0, b[..n], update, emit);
      var extra := emit(before.0, b[n]);
      assert first.1 + before.1 + extra == first.1 + (before.1 + extra);
    } else {
      assert a + b == a;
    }
  }

  predicate DistinctRequestKeys(reqs: seq<RateRequest>) {
    forall i, j :: 0 <= i < j < |reqs| ==> reqs[i].key != reqs[j].key
  }

  /** Requests on other keys leave a key's sample alone, and a converted
      counter is stored under its key. */
  lemma {:induction false} RateFoldStore(samples: map<string, Sample>, reqs: seq<RateRequest>, now: real, key: string)
    ensures (forall i :: 0 <= i < |reqs| ==> reqs[i].key != key || reqs[i].counter.Raised?) ==>
              Previous(RateFold(samples, reqs, now).0, key) == Previous(samples, key)
    ensures forall i :: (0 <= i < |reqs| && reqs[i].key == key && reqs[i].counter.Ok? &&
                         (forall j :: i < j < |reqs| ==> reqs[j].key != key)) ==>
              Previous(RateFold(samples, reqs, now).0, key) == Some(Sample(now, reqs[i].counter.value as real))
  {
    if reqs != [] {
      var init := reqs[..|reqs| - 1];
      RateFoldStore(samples, init, now, key);
      forall i | 0 <= i < |reqs| && reqs[i].key == key && reqs[i].counter.Ok? &&
                 (forall j :: i < j < |reqs| ==> reqs[j].key != key)
        ensures Previous(RateFold(samples, reqs, now).0, key) == Some(Sample(now, reqs[i].counter.value as real))
      {
        if i < |reqs| - 1 {
          assert init[i] == reqs[i];
          assert forall j :: i < j < |init| ==> init[j] == reqs[j];
        }
      }
      if forall i :: 0 <= i < |reqs| ==> reqs[i].key != key || reqs[i].counter.Raised? {
        assert forall i :: 0 <= i < |init| ==> init[i] == reqs[i];
      }
    }
  }

  /** With distinct keys the requests do not interfere: each one yields
      exactly what it would emit alone against the original store. */
  lemma {:induction false} RateFoldIndependent(samples: map<string, Sample>, reqs: seq<RateRequest>, now: real)
    requires DistinctRequestKeys(reqs)
    ensures |RateFold(samples, reqs, now).1| <= 2 * |reqs|
    ensures RateFold(samples, reqs, now).1 == Flatten(seq(|reqs|, i requires 0 <= i < |reqs| => RateItems(samples, reqs[i], now)))
  {
    if reqs != [] {
      var n := |reqs| - 1;
      var init := reqs[..n];
      RateFoldIndependent(samples, init, now);
      RateFoldStore(samples, init, now, reqs[n].key);
      assert Previous(RateFold(samples, init, now).0, reqs[n].key) == Previous(samples, reqs[n].key);
      var all := seq(|reqs|, i requires 0 <= i < |reqs| => RateItems(samples, reqs[i], now));
      var front := seq(|init|, i requires 0 <= i < |init| => RateItems(samples, init[i], now));
      assert all[..n] == front;
      assert all == front + [all[n]];
      assert (front + [all[n]])[..n] == front;
    }
  }

  /** On the first check no rate exists yet: nothing is reported, and every
      converted counter is stored. */
  lemma FirstRunReportsNothing(reqs: seq<RateRequest>, now: real)
    requires DistinctRequestKeys(reqs)
    ensures RateFold(map[], reqs, now).1 == []
    ensures forall i :: 0 <= i < |reqs| && reqs[i].counter.Ok? ==>
              Previous(RateFold(map[], reqs, now).0, reqs[i].key) == Some(Sample(now, reqs[i].counter.value as real))
  {
    RateFoldIndependent(map[], reqs, now);
    var all := seq(|reqs|, i requires 0 <= i < |reqs| => RateItems(map[], reqs[i], now));
    assert forall i :: 0 <= i < |all| ==> all[i] == [];
    FlattenEmpty(all);
    forall i | 0 <= i < |reqs| && reqs[i].counter.Ok?
      ensures Previous(RateFold(map[], reqs, now).0, reqs[i].key) == Some(Sample(now, reqs[i].counter.value as real))
    {
      RateFoldStore(map[], reqs, now, reqs[i].key);
    }
  }

  lemma {:induction false} FlattenEmpty<T>(ss: seq<seq<T>>)
    requires forall i :: 0 <= i < |ss| ==> ss[i] == []
    ensures Flatten(ss) == []
  {
    if ss != [] {
      FlattenEmpty(ss[..|ss| - 1]);
    }
  }

  /** Rate metrics carry no levels, so they are always OK. */
  lemma {:induction false} RatesAllOk(samples: map<string, Sample>, reqs: seq<RateRequest>, now: real)
    ensures AllOk(RateFold(samples, reqs, now).1)
  {
    if reqs != [] {
      RatesAllOk(samples, reqs[..|reqs| - 1], now);
    }
  }

  /** Processing two batches of requests one after the other is
      processing their concatenation. */
  lemma RateFoldAppend(samples: map<string, Sample>, a: seq<RateRequest>, b: seq<RateRequest>, now: real)
    ensures RateFold(samples, a + b, now).0 == RateFold(RateFold(samples, a, now).0, b, now).0
    ensures RateFold(samples, a + b, now).1 == RateFold(samples, a, now).1 + RateFold(RateFold(samples, a, now).0, b, now).1
  {
    StepsAppend(samples, a, b, StoreAt(now), ItemsAt(now));
  }

  /** The value store of one service (get_value_store()). */
  class ValueStore {
    var samples: map<string, Sample>

    constructor ()
      ensures samples == map[]
    {
      samples := map[];
    }

    /** get_rate(value_store, key, now, value, raise_overflow=True) */
    method GetRate(key: string, now: real, value: real) returns (r: Option<real>)
      modifies this
      ensures r == RateOf(Previous(old(samples), key), now, value)
      ensures samples == old(samples)[key := Sample(now, value)]
    {
      var last := Previous(samples, key);
      samples := samples[key := Sample(now, value)];
      if last.None? || now <= last.value.time {
        return None;
      }
      var rate := (value - last.value.value) / (now - last.value.time);
      if rate < 0.0 {
        return None;
      }
      return Some(rate);
    }

    /** The guarded rate metrics of a check, in order. */
    method Rates(reqs: seq<RateRequest>, now: real) returns (items: seq<CheckItem>)
      modifies this
      ensures (samples, items) == RateFold(old(samples), reqs, now)
    {
      items := [];
      var i := 0;
      while i < |reqs|
        invariant 0 <= i <= |reqs|
        invariant (samples, items) == RateFold(old(samples), reqs[..i], now)
      {
        var req := reqs[i];
        assert reqs[..i + 1][..i] == reqs[..i];
        ghost var before := samples;
        ghost var target := RateFold(old(samples), reqs[..i + 1], now);
        assert target == (RateStore(before, req, now), items + RateItems(before, req, now));
        if req.counter.Ok? {
          var rate := GetRate(req.key, now, req.counter.value as real);
          if rate.Some? {
            items := items + CheckLevels(rate.value, NoLevels, NoLevels, Some(req.metric), req.title, req.boundaries);
          }
        }
        assert samples == target.0;
        assert items == target.1;
        i := i + 1;
      }
      assert reqs[..|reqs|] == reqs;
    }
  }
}
