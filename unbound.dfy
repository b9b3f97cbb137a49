/** The Unbound DNS resolver plug-in: the resolver status, the rates of
    the total counters, the recursion times, the rates of the per query
    type and per answer code counters, and the cache entry counts, with
    the rates kept in the service's value store. */
module Unbound {
  import opened Common
  import opened Text
  import opened Numbers
  import opened Rates

  /** The opnsense_unbound section, as far as the check reads it: the
      status, the optional time.now, data.total.num (counter name to
      value), the recursion average and median (absent keys are None),
      the query types and answer codes with their counters in the order of
      the JSON object, and the cache counts by cache name. */
  datatype UnboundSection = UnboundSection(status: Option<string>, timeNow: Option<Json>,
                                           totalNum: Dict<string, Json>,
                                           recursionAvg: Option<Json>, recursionMedian: Option<Json>,
                                           queryTypes: Dict<string, Json>, rcodes: Dict<string, Json>,
                                           cacheCounts: Dict<string, Json>)

  /** discovery_opnsense_unbound: one service for any non-empty section. */
  function DiscoverUnbound(section: Option<UnboundSection>): (n: nat)
    ensures n <= 1
    ensures n == 1 <==> section.Some?
  {
    if section.Some? then 1 else 0
  }

  /** The status result: OK for "ok", WARN for anything else, including an
      absent status, which renders as None. */
  function StatusItem(status: Option<string>): (r: CheckItem)
    ensures r.Result? && r.summary == "Status " + StrOrNone(status)
    ensures r.state == OK <==> status == Some("ok")
    ensures r.state != OK ==> r.state == WARN
  {
    if status == Some("ok") then Result(OK, "Status ok") else Result(WARN, "Status " + StrOrNone(status))
  }

  /** The time the rates refer to: float(time.now) when the section has
      it, the clock otherwise. */
  function RateTime(section: UnboundSection, clock: real): (r: Try<real>)
    ensures section.timeNow.None? ==> r == Ok(clock)
    ensures section.timeNow.Some? ==> r == FloatOf(section.timeNow.value)
  {
    if section.timeNow.None? then Ok(clock) else FloatOf(section.timeNow.value)
  }

  /** int(d[k]) for a key that may be missing. */
  function CounterAt(d: Dict<string, Json>, k: string): (r: Try<int>)
    ensures k !in Keys(d) ==> r == Raised(KeyError)
    ensures k in Keys(d) ==> r == IntOf(Lookup(d, k).value)
  {
    var v := Lookup(d, k);
    if v.None? then Raised(KeyError) else IntOf(v.value)
  }

  // ---------------------------------------------------------------------
  // Rate requests

  /** The total counters and their labels (str.title() of the name). */
  const Totals: seq<(string, string)> :=
    [("queries", "Queries"), ("cachehits", "Cachehits"), ("cachemiss", "Cachemiss"),
     ("recursivereplies", "Recursivereplies")]

  function TotalRequest(section: UnboundSection, counter: (string, string)): RateRequest {
    RateRequest("opnsense_unbound.total_" + counter.0, CounterAt(section.totalNum, counter.0),
                "total_" + counter.0, counter.1, None)
  }

  function TotalRequests(section: UnboundSection): (reqs: seq<RateRequest>)
    ensures |reqs| == 4
    ensures forall i :: 0 <= i < 4 ==> reqs[i] == TotalRequest(section, Totals[i])
  {
    seq(4, i requires 0 <= i < 4 => TotalRequest(section, Totals[i]))
  }

  /** One per query type: key and metric lower-cased, label as given. */
  function QueryTypeRequests(types: Dict<string, Json>): (reqs: seq<RateRequest>)
    ensures |reqs| == |types|
    ensures forall i :: 0 <= i < |types| ==>
              reqs[i] == RateRequest(Lower("opnsense_unbound.query_type_" + types[i].0), IntOf(types[i].1),
                                     Lower("query_type_" + types[i].0), "Query Type " + types[i].0, None)
  {
    seq(|types|, i requires 0 <= i < |types| =>
      RateRequest(Lower("opnsense_unbound.query_type_" + types[i].0), IntOf(types[i].1),
                  Lower("query_type_" + types[i].0), "Query Type " + types[i].0, None))
  }

  /** One per answer code: key and metric lower-cased, label as given. */
  function RcodeRequests(rcodes: Dict<string, Json>): (reqs: seq<RateRequest>)
    ensures |reqs| == |rcodes|
    ensures forall i :: 0 <= i < |rcodes| ==>
              reqs[i] == RateRequest(Lower("opnsense_unbound.rcode_" + rcodes[i].0), IntOf(rcodes[i].1),
                                     Lower("rcode_" + rcodes[i].0), "Answer RCode: " + rcodes[i].0, None)
  {
    seq(|rcodes|, i requires 0 <= i < |rcodes| =>
      RateRequest(Lower("opnsense_unbound.rcode_" + rcodes[i].0), IntOf(rcodes[i].1),
                  Lower("rcode_" + rcodes[i].0), "Answer RCode: " + rcodes[i].0, None))
  }

  // ---------------------------------------------------------------------
  // Items outside the try blocks

  /** A recursion time: float() of the value, reported without levels;
      an absent key or a value float() rejects aborts the check. */
  function RecursionItems(v: Option<Json>, metric: string, title: string): (r: Try<seq<CheckItem>>)
    ensures v.None? ==> r == Raised(KeyError)
    ensures v.Some? ==> (r.Ok? <==> FloatOf(v.value).Ok?)
    ensures r.Ok? ==> r.value == [Result(OK, title), Metric(metric, FloatOf(v.value).value, None, None)]
  {
    if v.None? then Raised(KeyError)
    else
      var x := FloatOf(v.value);
      if x.Raised? then Raised(x.exception)
      else Ok(CheckLevels(x.value, NoLevels, NoLevels, Some(metric), title, None))
  }

  /** The caches and their labels. */
  const Caches: seq<(string, string)> :=
    [("msg", "Msg"), ("rrset", "Rrset"), ("infra", "Infra"), ("key", "Key")]

  /** The count of one cache, as an integer without levels. */
  function CacheItem(counts: Dict<string, Json>, cache: (string, string)): (r: Try<seq<CheckItem>>)
    ensures r.Raised? <==> CounterAt(counts, cache.0).Raised?
    ensures r.Ok? ==> r.value == [Result(OK, "Cache Count " + cache.1),
                                  Metric(cache.0 + "_cache_count", CounterAt(counts, cache.0).value as real, None, None)]
  {
    var n := CounterAt(counts, cache.0);
    if n.Raised? then Raised(n.exception)
    else Ok(CheckLevels(n.value as real, NoLevels, NoLevels, Some(cache.0 + "_cache_count"),
                        "Cache Count " + cache.1, None))
  }

  function CacheItems(counts: Dict<string, Json>): ((string, string)) -> Try<seq<CheckItem>> {
    (cache: (string, string)) => CacheItem(counts, cache)
  }

  /** The cache counts, each conversion able to abort the check. */
  function CacheCounts(counts: Dict<string, Json>): Try<seq<CheckItem>> {
    var all := TryMap(Caches, CacheItems(counts));
    if all.Raised? then Raised(all.exception) else Ok(Flatten(all.value))
  }

  // ---------------------------------------------------------------------
  // The check

  /** check_opnsense_unbound on a value store: the store afterwards and
      the outcome. The store keeps the samples written before an abort. */
  function UnboundCheck(samples: map<string, Sample>, section: UnboundSection, clock: real)
    : (map<string, Sample>, Try<seq<CheckItem>>)
  {
    var now := RateTime(section, clock);
    if now.Raised? then (samples, Raised(now.exception))
    else
      var totals := RateFold(samples, TotalRequests(section), now.value);
      var avg := RecursionItems(section.recursionAvg, "recursion_time_avg", "Average Recursion Time");
      if avg.Raised? then (totals.0, Raised(avg.exception))
      else
        var median := RecursionItems(section.recursionMedian, "recursion_time_median", "Median Recursion Time");
        if median.Raised? then (totals.0, Raised(median.exception))
        else
          var types := RateFold(totals.0, QueryTypeRequests(section.queryTypes), now.value);
          var codes := RateFold(types.0, RcodeRequests(section.rcodes), now.value);
          var caches := CacheCounts(section.cacheCounts);
          if caches.Raised? then (codes.0, Raised(caches.exception))
          else
            (codes.0, Ok([StatusItem(section.status)] + totals.1 + avg.value + median.value
                         + types.1 + codes.1 + caches.value))
  }

  /** check_opnsense_unbound against the service's value store. */
  method CheckUnbound(store: ValueStore, section: UnboundSection, clock: real) returns (r: Try<seq<CheckItem>>)
    modifies store
    ensures (store.samples, r) == UnboundCheck(old(store.samples), section, clock)
  {
    var status := StatusItem(section.status);
    var now := RateTime(section, clock);
    if now.Raised? {
      return Raised(now.exception);
    }
    var totals := store.Rates(TotalRequests(section), now.value);
    var avg := RecursionItems(section.recursionAvg, "recursion_time_avg", "Average Recursion Time");
    if avg.Raised? {
      return Raised(avg.exception);
    }
    var median := RecursionItems(section.recursionMedian, "recursion_time_median", "Median Recursion Time");
    if median.Raised? {
      return Raised(median.exception);
    }
    var types := store.Rates(QueryTypeRequests(section.queryTypes), now.value);
    var codes := store.Rates(RcodeRequests(section.rcodes), now.value);
    var caches := ReportCacheCounts(section.cacheCounts);
    if caches.Raised? {
      return Raised(caches.exception);
    }
    r := Ok([status] + totals + avg.value + median.value + types + codes + caches.value);
  }

  /** The loop over the caches; the first count int() rejects aborts it. */
  method ReportCacheCounts(counts: Dict<string, Json>) returns (r: Try<seq<CheckItem>>)
    ensures r == CacheCounts(counts)
  {
    var items: seq<CheckItem> := [];
    ghost var done: seq<seq<CheckItem>> := [];
    for k := 0 to |Caches|
      invariant TryMap(Caches[..k], CacheItems(counts)) == Ok(done)
      invariant items == Flatten(done)
    {
      assert Caches[..k + 1][..k] == Caches[..k];
      var item := CacheItem(counts, Caches[k]);
      if item.Raised? {
        TryMapRaised(Caches, CacheItems(counts), k + 1);
        return Raised(item.exception);
      }
      assert (done + [item.value])[..|done|] == done;
      done := done + [item.value];
      items := items + item.value;
    }
    assert Caches[..|Caches|] == Caches;
    r := Ok(items);
  }

  // ---------------------------------------------------------------------
  // Properties

  /** The check aborts exactly when the rate time, a recursion time or a
      cache count does not convert; then nothing is reported. A counter
      that fails within the try blocks never aborts it. */
  lemma UnboundAborts(samples: map<string, Sample>, section: UnboundSection, clock: real)
    ensures UnboundCheck(samples, section, clock).1.Raised? <==>
              || RateTime(section, clock).Raised?
              || RecursionItems(section.recursionAvg, "recursion_time_avg", "Average Recursion Time").Raised?
              || RecursionItems(section.recursionMedian, "recursion_time_median", "Median Recursion Time").Raised?
              || (exists i :: 0 <= i < |Caches| && CacheItems(section.cacheCounts)(Caches[i]).Raised?)
  {
    TryMapSpec(Caches, CacheItems(section.cacheCounts));
  }

  /** The status result comes first and is OK exactly for status "ok". */
  lemma UnboundStatusFirst(samples: map<string, Sample>, section: UnboundSection, clock: real)
    requires UnboundCheck(samples, section, clock).1.Ok?
    ensures var out := UnboundCheck(samples, section, clock).1.value;
            && out[0] == StatusItem(section.status)
            && (out[0].state == OK <==> section.status == Some("ok"))
  {
  }

  /** The result and the metric of one cache count. */
  function CountPair(name: string, title: string, n: int): seq<CheckItem> {
    [Result(OK, "Cache Count " + title), Metric(name + "_cache_count", n as real, None, None)]
  }

  /** All cache counts present as integers: one result and one metric per
      cache, in the order msg, rrset, infra, key. */
  lemma CacheCountsInOrder(counts: Dict<string, Json>, msg: int, rrset: int, infra: int, key: int)
    requires CounterAt(counts, "msg") == Ok(msg) && CounterAt(counts, "rrset") == Ok(rrset)
    requires CounterAt(counts, "infra") == Ok(infra) && CounterAt(counts, "key") == Ok(key)
    ensures CacheCounts(counts)
         == Ok(CountPair("msg", "Msg", msg) + CountPair("rrset", "Rrset", rrset)
               + CountPair("infra", "Infra", infra) + CountPair("key", "Key", key))
  {
    var f := CacheItems(counts);
    var xs := [CountPair("msg", "Msg", msg), CountPair("rrset", "Rrset", rrset),
               CountPair("infra", "Infra", infra), CountPair("key", "Key", key)];
    CacheItemPair(counts, Caches[0], msg);
    CacheItemPair(counts, Caches[1], rrset);
    CacheItemPair(counts, Caches[2], infra);
    CacheItemPair(counts, Caches[3], key);
    TryMapFour(Caches, f, xs);
    FlattenFour(xs);
  }

  /** A cache whose count converts yields its pair. */
  lemma CacheItemPair(counts: Dict<string, Json>, cache: (string, string), n: int)
    requires CounterAt(counts, cache.0) == Ok(n)
    ensures CacheItems(counts)(cache) == Ok(CountPair(cache.0, cache.1, n))
  {
  }

  /** Four conversions that all succeed. */
  lemma TryMapFour<A, B>(s: seq<A>, f: A -> Try<B>, xs: seq<B>)
    requires |s| == 4 && |xs| == 4
    requires f(s[0]) == Ok(xs[0]) && f(s[1]) == Ok(xs[1]) && f(s[2]) == Ok(xs[2]) && f(s[3]) == Ok(xs[3])
    ensures TryMap(s, f) == Ok(xs)
  {
    TryMapSpec(s, f);
    var ys := TryMap(s, f).value;
    assert ys == [ys[0], ys[1], ys[2], ys[3]] == xs;
  }

  lemma FlattenFour<T>(ss: seq<seq<T>>)
    requires |ss| == 4
    ensures Flatten(ss) == ss[0] + ss[1] + ss[2] + ss[3]
  {
    var s3, s2, s1 := ss[..3], ss[..2], ss[..1];
    assert s3[..2] == s2 && s3[2] == ss[2];
    assert s2[..1] == s1 && s2[1] == ss[1];
    assert s1[..0] == [] && s1[0] == ss[0];
    assert Flatten(s1) == Flatten([]) + ss[0] == ss[0];
    assert Flatten(s2) == Flatten(s1) + ss[1];
    assert Flatten(s3) == Flatten(s2) + ss[2];
    assert Flatten(ss) == Flatten(s3) + ss[3];
  }

  // ---------------------------------------------------------------------
  // Rate keys

  predicate LowerDistinct(d: Dict<string, Json>) {
    forall i, j :: 0 <= i < j < |d| ==> Lower(d[i].0) != Lower(d[j].0)
  }

  /** Equal strings after a common prefix have equal tails. */
  lemma PrefixCancel(p: string, a: string, b: string)
    requires p + a == p + b
    ensures a == b
  {
    assert a == (p + a)[|p|..];
    assert b == (p + b)[|p|..];
  }

  /** A lower-cased key: the lower-cased prefix, a fixed character at
      position 17 telling the kind of counter, then the lower-cased name. */
  lemma LowerKey(p: string, name: string)
    requires |p| > 17
    ensures Lower(p + name) == Lower(p) + Lower(name)
    ensures |Lower(p)| == |p| && Lower(p + name)[17] == LowerChar(p[17])
  {
    LowerAppend(p, name);
  }

  /** All rate requests of one check. */
  function AllRateRequests(section: UnboundSection): seq<RateRequest> {
    TotalRequests(section) + QueryTypeRequests(section.queryTypes) + RcodeRequests(section.rcodes)
  }

  /** Where the kind of a key shows: 't', 'q' or 'r' at position 17. */
  function KindOf(key: string): char {
    if |key| > 17 then key[17] else ' '
  }

  /** The store keys of the three kinds of counter never collide, and
      within a kind they are distinct when the names are distinct after
      lower-casing. */
  lemma {:induction false} RateKeysDistinct(section: UnboundSection)
    requires LowerDistinct(section.queryTypes) && LowerDistinct(section.rcodes)
    ensures DistinctRequestKeys(AllRateRequests(section))
  {
    var t := TotalRequests(section);
    var q := QueryTypeRequests(section.queryTypes);
    var c := RcodeRequests(section.rcodes);
    assert AllRateRequests(section) == t + q + c;
    TotalKeys(section);
    QueryTypeKeys(section.queryTypes);
    RcodeKeys(section.rcodes);
    AllKeysApart(t, q, c, Lower("opnsense_unbound.query_type_"), Lower("opnsense_unbound.rcode_"),
                 section.queryTypes, section.rcodes);
  }

  /** The total keys carry 't' at position 17 and are pairwise distinct. */
  lemma TotalKeys(section: UnboundSection)
    ensures forall k :: 0 <= k < 4 ==> KindOf(TotalRequests(section)[k].key) == 't'
    ensures forall k, l :: 0 <= k < l < 4 ==> TotalRequests(section)[k].key != TotalRequests(section)[l].key
  {
    forall k, l | 0 <= k < l < 4
      ensures TotalRequests(section)[k].key != TotalRequests(section)[l].key
    {
      TotalKeysDistinct(section, k, l);
    }
  }

  /** A query type key is the lower-cased prefix and name, with 'q' at
      position 17. */
  lemma QueryTypeKeys(types: Dict<string, Json>)
    ensures forall k :: 0 <= k < |types| ==>
              && QueryTypeRequests(types)[k].key == Lower("opnsense_unbound.query_type_") + Lower(types[k].0)
              && KindOf(QueryTypeRequests(types)[k].key) == 'q'
  {
    var p := "opnsense_unbound.query_type_";
    assert p[17] == 'q';
    forall k | 0 <= k < |types|
      ensures QueryTypeRequests(types)[k].key == Lower(p) + Lower(types[k].0)
      ensures KindOf(QueryTypeRequests(types)[k].key) == 'q'
    {
      LowerKey(p, types[k].0);
    }
  }

  /** An answer code key is the lower-cased prefix and code, with 'r' at
      position 17. */
  lemma RcodeKeys(rcodes: Dict<string, Json>)
    ensures forall k :: 0 <= k < |rcodes| ==>
              && RcodeRequests(rcodes)[k].key == Lower("opnsense_unbound.rcode_") + Lower(rcodes[k].0)
              && KindOf(RcodeRequests(rcodes)[k].key) == 'r'
  {
    var p := "opnsense_unbound.rcode_";
    assert p[17] == 'r';
    forall k | 0 <= k < |rcodes|
      ensures RcodeRequests(rcodes)[k].key == Lower(p) + Lower(rcodes[k].0)
      ensures KindOf(RcodeRequests(rcodes)[k].key) == 'r'
    {
      LowerKey(p, rcodes[k].0);
    }
  }

  /** Keys laid out as four totals, then prefixed query types, then
      prefixed answer codes, with the kinds told apart at position 17,
      are pairwise distinct when the names within each part are. */
  lemma KeysApart(t: seq<RateRequest>, q: seq<RateRequest>, c: seq<RateRequest>, lq: string, lc: string,
                  types: Dict<string, Json>, rcodes: Dict<string, Json>, i: int, j: int)
    requires |t| == 4 && |q| == |types| && |c| == |rcodes|
    requires forall k :: 0 <= k < 4 ==> KindOf(t[k].key) == 't'
    requires forall k, l :: 0 <= k < l < 4 ==> t[k].key != t[l].key
    requires forall k :: 0 <= k < |types| ==>
               q[k].key == lq + Lower(types[k].0) && KindOf(q[k].key) == 'q'
    requires forall k :: 0 <= k < |rcodes| ==>
               c[k].key == lc + Lower(rcodes[k].0) && KindOf(c[k].key) == 'r'
    requires LowerDistinct(types) && LowerDistinct(rcodes)
    requires 0 <= i < j < |t + q + c|
    ensures (t + q + c)[i].key != (t + q + c)[j].key
  {
    var all := t + q + c;
    var nq := |q|;
    if j < 4 {
      assert all[i] == t[i] && all[j] == t[j];
    } else if i < 4 {
      assert all[i] == t[i];
      if j < 4 + nq {
        assert all[j] == q[j - 4];
      } else {
        assert all[j] == c[j - 4 - nq];
      }
    } else if j < 4 + nq {
      assert all[i] == q[i - 4] && all[j] == q[j - 4];
      if all[i].key == all[j].key {
        PrefixCancel(lq, Lower(types[i - 4].0), Lower(types[j - 4].0));
      }
    } else if i < 4 + nq {
      assert all[i] == q[i - 4] && all[j] == c[j - 4 - nq];
    } else {
      assert all[i] == c[i - 4 - nq] && all[j] == c[j - 4 - nq];
      if all[i].key == all[j].key {
        PrefixCancel(lc, Lower(rcodes[i - 4 - nq].0), Lower(rcodes[j - 4 - nq].0));
      }
    }
  }

  /** KeysApart for every pair of positions. */
  lemma AllKeysApart(t: seq<RateRequest>, q: seq<RateRequest>, c: seq<RateRequest>, lq: string, lc: string,
                     types: Dict<string, Json>, rcodes: Dict<string, Json>)
    requires |t| == 4 && |q| == |types| && |c| == |rcodes|
    requires forall k :: 0 <= k < 4 ==> KindOf(t[k].key) == 't'
    requires forall k, l :: 0 <= k < l < 4 ==> t[k].key != t[l].key
    requires forall k :: 0 <= k < |types| ==>
               q[k].key == lq + Lower(types[k].0) && KindOf(q[k].key) == 'q'
    requires forall k :: 0 <= k < |rcodes| ==>
               c[k].key == lc + Lower(rcodes[k].0) && KindOf(c[k].key) == 'r'
    requires LowerDistinct(types) && LowerDistinct(rcodes)
    ensures DistinctRequestKeys(t + q + c)
  {
    forall i, j | 0 <= i < j < |t + q + c|
      ensures (t + q + c)[i].key != (t + q + c)[j].key
    {
      KeysApart(t, q, c, lq, lc, types, rcodes, i, j);
    }
  }

  /** The four total counters have four keys. */
  lemma TotalKeysDistinct(section: UnboundSection, i: int, j: int)
    requires 0 <= i < j < 4
    ensures TotalRequests(section)[i].key != TotalRequests(section)[j].key
  {
    var p := "opnsense_unbound.total_";
    if p + Totals[i].0 == p + Totals[j].0 {
      PrefixCancel(p, Totals[i].0, Totals[j].0);
    }
  }

  /** Each failure is isolated: with keys that do not collide, every rate
      counter yields exactly what it would yield alone against the store
      of the previous check, whatever happens to the other counters. */
  lemma UnboundRatesIsolated(samples: map<string, Sample>, section: UnboundSection, now: real)
    requires LowerDistinct(section.queryTypes) && LowerDistinct(section.rcodes)
    ensures var totals := RateFold(samples, TotalRequests(section), now);
            var types := RateFold(totals.0, QueryTypeRequests(section.queryTypes), now);
            var codes := RateFold(types.0, RcodeRequests(section.rcodes), now);
            var reqs := AllRateRequests(section);
            totals.1 + types.1 + codes.1 == Flatten(seq(|reqs|, i requires 0 <= i < |reqs| => RateItems(samples, reqs[i], now)))
  {
    var t := TotalRequests(section);
    var q := QueryTypeRequests(section.queryTypes);
    var c := RcodeRequests(section.rcodes);
    RateFoldAppend(samples, t, q, now);
    RateFoldAppend(samples, t + q, c, now);
    RateKeysDistinct(section);
    RateFoldIndependent(samples, t + q + c, now);
  }
}
