/** Vocabulary shared by every check plug-in: optional values, raised
    exceptions, monitoring states, threshold levels, check output, and the
    list and dictionary idioms the plug-ins are written in. */
module Common {

  datatype Option<+T> = None | Some(value: T)

  /** A Python exception that aborts a parse, discovery or check function.
      The monitoring core turns it into a crashed service, discarding what
      the function had yielded before. */
  datatype Exception =
    | TypeError
    | AttributeError
    | KeyError
    | ValueError
    | IndexError
    | StopIteration
    /** A StopIteration escaping a generator, as Python 3.7 re-raises it. */
    | RuntimeError
    | UnboundLocalError

  datatype Try<+T> = Ok(value: T) | Raised(exception: Exception)

  datatype State = OK | WARN | CRIT | UNKNOWN

  /** A decoded JSON scalar, as handed to Python's int(), float() or a
      truth test. */
  datatype Json = JNull | JBool(b: bool) | JInt(i: int) | JFloat(r: real) | JStr(s: string)

  /** Python truthiness of a decoded JSON scalar. */
  predicate Truthy(v: Json) {
    match v
    case JNull => false
    case JBool(b) => b
    case JInt(i) => i != 0
    case JFloat(r) => r != 0.0
    case JStr(s) => s != ""
  }

  /** Truthiness of an optional string (None and "" are false). */
  predicate TruthyStr(s: Option<string>) {
    s.Some? && s.value != ""
  }

  /** Python's f-string rendering of a value that may be None. */
  function StrOrNone(s: Option<string>): string {
    if s.Some? then s.value else "None"
  }

  // ---------------------------------------------------------------------
  // Threshold levels and check_levels

  /** Levels as a rule stores them: ('fixed', (warn, crit)) or no levels. */
  datatype Levels = NoLevels | Fixed(warn: real, crit: real)

  /** Metric boundaries (lower, optional upper). */
  datatype Bounds = Bounds(lower: real, upper: Option<real>)

  /** What a check function yields. The summary of a levelled value is its
      title; the rendered number is not modelled. */
  datatype CheckItem =
    | Result(state: State, summary: string)
    | Metric(name: string, value: real, levels: Option<(real, real)>, boundaries: Option<Bounds>)

  /** Every result among the items is OK. */
  predicate AllOk(items: seq<CheckItem>) {
    forall i :: 0 <= i < |items| && items[i].Result? ==> items[i].state == OK
  }

  /** Items that are all OK stay so when put together. */
  lemma AllOkAppend(a: seq<CheckItem>, b: seq<CheckItem>)
    requires AllOk(a) && AllOk(b)
    ensures AllOk(a + b)
  {
    forall i | 0 <= i < |a + b| && (a + b)[i].Result?
      ensures (a + b)[i].state == OK
    {
      if i >= |a| {
        assert (a + b)[i] == b[i - |a|];
      }
    }
  }

  /** Does `value` breach the warn (crit = false) or crit (crit = true)
      threshold of upper levels (value >= threshold) or of lower levels
      (value < threshold)? */
  predicate Breaches(value: real, upper: Levels, lower: Levels, crit: bool) {
    || (upper.Fixed? && value >= (if crit then upper.crit else upper.warn))
    || (lower.Fixed? && value < (if crit then lower.crit else lower.warn))
  }

  function MetricLevels(upper: Levels): Option<(real, real)> {
    if upper.Fixed? then Some((upper.warn, upper.crit)) else None
  }

  /** The framework's check_levels: one Result for the value, and a Metric
      when a metric name is given. Its state is CRIT when a crit threshold
      is breached, else WARN when a warn threshold is, else OK. */
  function CheckLevels(value: real, upper: Levels, lower: Levels, metric: Option<string>,
                       title: string, boundaries: Option<Bounds>): (r: seq<CheckItem>)
    ensures |r| == if metric.Some? then 2 else 1
    ensures r[0].Result? && r[0].summary == title
    ensures r[0].state == CRIT <==> Breaches(value, upper, lower, true)
    ensures r[0].state == WARN <==> !Breaches(value, upper, lower, true) && Breaches(value, upper, lower, false)
    ensures r[0].state == OK <==> !Breaches(value, upper, lower, true) && !Breaches(value, upper, lower, false)
    ensures metric.Some? ==> r[1] == Metric(metric.value, value, MetricLevels(upper), boundaries)
  {
    var state :=
      if Breaches(value, upper, lower, true) then CRIT
      else if Breaches(value, upper, lower, false) then WARN
      else OK;
    [Result(state, title)] + (if metric.Some? then [Metric(metric.value, value, MetricLevels(upper), boundaries)] else [])
  }

  /** Upper levels alone: CRIT iff v >= crit, WARN iff warn <= v < crit. */
  lemma UpperLevelsSemantics(value: real, warn: real, crit: real, metric: Option<string>, title: string, b: Option<Bounds>)
    ensures var s := CheckLevels(value, Fixed(warn, crit), NoLevels, metric, title, b)[0].state;
      && (s == CRIT <==> value >= crit)
      && (s == WARN <==> value < crit && value >= warn)
      && (s == OK <==> value < crit && value < warn)
  {
  }

  /** Lower levels alone: CRIT iff v < crit, WARN iff crit <= v < warn. */
  lemma LowerLevelsSemantics(value: real, warn: real, crit: real, metric: Option<string>, title: string, b: Option<Bounds>)
    ensures var s := CheckLevels(value, NoLevels, Fixed(warn, crit), metric, title, b)[0].state;
      && (s == CRIT <==> value < crit)
      && (s == WARN <==> value >= crit && value < warn)
      && (s == OK <==> value >= crit && value >= warn)
  {
  }

  /** Without levels a value is always OK. */
  lemma NoLevelsIsOk(value: real, metric: Option<string>, title: string, b: Option<Bounds>)
    ensures CheckLevels(value, NoLevels, NoLevels, metric, title, b)[0].state == OK
  {
  }

  /** Without levels a value with a metric gives OK and the bare metric. */
  lemma NoLevelsItems(value: real, metric: string, title: string, b: Option<Bounds>)
    ensures CheckLevels(value, NoLevels, NoLevels, Some(metric), title, b) == [Result(OK, title), Metric(metric, value, None, b)]
  {
  }

  // ---------------------------------------------------------------------
  // Comprehension idioms: filtering, first match, counting

  /** [x for x in s if p(x)] */
  function Filter<T>(s: seq<T>, p: T -> bool): (r: seq<T>)
    ensures |r| <= |s|
    ensures forall i :: 0 <= i < |r| ==> p(r[i])
  {
    if s == [] then [] else (if p(s[0]) then [s[0]] else []) + Filter(s[1..], p)
  }

  /** An element is kept exactly when it is in s and satisfies p. */
  lemma {:induction false} FilterMembers<T>(s: seq<T>, p: T -> bool)
    ensures forall i :: 0 <= i < |Filter(s, p)| ==> Filter(s, p)[i] in s
    ensures forall i :: 0 <= i < |s| && p(s[i]) ==> s[i] in Filter(s, p)
  {
    if s != [] {
      FilterMembers(s[1..], p);
      var rest := Filter(s[1..], p);
      assert Filter(s, p) == (if p(s[0]) then [s[0]] else []) + rest;
      forall i | 0 <= i < |s| && p(s[i])
        ensures s[i] in Filter(s, p)
      {
        if i > 0 {
          assert s[i] == s[1..][i - 1];
        }
      }
    }
  }

  /** Filtering distributes over concatenation; with Filter([x]) this
      says the kept elements stay in their original order. */
  lemma {:induction false} FilterAppend<T>(a: seq<T>, b: seq<T>, p: T -> bool)
    ensures Filter(a + b, p) == Filter(a, p) + Filter(b, p)
  {
    if a == [] {
      assert a + b == b;
    } else {
      assert (a + b)[1..] == a[1..] + b;
      FilterAppend(a[1..], b, p);
    }
  }

  /** Filtering a sequence whose every element passes changes nothing. */
  lemma {:induction false} FilterAll<T>(s: seq<T>, p: T -> bool)
    requires forall i :: 0 <= i < |s| ==> p(s[i])
    ensures Filter(s, p) == s
  {
    if s != [] {
      FilterAll(s[1..], p);
    }
  }

  /** Filtering a sequence whose elements all fail yields nothing. */
  lemma {:induction false} FilterNone<T>(s: seq<T>, p: T -> bool)
    requires forall i :: 0 <= i < |s| ==> !p(s[i])
    ensures Filter(s, p) == []
  {
    if s != [] {
      FilterNone(s[1..], p);
    }
  }

  /** The index of the first element satisfying p: the for/else search. */
  function FirstWhere<T>(s: seq<T>, p: T -> bool): (r: Option<nat>)
    ensures r.Some? ==> r.value < |s| && p(s[r.value]) && forall j :: 0 <= j < r.value ==> !p(s[j])
    ensures r.None? <==> forall j :: 0 <= j < |s| ==> !p(s[j])
  {
    if s == [] then None
    else if p(s[0]) then Some(0)
    else match FirstWhere(s[1..], p)
      case None => None
      case Some(k) => Some(k + 1)
  }

  /** A for loop that breaks at the first element satisfying p. */
  method Find<T>(s: seq<T>, p: T -> bool) returns (r: Option<nat>)
    ensures r == FirstWhere(s, p)
  {
    var i := 0;
    while i < |s|
      invariant 0 <= i <= |s|
      invariant forall j :: 0 <= j < i ==> !p(s[j])
    {
      if p(s[i]) {
        FirstWhereIs(s, p, i);
        return Some(i);
      }
      i := i + 1;
    }
    r := None;
  }

  /** FirstWhere is determined by its contract. */
  lemma FirstWhereIs<T>(s: seq<T>, p: T -> bool, k: nat)
    requires k < |s| && p(s[k]) && forall j :: 0 <= j < k ==> !p(s[j])
    ensures FirstWhere(s, p) == Some(k)
  {
  }

  /** The index of the last element satisfying p. */
  function LastWhere<T>(s: seq<T>, p: T -> bool): (r: Option<nat>)
    ensures r.Some? ==> r.value < |s| && p(s[r.value]) && forall j :: r.value < j < |s| ==> !p(s[j])
    ensures r.None? <==> forall j :: 0 <= j < |s| ==> !p(s[j])
  {
    if s == [] then None
    else if p(s[|s| - 1]) then Some(|s| - 1)
    else LastWhere(s[..|s| - 1], p)
  }

  /** A loop applying a conversion that may raise to every element in
      turn: the first exception aborts the loop. */
  function TryMap<A, B>(s: seq<A>, f: A -> Try<B>): Try<seq<B>> {
    if s == [] then Ok([])
    else
      var prefix := TryMap(s[..|s| - 1], f);
      var y := f(s[|s| - 1]);
      if prefix.Raised? then prefix
      else if y.Raised? then Raised(y.exception)
      else Ok(prefix.value + [y.value])
  }

  /** The loop succeeds iff every conversion does, and then converts each
      element on its own, in order. */
  lemma {:induction false} TryMapSpec<A, B>(s: seq<A>, f: A -> Try<B>)
    ensures TryMap(s, f).Ok? <==> forall i :: 0 <= i < |s| ==> f(s[i]).Ok?
    ensures TryMap(s, f).Ok? ==>
              |TryMap(s, f).value| == |s| && forall i :: 0 <= i < |s| ==> TryMap(s, f).value[i] == f(s[i]).value
  {
    if s != [] {
      var init := s[..|s| - 1];
      TryMapSpec(init, f);
      assert forall i :: 0 <= i < |init| ==> init[i] == s[i];
    }
  }

  /** When the element at n - 1 is the first to fail, the loop fails with
      its exception. */
  lemma TryMapRaised<A, B>(s: seq<A>, f: A -> Try<B>, n: nat)
    requires n <= |s| && TryMap(s[..n], f).Raised?
    ensures TryMap(s, f) == TryMap(s[..n], f)
    decreases |s| - n
  {
    if n < |s| {
      assert s[..n + 1][..n] == s[..n];
      TryMapRaised(s, f, n + 1);
    } else {
      assert s[..n] == s;
    }
  }

  /** Concatenation of a sequence of sequences. */
  function Flatten<T>(ss: seq<seq<T>>): seq<T> {
    if ss == [] then [] else Flatten(ss[..|ss| - 1]) + ss[|ss| - 1]
  }

  // ---------------------------------------------------------------------
  // Python dictionaries with their insertion order

  /** A Python dict as the sequence of its items in insertion order. */
  type Dict<K, V> = seq<(K, V)>

  function Keys<K(==), V>(d: Dict<K, V>): (ks: seq<K>)
    ensures |ks| == |d|
    ensures forall i :: 0 <= i < |d| ==> ks[i] == d[i].0
  {
    if d == [] then [] else [d[0].0] + Keys(d[1..])
  }

  predicate DistinctKeys<K(==), V>(d: Dict<K, V>) {
    forall i, j :: 0 <= i < j < |d| ==> d[i].0 != d[j].0
  }

  function Lookup<K(==), V>(d: Dict<K, V>, k: K): (r: Option<V>)
    ensures r.None? <==> k !in Keys(d)
  {
    if d == [] then None else if d[0].0 == k then Some(d[0].1) else Lookup(d[1..], k)
  }

  /** With distinct keys, looking up the key of an item finds that item. */
  lemma {:induction false} LookupDistinct<K, V>(d: Dict<K, V>, j: nat)
    requires DistinctKeys(d) && j < |d|
    ensures Lookup(d, d[j].0) == Some(d[j].1)
  {
    if j > 0 {
      assert d[1..][j - 1] == d[j];
      assert DistinctKeys(d[1..]) by {
        forall a, b | 0 <= a < b < |d[1..]| ensures d[1..][a].0 != d[1..][b].0 {
          assert d[1..][a] == d[a + 1] && d[1..][b] == d[b + 1];
        }
      }
      LookupDistinct(d[1..], j - 1);
    }
  }

  /** d[k] = v: replaces the value in place, or appends a new item. */
  function Assign<K(==), V>(d: Dict<K, V>, k: K, v: V): (r: Dict<K, V>)
    ensures Keys(r) == if k in Keys(d) then Keys(d) else Keys(d) + [k]
    ensures Lookup(r, k) == Some(v)
    ensures forall i :: 0 <= i < |d| && d[i].0 != k ==> Lookup(r, d[i].0) == Lookup(d, d[i].0)
    ensures DistinctKeys(d) ==> DistinctKeys(r)
  {
    AssignKeys(d, k, v);
    AssignLookup(d, k, v);
    AssignOthers(d, k, v);
    AssignDistinct(d, k, v);
    Replaced(d, k, v)
  }

  /** The item list of d[k] = v. */
  function Replaced<K(==), V>(d: Dict<K, V>, k: K, v: V): Dict<K, V> {
    if d == [] then [(k, v)]
    else if d[0].0 == k then [(k, v)] + d[1..]
    else [d[0]] + Replaced(d[1..], k, v)
  }

  lemma {:induction false} AssignKeys<K, V>(d: Dict<K, V>, k: K, v: V)
    ensures Keys(Replaced(d, k, v)) == if k in Keys(d) then Keys(d) else Keys(d) + [k]
  {
    if d != [] {
      assert Keys(d) == [d[0].0] + Keys(d[1..]);
      if d[0].0 != k {
        AssignKeys(d[1..], k, v);
        assert Keys(Replaced(d, k, v)) == [d[0].0] + Keys(Replaced(d[1..], k, v));
      } else {
        assert Keys(Replaced(d, k, v)) == [k] + Keys(d[1..]);
      }
    }
  }

  lemma {:induction false} AssignLookup<K, V>(d: Dict<K, V>, k: K, v: V)
    ensures Lookup(Replaced(d, k, v), k) == Some(v)
  {
    if d != [] && d[0].0 != k {
      AssignLookup(d[1..], k, v);
    }
  }

  lemma {:induction false} AssignOthers<K, V>(d: Dict<K, V>, k: K, v: V)
    ensures forall i :: 0 <= i < |d| && d[i].0 != k ==> Lookup(Replaced(d, k, v), d[i].0) == Lookup(d, d[i].0)
  {
    forall i | 0 <= i < |d| && d[i].0 != k
      ensures Lookup(Replaced(d, k, v), d[i].0) == Lookup(d, d[i].0)
    {
      LookupOther(d, k, v, d[i].0);
    }
  }

  lemma {:induction false} LookupOther<K, V>(d: Dict<K, V>, k: K, v: V, k': K)
    requires k' != k
    ensures Lookup(Replaced(d, k, v), k') == Lookup(d, k')
  {
    if d != [] && d[0].0 != k && d[0].0 != k' {
      LookupOther(d[1..], k, v, k');
    }
  }

  lemma {:induction false} AssignDistinct<K, V>(d: Dict<K, V>, k: K, v: V)
    ensures DistinctKeys(d) ==> DistinctKeys(Replaced(d, k, v))
  {
    AssignKeys(d, k, v);
    var r := Replaced(d, k, v);
    if DistinctKeys(d) {
      forall i, j | 0 <= i < j < |r|
        ensures r[i].0 != r[j].0
      {
        assert Keys(r)[i] == r[i].0 && Keys(r)[j] == r[j].0;
        if k in Keys(d) {
          assert Keys(d)[i] == d[i].0 && Keys(d)[j] == d[j].0;
        } else if j < |d| {
          assert Keys(d)[i] == d[i].0 && Keys(d)[j] == d[j].0;
        }
      }
    }
  }

  /** {key(x): x for x in s}, built item by item. */
  function DictOf<K(==), V>(s: seq<(K, V)>): (d: Dict<K, V>)
    ensures DistinctKeys(d)
  {
    if s == [] then [] else Assign(DictOf(s[..|s| - 1]), s[|s| - 1].0, s[|s| - 1].1)
  }

  /** In `{k: v for (k, v) in s}` every key of s is present exactly once,
      with the value of its last occurrence. */
  lemma {:induction false} DictOfLookup<K, V>(s: seq<(K, V)>, k: K)
    ensures Lookup(DictOf(s), k) == match LastWhere(s, MatchKey(k))
                                     case None => None
                                     case Some(i) => Some(s[i].1)
  {
    if s != [] {
      var init := s[..|s| - 1];
      DictOfLookup(init, k);
      if s[|s| - 1].0 != k {
        assert forall j :: 0 <= j < |init| ==> init[j] == s[j];
        LastWhereInit(s, MatchKey(k));
      }
    }
  }

  function MatchKey<K(==), V>(k: K): ((K, V)) -> bool {
    (item: (K, V)) => item.0 == k
  }

  /** LastWhere is determined by its contract. */
  lemma LastWhereIs<T>(s: seq<T>, p: T -> bool, k: nat)
    requires k < |s| && p(s[k]) && forall j :: k < j < |s| ==> !p(s[j])
    ensures LastWhere(s, p) == Some(k)
  {
  }

  /** Every key of s is a key of `{k: v for (k, v) in s}`. */
  lemma DictOfCovers<K, V>(s: seq<(K, V)>)
    ensures forall i :: 0 <= i < |s| ==> s[i].0 in Keys(DictOf(s))
  {
    DictOfKeySet(s);
    forall i | 0 <= i < |s|
      ensures s[i].0 in Keys(s)
    {
      assert Keys(s)[i] == s[i].0;
    }
  }

  /** The value of the last item with a key is the one stored. */
  lemma DictOfLast<K, V>(s: seq<(K, V)>, i: nat)
    requires i < |s| && forall j :: i < j < |s| ==> s[j].0 != s[i].0
    ensures Lookup(DictOf(s), s[i].0) == Some(s[i].1)
  {
    DictOfLookup(s, s[i].0);
    LastWhereIs(s, MatchKey(s[i].0), i);
  }

  lemma LastWhereInit<T>(s: seq<T>, p: T -> bool)
    requires s != [] && !p(s[|s| - 1])
    ensures LastWhere(s, p) == LastWhere(s[..|s| - 1], p)
  {
  }

  /** Keys of `{k: v for (k, v) in s}` appear in order of first occurrence. */
  lemma {:induction false} DictOfKeys<K, V>(s: seq<(K, V)>)
    ensures Keys(DictOf(s)) == FirstOccurrences(Keys(s))
  {
    if s != [] {
      var init, last := s[..|s| - 1], s[|s| - 1];
      assert s == init + [last];
      DictOfKeys(init);
      KeysSnoc(init, last);
      var ks := Keys(s);
      assert ks[..|ks| - 1] == Keys(init) && ks[|ks| - 1] == last.0;
      DictOfKeySet(init);
      var d := DictOf(init);
      assert DictOf(s) == Assign(d, last.0, last.1);
      assert last.0 in Keys(d) <==> last.0 in Keys(init);
    }
  }

  lemma {:induction false} DictOfKeySet<K, V>(s: seq<(K, V)>)
    ensures forall k :: k in Keys(DictOf(s)) <==> k in Keys(s)
  {
    if s != [] {
      var init, last := s[..|s| - 1], s[|s| - 1];
      assert s == init + [last];
      DictOfKeySet(init);
      KeysSnoc(init, last);
      var d := DictOf(init);
      assert DictOf(s) == Assign(d, last.0, last.1);
      AssignKeySet(d, last.0, last.1);
    }
  }

  lemma KeysSnoc<K, V>(d: Dict<K, V>, item: (K, V))
    ensures Keys(d + [item]) == Keys(d) + [item.0]
  {
  }

  lemma AssignKeySet<K, V>(d: Dict<K, V>, k: K, v: V)
    ensures forall k' :: k' in Keys(Assign(d, k, v)) <==> k' in Keys(d) || k' == k
  {
  }

  /** The elements of ks without repetitions, in order of first occurrence. */
  function FirstOccurrences<T(==)>(ks: seq<T>): seq<T> {
    if ks == [] then []
    else
      var init := FirstOccurrences(ks[..|ks| - 1]);
      if ks[|ks| - 1] in ks[..|ks| - 1] then init else init + [ks[|ks| - 1]]
  }
}
