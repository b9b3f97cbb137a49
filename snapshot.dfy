/** The boot-environment snapshot plug-in: snapshot sizes such as "886M"
    turned into bytes, the N/R activity flags decoded, and a check of the
    running snapshot, the next-boot target and the age and size of the
    inactive snapshots. */
module Snapshot {
  import opened Common
  import opened Text
  import opened Numbers

  /** A snapshot record as the agent writes it; fields the plug-in does
      not read are not modelled. */
  datatype RawSnapshot = RawSnapshot(name: string, created: int, active: string, size: string)

  /** A snapshot after parsing: `current` is the running snapshot (N),
      `reboot` the next-boot target (R), the size is in bytes. */
  datatype Snapshot = Snapshot(name: string, created: int, current: bool, reboot: bool, size: int)

  /** The multiplier of a lower-cased size suffix, if it is one. */
  function UnitFactor(c: char): (f: Option<nat>)
    ensures f.Some? <==> c in "kmg"
    ensures c == 'k' ==> f == Some(1024)
    ensures c == 'm' ==> f == Some(1024 * 1024)
    ensures c == 'g' ==> f == Some(1024 * 1024 * 1024)
  {
    if c == 'k' then Some(1024)
    else if c == 'm' then Some(1024 * 1024)
    else if c == 'g' then Some(1024 * 1024 * 1024)
    else None
  }

  /** _parse_size: the last character (any case) picks the unit, which is
      looked up before the number is read; the rest is read as a float,
      scaled and truncated toward zero. */
  function ParseSize(size: string): (r: Try<int>)
    ensures size == [] ==> r == Raised(IndexError)
    ensures size != [] && LowerChar(size[|size| - 1]) !in "kmg" ==> r == Raised(KeyError)
    ensures size != [] && LowerChar(size[|size| - 1]) in "kmg" ==>
              (r.Raised? <==> ParseFloat(size[..|size| - 1]).Raised?)
    ensures r.Raised? ==> r.exception in {IndexError, KeyError, ValueError}
  {
    if size == [] then Raised(IndexError)
    else
      var factor := UnitFactor(LowerChar(size[|size| - 1]));
      if factor.None? then Raised(KeyError)
      else
        var x := ParseFloat(size[..|size| - 1]);
        if x.Raised? then Raised(x.exception)
        else Ok(Scaled(x.value, factor.value))
  }

  /** int(x * factor) */
  function Scaled(x: real, factor: nat): int {
    Trunc(x * factor as real)
  }

  /** A size suffix after a number: the number read as a float, scaled by
      the unit and truncated. */
  lemma ParseSizeSuffix(number: string, u: char)
    requires LowerChar(u) in "kmg"
    ensures ParseFloat(number).Raised? ==> ParseSize(number + [u]) == Raised(ValueError)
    ensures ParseFloat(number).Ok? ==>
              ParseSize(number + [u]) == Ok(Scaled(ParseFloat(number).value, UnitFactor(LowerChar(u)).value))
  {
    var s := number + [u];
    assert s[..|s| - 1] == number;
  }

  /** A whole number of units scales exactly. */
  lemma ScaledWhole(n: nat, factor: nat)
    ensures Scaled(n as real, factor) == n * factor
  {
    assert n as real * factor as real == (n * factor) as real;
  }

  /** An integer count of units: "<n>K", "<n>m", ... is n times the unit,
      in either case of the suffix. */
  lemma ParseSizeInteger(n: nat, u: char)
    requires LowerChar(u) in "kmg"
    ensures ParseSize(NatToString(n) + [u]) == Ok(n * UnitFactor(LowerChar(u)).value)
  {
    assert NatToString(n) == IntToString(n);
    FloatOfIntString(n);
    ParseSizeSuffix(NatToString(n), u);
    ScaledWhole(n, UnitFactor(LowerChar(u)).value);
  }

  /** A decimal count of units: "<whole>.<frac><u>" is the decimal value
      times the unit, truncated. */
  lemma ParseSizeDecimal(whole: string, frac: string, u: char)
    requires whole != [] && AllDigits(whole) && AllDigits(frac)
    requires LowerChar(u) in "kmg"
    ensures ParseSize(whole + "." + frac + [u])
         == Ok(Scaled(DecimalValue(whole, frac), UnitFactor(LowerChar(u)).value))
  {
    FloatOfDecimal(whole, frac);
    ParseSizeSuffix(whole + "." + frac, u);
  }

  /** The sizes of the plug-in's sample output: 886M is 929038336 bytes,
      and 2.26G is 2426656522 bytes. */
  lemma ParseSizeExamples()
    ensures ParseSize(NatToString(886) + ['M']) == Ok(929038336)
    ensures ParseSize(NatToString(2) + "." + NatToString(26) + ['G']) == Ok(2426656522)
  {
    ParseSizeInteger(886, 'M');
    GigabyteExample(NatToString(2), NatToString(26));
  }

  lemma GigabyteExample(w: string, f: string)
    requires w == NatToString(2) && f == NatToString(26)
    ensures ParseSize(w + "." + f + ['G']) == Ok(2426656522)
  {
    TwoPointTwentySix(w, f);
    ParseSizeDecimal(w, f, 'G');
    GigabyteScale();
  }

  lemma TwoPointTwentySix(w: string, f: string)
    requires w == NatToString(2) && f == NatToString(26)
    ensures w != [] && AllDigits(w) && AllDigits(f) && DecimalValue(w, f) == 2.26
  {
    NatToStringValue(2);
    NatToStringValue(26);
    assert |f| == 2;
  }

  lemma GigabyteScale()
    ensures Scaled(2.26, UnitFactor(LowerChar('G')).value) == 2426656522
  {
    assert UnitFactor(LowerChar('G')).value == 1024 * 1024 * 1024;
  }

  /** One record of parse_opnsense_snapshot. */
  function ParseRecord(raw: RawSnapshot): Try<Snapshot> {
    var size := ParseSize(raw.size);
    if size.Raised? then Raised(size.exception)
    else Ok(Snapshot(raw.name, raw.created, 'N' in raw.active, 'R' in raw.active, size.value))
  }

  /** parse_opnsense_snapshot on the decoded lines; an empty table gives
      an empty section. */
  function ParseSnapshots(records: seq<RawSnapshot>): Try<seq<Snapshot>> {
    TryMap(records, ParseRecord)
  }

  /** Parsing fails exactly when a size does; otherwise it keeps order and
      length, copies name and creation time, and decodes the flags. */
  lemma ParseSnapshotsSpec(records: seq<RawSnapshot>)
    ensures ParseSnapshots(records).Ok? <==> forall i :: 0 <= i < |records| ==> ParseSize(records[i].size).Ok?
    ensures ParseSnapshots(records).Ok? ==>
              var parsed := ParseSnapshots(records).value;
              && |parsed| == |records|
              && forall i :: 0 <= i < |records| ==>
                   parsed[i] == Snapshot(records[i].name, records[i].created, 'N' in records[i].active,
                                         'R' in records[i].active, ParseSize(records[i].size).value)
  {
    TryMapSpec(records, ParseRecord);
  }

  /** discovery_opnsense_snapshot: the number of services it yields. */
  function DiscoverSnapshot(section: seq<Snapshot>): (n: nat)
    ensures n <= 1
    ensures n == 1 <==> section != []
  {
    if |section| > 0 then 1 else 0
  }

  // ---------------------------------------------------------------------
  // Check

  /** The check parameters: the expected running snapshot and the upper
      levels on the oldest age and the biggest size. */
  datatype SnapshotParams = SnapshotParams(running: Option<string>, oldest: Levels, maxsize: Levels)

  predicate IsCurrent(s: Snapshot) {
    s.current
  }

  predicate IsReboot(s: Snapshot) {
    s.reboot
  }

  /** Neither running nor the next-boot target. */
  predicate IsInactive(s: Snapshot) {
    !s.current && !s.reboot
  }

  /** min(s.created for s in snapshots) */
  function MinCreated(snapshots: seq<Snapshot>): (m: int)
    requires snapshots != []
    ensures forall i :: 0 <= i < |snapshots| ==> m <= snapshots[i].created
    ensures exists i :: 0 <= i < |snapshots| && snapshots[i].created == m
  {
    if |snapshots| == 1 then snapshots[0].created
    else
      var rest := MinCreated(snapshots[1..]);
      assert forall i :: 1 <= i < |snapshots| ==> snapshots[i] == snapshots[1..][i - 1];
      if snapshots[0].created <= rest then snapshots[0].created else rest
  }

  /** max(s.size for s in snapshots) */
  function MaxSize(snapshots: seq<Snapshot>): (m: int)
    requires snapshots != []
    ensures forall i :: 0 <= i < |snapshots| ==> snapshots[i].size <= m
    ensures exists i :: 0 <= i < |snapshots| && snapshots[i].size == m
  {
    if |snapshots| == 1 then snapshots[0].size
    else
      var rest := MaxSize(snapshots[1..]);
      assert forall i :: 1 <= i < |snapshots| ==> snapshots[i] == snapshots[1..][i - 1];
      if snapshots[0].size >= rest then snapshots[0].size else rest
  }

  /** The result on the running snapshot. */
  function RunningResult(params: SnapshotParams, current: Snapshot): (r: CheckItem)
    ensures r.Result?
    ensures r.state == OK <==> params.running.None? || params.running.value == current.name
    ensures r.state in {OK, WARN}
  {
    if params.running.None? || params.running.value == current.name then
      Result(OK, "Running on " + current.name)
    else
      Result(WARN, "Running on " + current.name + " (expected: " + params.running.value + ")")
  }

  /** The oldest age and the biggest size of the inactive snapshots, each
      against its optional upper levels; `now` is the current time in
      seconds. */
  function InactiveItems(params: SnapshotParams, inactive: seq<Snapshot>, now: real): (r: seq<CheckItem>)
    ensures inactive == [] ==> r == []
    ensures inactive != [] ==> |r| == 4
  {
    if inactive == [] then []
    else
      CheckLevels(Trunc(now - MinCreated(inactive) as real) as real, params.oldest, NoLevels,
                  Some("oldest"), "Oldes snapshot age", None)
      + CheckLevels(MaxSize(inactive) as real, params.maxsize, NoLevels, Some("maxsize"), "Biggest snapshot", None)
  }

  /** check_opnsense_snapshot. The first current and the first next-boot
      snapshot are looked up with next(); a missing one ends the generator
      with RuntimeError. Otherwise the running result comes first. */
  function CheckSnapshot(params: SnapshotParams, section: seq<Snapshot>, now: real): (r: Try<seq<CheckItem>>)
    ensures r.Raised? <==> (forall i :: 0 <= i < |section| ==> !section[i].current) ||
                           (forall i :: 0 <= i < |section| ==> !section[i].reboot)
    ensures r.Raised? ==> r.exception == RuntimeError
    ensures r.Ok? ==> r.value != [] && r.value[0] == RunningResult(params, section[FirstWhere(section, IsCurrent).value])
  {
    var c := FirstWhere(section, IsCurrent);
    var b := FirstWhere(section, IsReboot);
    if c.None? || b.None? then Raised(RuntimeError)
    else
      var current := section[c.value];
      var boot := section[b.value];
      Ok([RunningResult(params, current)]
         + (if !current.reboot then [Result(WARN, "Next boot: " + boot.name)] else [])
         + InactiveItems(params, Filter(section, IsInactive), now))
  }

  /** "Next boot" is reported, as a warning naming the first next-boot
      snapshot, exactly when the running snapshot is not the next-boot
      target; the inactive items follow. */
  lemma CheckNextBoot(params: SnapshotParams, section: seq<Snapshot>, now: real)
    requires CheckSnapshot(params, section, now).Ok?
    ensures var out := CheckSnapshot(params, section, now).value;
            var current := section[FirstWhere(section, IsCurrent).value];
            var boot := section[FirstWhere(section, IsReboot).value];
            var k := if current.reboot then 1 else 2;
            && |out| == k + |InactiveItems(params, Filter(section, IsInactive), now)|
            && (!current.reboot <==> out[1..k] == [Result(WARN, "Next boot: " + boot.name)])
            && out[k..] == InactiveItems(params, Filter(section, IsInactive), now)
  {
  }

  /** `m` is the creation time of an inactive snapshot, and no inactive
      snapshot is older. */
  predicate EarliestCreation(section: seq<Snapshot>, m: int) {
    && (exists i :: 0 <= i < |section| && IsInactive(section[i]) && section[i].created == m)
    && (forall j :: 0 <= j < |section| && IsInactive(section[j]) ==> m <= section[j].created)
  }

  /** The minimum over the inactive snapshots is the creation time of an
      inactive snapshot that none is older than. */
  lemma OldestInactive(section: seq<Snapshot>)
    requires Filter(section, IsInactive) != []
    ensures EarliestCreation(section, MinCreated(Filter(section, IsInactive)))
  {
    var inactive := Filter(section, IsInactive);
    FilterMembers(section, IsInactive);
    var m := MinCreated(inactive);
    var a :| 0 <= a < |inactive| && inactive[a].created == m;
    assert inactive[a] in inactive;
    assert inactive[a] in section && IsInactive(inactive[a]);
    forall j | 0 <= j < |section| && IsInactive(section[j])
      ensures m <= section[j].created
    {
      assert section[j] in section;
      assert section[j] in inactive;
    }
  }

  /** The maximum over the inactive snapshots is the size of an inactive
      snapshot that none is bigger than. */
  lemma BiggestInactive(section: seq<Snapshot>)
    requires Filter(section, IsInactive) != []
    ensures BiggestSizeOf(section, MaxSize(Filter(section, IsInactive)) as real)
  {
    var inactive := Filter(section, IsInactive);
    FilterMembers(section, IsInactive);
    var m := MaxSize(inactive);
    var a :| 0 <= a < |inactive| && inactive[a].size == m;
    assert inactive[a] in inactive;
    assert inactive[a] in section && IsInactive(inactive[a]);
    forall j | 0 <= j < |section| && IsInactive(section[j])
      ensures section[j].size <= m
    {
      assert section[j] in section;
      assert section[j] in inactive;
    }
  }

  /** `age` is the truncated age of an inactive snapshot, and no inactive
      snapshot is older. */
  predicate OldestAgeOf(section: seq<Snapshot>, now: real, age: real) {
    && (exists i :: 0 <= i < |section| && IsInactive(section[i]) && age == Trunc(now - section[i].created as real) as real)
    && (forall j :: 0 <= j < |section| && IsInactive(section[j]) ==> age >= Trunc(now - section[j].created as real) as real)
  }

  /** `size` is the size of an inactive snapshot, and no inactive snapshot
      is bigger. */
  predicate BiggestSizeOf(section: seq<Snapshot>, size: real) {
    && (exists i :: 0 <= i < |section| && IsInactive(section[i]) && size == section[i].size as real)
    && (forall j :: 0 <= j < |section| && IsInactive(section[j]) ==> section[j].size as real <= size)
  }

  /** Without inactive snapshots nothing else is reported; with some, the
      age of the oldest one (truncated to whole seconds) and the size of
      the biggest, in that order, each with its metric. */
  lemma InactiveReport(params: SnapshotParams, section: seq<Snapshot>, now: real)
    ensures InactiveItems(params, Filter(section, IsInactive), now) == [] <==>
              forall i :: 0 <= i < |section| ==> !IsInactive(section[i])
    ensures var r := InactiveItems(params, Filter(section, IsInactive), now);
            r != [] ==>
              && r[0].Result? && r[0].summary == "Oldes snapshot age"
              && r[1].Metric? && r[1].name == "oldest" && OldestAgeOf(section, now, r[1].value)
              && r[2].Result? && r[2].summary == "Biggest snapshot"
              && r[3].Metric? && r[3].name == "maxsize" && BiggestSizeOf(section, r[3].value)
  {
    var inactive := Filter(section, IsInactive);
    FilterMembers(section, IsInactive);
    if inactive == [] {
      forall i | 0 <= i < |section| && IsInactive(section[i])
        ensures false
      {
      }
    } else {
      assert inactive[0] in inactive;
      assert IsInactive(inactive[0]) && inactive[0] in section;
      InactiveLayout(params, inactive, now);
      OldestAge(section, now);
      BiggestInactive(section);
    }
  }

  /** The truncated age of the oldest inactive snapshot. */
  lemma OldestAge(section: seq<Snapshot>, now: real)
    requires Filter(section, IsInactive) != []
    ensures OldestAgeOf(section, now, Trunc(now - MinCreated(Filter(section, IsInactive)) as real) as real)
  {
    OldestInactive(section);
    AgesBelow(section, now, MinCreated(Filter(section, IsInactive)));
  }

  /** Ages follow creation times: m, the earliest creation time of an
      inactive snapshot, gives the largest age. */
  lemma AgesBelow(section: seq<Snapshot>, now: real, m: int)
    requires EarliestCreation(section, m)
    ensures OldestAgeOf(section, now, Trunc(now - m as real) as real)
  {
    forall j | 0 <= j < |section| && IsInactive(section[j])
      ensures Trunc(now - m as real) >= Trunc(now - section[j].created as real)
    {
      TruncMonotone(now - section[j].created as real, now - m as real);
    }
  }

  /** The four items of a non-empty list of inactive snapshots. */
  lemma InactiveLayout(params: SnapshotParams, inactive: seq<Snapshot>, now: real)
    requires inactive != []
    ensures var r := InactiveItems(params, inactive, now);
            && r[0].Result? && r[0].summary == "Oldes snapshot age"
            && r[1].Metric? && r[1].name == "oldest" && r[1].value == Trunc(now - MinCreated(inactive) as real) as real
            && r[2].Result? && r[2].summary == "Biggest snapshot"
            && r[3].Metric? && r[3].name == "maxsize" && r[3].value == MaxSize(inactive) as real
  {
    var age := CheckLevels(Trunc(now - MinCreated(inactive) as real) as real, params.oldest, NoLevels,
                           Some("oldest"), "Oldes snapshot age", None);
    var size := CheckLevels(MaxSize(inactive) as real, params.maxsize, NoLevels, Some("maxsize"), "Biggest snapshot", None);
    var r := InactiveItems(params, inactive, now);
    assert r == age + size;
    assert r[0] == age[0] && r[1] == age[1] && r[2] == size[0] && r[3] == size[1];
  }

  /** Truncation toward zero is monotone. */
  lemma TruncMonotone(x: real, y: real)
    requires x <= y
    ensures Trunc(x) <= Trunc(y)
  {
  }

  /** The sample section: an inactive snapshot of 886 MiB created two days
      two hours before `now`, and the running snapshot, which is also the
      next-boot target. */
  function SampleSection(): seq<Snapshot> {
    [Snapshot("2025-05-26-10-38", 1748248680, false, false, 929038336),
     Snapshot("default", 1714642080, true, true, 2426656522)]
  }

  /** On the sample section, for any parameters: the running result, then
      an age of 181020 seconds and a size of 929038336 bytes. */
  lemma SampleCheck(params: SnapshotParams)
    ensures CheckSnapshot(params, SampleSection(), 1748429700.0)
         == Ok([RunningResult(params, SampleSection()[1])]
               + CheckLevels(181020.0, params.oldest, NoLevels, Some("oldest"), "Oldes snapshot age", None)
               + CheckLevels(929038336.0, params.maxsize, NoLevels, Some("maxsize"), "Biggest snapshot", None))
  {
    var s := SampleSection();
    var now := 1748429700.0;
    assert FirstWhere(s, IsCurrent) == Some(1);
    assert FirstWhere(s, IsReboot) == Some(1);
    assert Filter(s, IsInactive) == [s[0]];
    assert MinCreated([s[0]]) == 1748248680 && MaxSize([s[0]]) == 929038336;
    assert Trunc(now - 1748248680 as real) == 181020;
    var age := CheckLevels(181020.0, params.oldest, NoLevels, Some("oldest"), "Oldes snapshot age", None);
    var size := CheckLevels(929038336.0, params.maxsize, NoLevels, Some("maxsize"), "Biggest snapshot", None);
    assert InactiveItems(params, [s[0]], now) == age + size;
    var running := [RunningResult(params, s[1])];
    assert CheckSnapshot(params, s, now) == Ok(running + [] + InactiveItems(params, [s[0]], now));
    assert running + [] + (age + size) == running + age + size;
  }

  /** The two items of a levelled value with metric and no boundaries. */
  lemma LevelledItems(value: real, upper: Levels, metric: string, title: string, state: State)
    requires CheckLevels(value, upper, NoLevels, Some(metric), title, None)[0].state == state
    ensures CheckLevels(value, upper, NoLevels, Some(metric), title, None)
         == [Result(state, title), Metric(metric, value, MetricLevels(upper), None)]
  {
    var r := CheckLevels(value, upper, NoLevels, Some(metric), title, None);
    assert r == [r[0], r[1]];
  }

  /** Without parameters everything is OK. */
  lemma CheckExampleDefaults()
    ensures CheckSnapshot(SnapshotParams(None, NoLevels, NoLevels), SampleSection(), 1748429700.0)
         == Ok([Result(OK, "Running on default"),
                Result(OK, "Oldes snapshot age"), Metric("oldest", 181020.0, None, None),
                Result(OK, "Biggest snapshot"), Metric("maxsize", 929038336.0, None, None)])
  {
    var plain := SnapshotParams(None, NoLevels, NoLevels);
    SampleCheck(plain);
    assert "Running on " + "default" == "Running on default";
    var running := [RunningResult(plain, SampleSection()[1])];
    var age := CheckLevels(181020.0, NoLevels, NoLevels, Some("oldest"), "Oldes snapshot age", None);
    var size := CheckLevels(929038336.0, NoLevels, NoLevels, Some("maxsize"), "Biggest snapshot", None);
    LevelledItems(181020.0, NoLevels, "oldest", "Oldes snapshot age", OK);
    LevelledItems(929038336.0, NoLevels, "maxsize", "Biggest snapshot", OK);
    assert running == [Result(OK, "Running on default")];
    assert age == [Result(OK, "Oldes snapshot age"), Metric("oldest", 181020.0, None, None)];
    assert size == [Result(OK, "Biggest snapshot"), Metric("maxsize", 929038336.0, None, None)];
    assert running + age + size == [running[0], age[0], age[1], size[0], size[1]];
  }

  /** An unexpected running snapshot warns and names the expected one. */
  lemma CheckExampleRunning()
    ensures CheckSnapshot(SnapshotParams(Some("pytest"), NoLevels, NoLevels), SampleSection(), 1748429700.0).Ok?
    ensures CheckSnapshot(SnapshotParams(Some("pytest"), NoLevels, NoLevels), SampleSection(), 1748429700.0).value[0]
         == Result(WARN, "Running on default (expected: pytest)")
  {
    SampleCheck(SnapshotParams(Some("pytest"), NoLevels, NoLevels));
    assert "Running on " + "default" + " (expected: " + "pytest" + ")" == "Running on default (expected: pytest)";
  }

  /** Levels of one day on the age and of 512 MiB on the size both warn. */
  lemma CheckExampleLevels()
    ensures CheckSnapshot(SnapshotParams(None, Fixed(86400.0, 864000.0), Fixed(536870912.0, 1073741824.0)),
                          SampleSection(), 1748429700.0)
         == Ok([Result(OK, "Running on default"),
                Result(WARN, "Oldes snapshot age"), Metric("oldest", 181020.0, Some((86400.0, 864000.0)), None),
                Result(WARN, "Biggest snapshot"), Metric("maxsize", 929038336.0, Some((536870912.0, 1073741824.0)), None)])
  {
    var levelled := SnapshotParams(None, Fixed(86400.0, 864000.0), Fixed(536870912.0, 1073741824.0));
    SampleCheck(levelled);
    assert "Running on " + "default" == "Running on default";
    var running := [RunningResult(levelled, SampleSection()[1])];
    var age := CheckLevels(181020.0, levelled.oldest, NoLevels, Some("oldest"), "Oldes snapshot age", None);
    var size := CheckLevels(929038336.0, levelled.maxsize, NoLevels, Some("maxsize"), "Biggest snapshot", None);
    LevelledItems(181020.0, levelled.oldest, "oldest", "Oldes snapshot age", WARN);
    LevelledItems(929038336.0, levelled.maxsize, "maxsize", "Biggest snapshot", WARN);
    assert running == [Result(OK, "Running on default")];
    assert age == [Result(WARN, "Oldes snapshot age"), Metric("oldest", 181020.0, Some((86400.0, 864000.0)), None)];
    assert size == [Result(WARN, "Biggest snapshot"),
                    Metric("maxsize", 929038336.0, Some((536870912.0, 1073741824.0)), None)];
    assert running + age + size == [running[0], age[0], age[1], size[0], size[1]];
  }
}
