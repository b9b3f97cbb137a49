/** The IPsec plug-in: a service per configured connection, checked
    against the baseline of Phase-1 version and Phase-2 children recorded
    at discovery, and a service per installed Phase-2 child. */
module IPsec {
  import opened Common
  import opened Text
  import opened Numbers
  import opened Rates

  /** An entry of the opnsense_ipsec section (a configured connection). */
  datatype Connection = Connection(description: string, uuid: string)

  /** An entry of the opnsense_ipsec_phase1 section. The counters and the
      install time are the raw JSON values handed to int() and float(). */
  datatype Phase1 = Phase1(name: string, connected: Json, version: string, installTime: Json,
                           bytesIn: Json, bytesOut: Json, packetsIn: Json, packetsOut: Json)

  /** An entry of the opnsense_ipsec_phase2 section (a child SA). The
      optional keys integ-alg and dh-group are None when absent. */
  datatype Child = Child(state: string, ikeid: string, phase2desc: string, protocol: string,
                         encrAlg: string, encrKeysize: string, integAlg: Option<string>,
                         dhGroup: Option<string>, localTs: string, remoteTs: string,
                         installTime: Json, rekeyTime: Json, lifeTime: Json)

  /** What discovery records of one child in the service parameters. */
  datatype ChildBaseline = ChildBaseline(name: string, encrAlg: string, integAlg: Option<string>, protocol: string)

  /** params['discovered']: the Phase-1 version (absent when no Phase-1
      matched at discovery) and the children. */
  datatype Baseline = Baseline(version: Option<string>, phase2: seq<ChildBaseline>)

  /** The check parameters: 'version' ('discovered', the default, stands
      for the discovered version) and 'discovered' (absent on a service
      that was not created by discovery). */
  datatype IpsecParams = IpsecParams(version: Option<string>, discovered: Option<Baseline>)

  datatype IpsecService = IpsecService(item: string, discovered: Baseline)

  // ---------------------------------------------------------------------
  // Parsing

  predicate Installed(c: Child) {
    c.state == "INSTALLED"
  }

  /** parse_opnsense_ipsec_phase2 on the decoded lines: an empty table
      makes parse_jsonl return None, which the comprehension cannot
      iterate; otherwise the INSTALLED children in their original order. */
  function ParsePhase2(records: seq<Child>): (r: Try<seq<Child>>)
    ensures r.Raised? <==> records == []
    ensures r.Raised? ==> r.exception == TypeError
    ensures r.Ok? ==> forall i :: 0 <= i < |r.value| ==> Installed(r.value[i]) && r.value[i] in records
    ensures r.Ok? ==> forall i :: 0 <= i < |records| && Installed(records[i]) ==> records[i] in r.value
  {
    if records == [] then Raised(TypeError)
    else FilterMembers(records, Installed); Ok(Filter(records, Installed))
  }

  /** Parsing keeps the installed children in order: parsing a
      concatenation concatenates the parses. */
  lemma ParsePhase2Order(a: seq<Child>, b: seq<Child>)
    requires a != [] && b != []
    ensures ParsePhase2(a + b) == Ok(ParsePhase2(a).value + ParsePhase2(b).value)
  {
    FilterAppend(a, b, Installed);
  }

  // ---------------------------------------------------------------------
  // Discovery of connection services

  function Described(item: string): Connection -> bool {
    (c: Connection) => c.description == item
  }

  function NamedAs(uuid: string): Phase1 -> bool {
    (p: Phase1) => p.name == uuid
  }

  function OfConnection(uuid: string): Child -> bool {
    (c: Child) => c.ikeid == uuid
  }

  function BaselineOfChild(c: Child): ChildBaseline {
    ChildBaseline(c.phase2desc, c.encrAlg, c.integAlg, c.protocol)
  }

  /** The baseline discovery records for a connection. */
  function BaselineOf(conn: Connection, phase1s: seq<Phase1>, phase2s: seq<Child>): (b: Baseline)
    ensures b.version.Some? <==> exists i :: 0 <= i < |phase1s| && phase1s[i].name == conn.uuid
    ensures b.version.Some? ==> b.version.value == phase1s[FirstWhere(phase1s, NamedAs(conn.uuid)).value].version
    ensures |b.phase2| == |Filter(phase2s, OfConnection(conn.uuid))|
    ensures forall i :: 0 <= i < |b.phase2| ==>
              var c := Filter(phase2s, OfConnection(conn.uuid))[i];
              b.phase2[i] == ChildBaseline(c.phase2desc, c.encrAlg, c.integAlg, c.protocol)
  {
    var first := FirstWhere(phase1s, NamedAs(conn.uuid));
    var children := Filter(phase2s, OfConnection(conn.uuid));
    Baseline(if first.Some? then Some(phase1s[first.value].version) else None,
             seq(|children|, i requires 0 <= i < |children| => BaselineOfChild(children[i])))
  }

  /** discovery_opnsense_ipsec: one service per connection, named by its
      description. The Phase-1 and Phase-2 sections are iterated per
      connection, so their absence only fails when a connection exists. */
  function DiscoverIpsec(conns: Option<seq<Connection>>, phase1s: Option<seq<Phase1>>,
                         phase2s: Option<seq<Child>>): (r: Try<seq<IpsecService>>)
    ensures r.Raised? <==> conns.Some? && conns.value != [] && (phase1s.None? || phase2s.None?)
    ensures r.Raised? ==> r.exception == TypeError
    ensures r.Ok? ==> |r.value| == (if conns.Some? then |conns.value| else 0)
    ensures r.Ok? ==> forall i :: 0 <= i < |r.value| ==>
              r.value[i] == IpsecService(conns.value[i].description, BaselineOf(conns.value[i], phase1s.value, phase2s.value))
  {
    if conns.None? || conns.value == [] then Ok([])
    else if phase1s.None? || phase2s.None? then Raised(TypeError)
    else
      var cs := conns.value;
      Ok(seq(|cs|, i requires 0 <= i < |cs| => IpsecService(cs[i].description, BaselineOf(cs[i], phase1s.value, phase2s.value))))
  }

  // ---------------------------------------------------------------------
  // The connection check

  /** A field rendered as is, or with the value it was expected to have. */
  function FieldText(actual: string, expected: string, matches: bool): (t: string)
    ensures matches ==> t == actual
    ensures !matches ==> t == actual + " (expected: " + expected + ")"
  {
    if matches then actual else actual + " (expected: " + expected + ")"
  }

  /** The expected Phase-1 version: the parameter, unless it is
      'discovered' (or unset), in which case the discovered version. */
  function ExpectedVersion(params: IpsecParams, discovered: Baseline): Option<string> {
    if params.version.None? || params.version == Some("discovered") then discovered.version else params.version
  }

  function VersionResult(expected: Option<string>, live: string): (r: CheckItem)
    ensures r.Result?
    ensures r.state == WARN <==> TruthyStr(expected) && expected.value != live
    ensures r.state != WARN ==> r.state == OK && r.summary == live
    ensures r.state == WARN ==> r.summary == live + " (expected: " + expected.value + ")"
  {
    if TruthyStr(expected) && expected.value != live then Result(WARN, FieldText(live, expected.value, false))
    else Result(OK, live)
  }

  /** The install time, skipped when float() fails. */
  function InstallTimeItems(p: Phase1): seq<CheckItem> {
    var t := FloatOf(p.installTime);
    if t.Raised? then [] else CheckLevels(t.value, NoLevels, NoLevels, Some("install_time"), "Install Time", None)
  }

  /** The value-store key of a connection's counter. */
  function RateKey(uuid: string, direction: string, unit: string): string {
    "check_opnsense_ipsec." + uuid + ".if_" + direction + "_" + unit
  }

  function TimesEight(n: Try<int>): (r: Try<int>)
    ensures r.Ok? <==> n.Ok?
    ensures r.Ok? ==> r.value == 8 * n.value
  {
    if n.Raised? then n else Ok(8 * n.value)
  }

  /** The four rate metrics of a connection in the order the check
      computes them: bits in, packets in, bits out, packets out. */
  function RateRequestsOf(uuid: string, p: Phase1): seq<RateRequest> {
    var bounds := Some(Bounds(0.0, None));
    [ RateRequest(RateKey(uuid, "in", "bps"), TimesEight(IntOf(p.bytesIn)), "if_in_bps", "Bandwith in", bounds),
      RateRequest(RateKey(uuid, "in", "pkts"), IntOf(p.packetsIn), "if_in_pkts", "Packets in", bounds),
      RateRequest(RateKey(uuid, "out", "bps"), TimesEight(IntOf(p.bytesOut)), "if_out_bps", "Bandwith out", bounds),
      RateRequest(RateKey(uuid, "out", "pkts"), IntOf(p.packetsOut), "if_out_pkts", "Packets out", bounds) ]
  }

  /** The four keys of a connection are distinct, and each embeds the
      connection's uuid and the counter's direction. */
  lemma RateKeysDistinct(uuid: string, p: Phase1)
    ensures DistinctRequestKeys(RateRequestsOf(uuid, p))
    ensures forall i :: 0 <= i < 4 ==> RateRequestsOf(uuid, p)[i].key[..21 + |uuid|] == "check_opnsense_ipsec." + uuid
  {
    var reqs := RateRequestsOf(uuid, p);
    var n := 21 + |uuid|;
    forall i, j | 0 <= i < j < 4
      ensures reqs[i].key != reqs[j].key
    {
      var a, b := reqs[i].key, reqs[j].key;
      if |a| == |b| {
        assert (i, j) == (1, 2);
        assert a[|a| - 1] == 's' && a[|a| - 2] == 't';
        assert b[|b| - 2] == 'p';
      }
    }
  }

  /** A failing rate omits only its own metric: the connection's rate
      items are those of each counter taken alone. */
  lemma RatesIndependent(samples: map<string, Sample>, uuid: string, p: Phase1, now: real)
    ensures var reqs := RateRequestsOf(uuid, p);
      RateFold(samples, reqs, now).1
        == RateItems(samples, reqs[0], now) + RateItems(samples, reqs[1], now)
           + RateItems(samples, reqs[2], now) + RateItems(samples, reqs[3], now)
  {
    var reqs := RateRequestsOf(uuid, p);
    RateKeysDistinct(uuid, p);
    RateFoldIndependent(samples, reqs, now);
    var all := seq(|reqs|, i requires 0 <= i < |reqs| => RateItems(samples, reqs[i], now));
    assert Flatten(all[..1]) == all[0] by { assert all[..1][..0] == []; }
    assert Flatten(all[..2]) == all[0] + all[1] by { assert all[..2][..1] == all[..1]; }
    assert Flatten(all[..3]) == all[0] + all[1] + all[2] by { assert all[..3][..2] == all[..2]; }
    assert Flatten(all) == all[0] + all[1] + all[2] + all[3] by { assert all[..3] == all[..3]; }
  }

  function ChildNamed(name: string): Child -> bool {
    (c: Child) => c.phase2desc == name
  }

  function BaselineNamed(name: string): ChildBaseline -> bool {
    (d: ChildBaseline) => d.name == name
  }

  /** Does a live child deviate from its baseline? The integrity
      algorithm counts only when the baseline has a truthy one. */
  predicate ChildDeviates(d: ChildBaseline, c: Child) {
    || d.protocol != c.protocol
    || (TruthyStr(d.integAlg) && d.integAlg != c.integAlg)
    || d.encrAlg != c.encrAlg
  }

  /** The notice of a compared child: its name, then protocol, integrity
      (when the baseline has one) and encryption algorithm, each with the
      expected value when it deviates. */
  function ChildNotice(d: ChildBaseline, c: Child): (notice: seq<string>)
    ensures |notice| == if TruthyStr(d.integAlg) then 4 else 3
    ensures notice[0] == d.name + ":"
    ensures notice[1] == FieldText(c.protocol, d.protocol, d.protocol == c.protocol)
    ensures TruthyStr(d.integAlg) ==> notice[2] == FieldText(StrOrNone(c.integAlg), d.integAlg.value, d.integAlg == c.integAlg)
    ensures notice[|notice| - 1] == FieldText(c.encrAlg, d.encrAlg, d.encrAlg == c.encrAlg)
  {
    [d.name + ":", FieldText(c.protocol, d.protocol, d.protocol == c.protocol)]
    + (if TruthyStr(d.integAlg) then [FieldText(StrOrNone(c.integAlg), d.integAlg.value, d.integAlg == c.integAlg)] else [])
    + [FieldText(c.encrAlg, d.encrAlg, d.encrAlg == c.encrAlg)]
  }

  /** The result for one baseline child against the live children of the
      connection: compared with its first namesake, or not found. */
  function ChildResult(d: ChildBaseline, children: seq<Child>): (r: CheckItem)
    ensures r.Result? && r.state in {OK, WARN}
    ensures FirstWhere(children, ChildNamed(d.name)).None? ==> r == Result(WARN, d.name + ": not found")
    ensures FirstWhere(children, ChildNamed(d.name)).Some? ==>
              var c := children[FirstWhere(children, ChildNamed(d.name)).value];
              r.state == (if ChildDeviates(d, c) then WARN else OK) && r.summary == Join(ChildNotice(d, c), " ")
  {
    var k := FirstWhere(children, ChildNamed(d.name));
    if k.None? then Result(WARN, d.name + ": not found")
    else
      var c := children[k.value];
      Result(if ChildDeviates(d, c) then WARN else OK, Join(ChildNotice(d, c), " "))
  }

  /** The live children that no baseline child names, each reported as
      an unexpected connection, in order. */
  function UnexpectedResults(children: seq<Child>, baseline: seq<ChildBaseline>): (r: seq<CheckItem>)
    ensures |r| <= |children|
    ensures forall i :: 0 <= i < |r| ==> r[i].Result? && r[i].state == WARN
  {
    if children == [] then []
    else
      UnexpectedResults(children[..|children| - 1], baseline) + UnexpectedOf(children[|children| - 1], baseline)
  }

  /** The warning for a live child without a baseline namesake. */
  function UnexpectedOf(c: Child, baseline: seq<ChildBaseline>): seq<CheckItem> {
    if FirstWhere(baseline, BaselineNamed(c.phase2desc)).None? then [Result(WARN, c.phase2desc + ": Unexpected Connection")] else []
  }

  /** Every baseline name a live child carries keeps it out of the
      unexpected results; a child whose name is not in the baseline
      yields exactly its own unexpected result. */
  lemma {:induction false} UnexpectedResultsEmpty(children: seq<Child>, baseline: seq<ChildBaseline>)
    requires forall i :: 0 <= i < |children| ==> exists j :: 0 <= j < |baseline| && baseline[j].name == children[i].phase2desc
    ensures UnexpectedResults(children, baseline) == []
  {
    if children != [] {
      var c := children[|children| - 1];
      var j :| 0 <= j < |baseline| && baseline[j].name == c.phase2desc;
      assert BaselineNamed(c.phase2desc)(baseline[j]);
      UnexpectedResultsEmpty(children[..|children| - 1], baseline);
    }
  }

  /** The loop over one more child is one more step. */
  lemma UnexpectedNext(children: seq<Child>, baseline: seq<ChildBaseline>, i: nat)
    requires i < |children|
    ensures UnexpectedResults(children[..i + 1], baseline) == UnexpectedResults(children[..i], baseline) + UnexpectedOf(children[i], baseline)
  {
    assert children[..i + 1][..i] == children[..i];
  }

  /** One result per baseline child, in baseline order. */
  function ComparedResults(baseline: seq<ChildBaseline>, children: seq<Child>): (items: seq<CheckItem>)
    ensures |items| == |baseline|
    ensures forall i :: 0 <= i < |baseline| ==> items[i] == ChildResult(baseline[i], children)
  {
    seq(|baseline|, i requires 0 <= i < |baseline| => ChildResult(baseline[i], children))
  }

  /** The number of results before the Childs count: the version, the
      install time and the rates. */
  function ReportHead(p: Phase1, rateItems: seq<CheckItem>): nat {
    1 + |InstallTimeItems(p)| + |rateItems|
  }

  /** What a connected connection reports after its rate metrics have
      been computed. */
  function ConnectedReport(p: Phase1, params: IpsecParams, discovered: Baseline, rateItems: seq<CheckItem>,
                           children: seq<Child>): seq<CheckItem> {
    [VersionResult(ExpectedVersion(params, discovered), p.version)]
    + InstallTimeItems(p)
    + rateItems
    + CheckLevels(|children| as real, NoLevels, NoLevels, Some("childs"), "Childs", Some(Bounds(0.0, None)))
    + ComparedResults(discovered.phase2, children)
    + UnexpectedResults(children, discovered.phase2)
  }

  /** The layout of a connected report: version first, then the install
      time and rates, the Childs count of the connection's live children,
      one result per baseline child, and the unexpected children last. */
  lemma ReportLayout(p: Phase1, params: IpsecParams, discovered: Baseline, rateItems: seq<CheckItem>, children: seq<Child>)
    ensures |ConnectedReport(p, params, discovered, rateItems, children)|
         == ReportHead(p, rateItems) + 2 + |discovered.phase2| + |UnexpectedResults(children, discovered.phase2)|
    ensures ConnectedReport(p, params, discovered, rateItems, children)[0] == VersionResult(ExpectedVersion(params, discovered), p.version)
    ensures ConnectedReport(p, params, discovered, rateItems, children)[1..ReportHead(p, rateItems)] == InstallTimeItems(p) + rateItems
    ensures ConnectedReport(p, params, discovered, rateItems, children)[ReportHead(p, rateItems)] == Result(OK, "Childs")
    ensures ConnectedReport(p, params, discovered, rateItems, children)[ReportHead(p, rateItems) + 1]
         == Metric("childs", |children| as real, None, Some(Bounds(0.0, None)))
    ensures forall i :: 0 <= i < |discovered.phase2| ==>
              ConnectedReport(p, params, discovered, rateItems, children)[ReportHead(p, rateItems) + 2 + i]
              == ChildResult(discovered.phase2[i], children)
    ensures ConnectedReport(p, params, discovered, rateItems, children)[ReportHead(p, rateItems) + 2 + |discovered.phase2|..]
         == UnexpectedResults(children, discovered.phase2)
  {
    var head := [VersionResult(ExpectedVersion(params, discovered), p.version)] + InstallTimeItems(p) + rateItems;
    assert head[1..] == InstallTimeItems(p) + rateItems;
    ReportParts(p, params, discovered, rateItems, children);
    Layout(head, Result(OK, "Childs"), Metric("childs", |children| as real, None, Some(Bounds(0.0, None))),
           ComparedResults(discovered.phase2, children), UnexpectedResults(children, discovered.phase2));
  }

  /** The report as its five parts. */
  lemma ReportParts(p: Phase1, params: IpsecParams, discovered: Baseline, rateItems: seq<CheckItem>, children: seq<Child>)
    ensures ConnectedReport(p, params, discovered, rateItems, children)
         == [VersionResult(ExpectedVersion(params, discovered), p.version)] + InstallTimeItems(p) + rateItems
            + [Result(OK, "Childs"), Metric("childs", |children| as real, None, Some(Bounds(0.0, None)))]
            + ComparedResults(discovered.phase2, children) + UnexpectedResults(children, discovered.phase2)
  {
    NoLevelsItems(|children| as real, "childs", "Childs", Some(Bounds(0.0, None)));
  }

  /** Where the parts of a concatenated report sit. */
  lemma Layout<T>(head: seq<T>, c0: T, c1: T, cs: seq<T>, u: seq<T>)
    requires head != []
    ensures |head + [c0, c1] + cs + u| == |head| + 2 + |cs| + |u|
    ensures (head + [c0, c1] + cs + u)[0] == head[0]
    ensures (head + [c0, c1] + cs + u)[1..|head|] == head[1..]
    ensures (head + [c0, c1] + cs + u)[|head|] == c0 && (head + [c0, c1] + cs + u)[|head| + 1] == c1
    ensures forall i :: 0 <= i < |cs| ==> (head + [c0, c1] + cs + u)[|head| + 2 + i] == cs[i]
    ensures (head + [c0, c1] + cs + u)[|head| + 2 + |cs|..] == u
  {
    var r := head + [c0, c1] + cs + u;
    assert r[1..|head|] == head[1..];
    assert r[|head| + 2 + |cs|..] == u;
  }

  /** check_opnsense_ipsec as a function of the value store before the
      check: the output, and the value store after it. */
  function IpsecCheck(samples: map<string, Sample>, item: string, params: IpsecParams,
                      conns: Option<seq<Connection>>, phase1s: Option<seq<Phase1>>,
                      phase2s: Option<seq<Child>>, now: real): (Try<seq<CheckItem>>, map<string, Sample>)
  {
    if conns.None? then (Raised(TypeError), samples)
    else
      var ci := FirstWhere(conns.value, Described(item));
      if ci.None? then (Ok([]), samples)
      else
        var conn := conns.value[ci.value];
        if phase1s.None? then (Raised(TypeError), samples)
        else
          var pi := FirstWhere(phase1s.value, NamedAs(conn.uuid));
          if pi.None? then (Ok([Result(UNKNOWN, "Phase1 not found")]), samples)
          else
            var p := phase1s.value[pi.value];
            if !Truthy(p.connected) then (Ok([Result(CRIT, "Phase1 not connected")]), samples)
            else if params.discovered.None? then (Raised(KeyError), samples)
            else
              var rates := RateFold(samples, RateRequestsOf(conn.uuid, p), now);
              if phase2s.None? then (Raised(TypeError), rates.0)
              else
                var children := Filter(phase2s.value, OfConnection(conn.uuid));
                (Ok(ConnectedReport(p, params, params.discovered.value, rates.1, children)), rates.0)
  }

  /** The check yields nothing, and leaves the store alone, when no
      connection has the item as its description. */
  lemma CheckUnknownItem(samples: map<string, Sample>, item: string, params: IpsecParams,
                         conns: seq<Connection>, phase1s: Option<seq<Phase1>>, phase2s: Option<seq<Child>>, now: real)
    requires forall i :: 0 <= i < |conns| ==> conns[i].description != item
    ensures IpsecCheck(samples, item, params, Some(conns), phase1s, phase2s, now) == (Ok([]), samples)
  {
  }

  /** Exactly one UNKNOWN result when no Phase-1 belongs to the first
      connection with the item's description. */
  lemma CheckPhase1Missing(samples: map<string, Sample>, params: IpsecParams, conns: seq<Connection>, k: nat,
                           phase1s: seq<Phase1>, phase2s: Option<seq<Child>>, now: real)
    requires k < |conns| && forall j :: 0 <= j < k ==> conns[j].description != conns[k].description
    requires forall i :: 0 <= i < |phase1s| ==> phase1s[i].name != conns[k].uuid
    ensures IpsecCheck(samples, conns[k].description, params, Some(conns), Some(phase1s), phase2s, now)
         == (Ok([Result(UNKNOWN, "Phase1 not found")]), samples)
  {
    FirstWhereIs(conns, Described(conns[k].description), k);
  }

  /** Exactly one CRIT result when the connection's first Phase-1 is not
      connected. */
  lemma CheckNotConnected(samples: map<string, Sample>, params: IpsecParams, conns: seq<Connection>, k: nat,
                          phase1s: seq<Phase1>, m: nat, phase2s: Option<seq<Child>>, now: real)
    requires k < |conns| && forall j :: 0 <= j < k ==> conns[j].description != conns[k].description
    requires m < |phase1s| && phase1s[m].name == conns[k].uuid && forall j :: 0 <= j < m ==> phase1s[j].name != conns[k].uuid
    requires !Truthy(phase1s[m].connected)
    ensures IpsecCheck(samples, conns[k].description, params, Some(conns), Some(phase1s), phase2s, now)
         == (Ok([Result(CRIT, "Phase1 not connected")]), samples)
  {
    FirstWhereIs(conns, Described(conns[k].description), k);
    FirstWhereIs(phase1s, NamedAs(conns[k].uuid), m);
  }

  /** Checking a connection against the baseline discovered from the same
      sections reports nothing but OK, provided the connection's children
      have distinct names. */
  lemma CheckAfterDiscovery(samples: map<string, Sample>, conns: seq<Connection>, k: nat, phase1s: seq<Phase1>, m: nat,
                            phase2s: seq<Child>, now: real)
    requires k < |conns| && forall j :: 0 <= j < k ==> conns[j].description != conns[k].description
    requires m < |phase1s| && phase1s[m].name == conns[k].uuid && forall j :: 0 <= j < m ==> phase1s[j].name != conns[k].uuid
    requires Truthy(phase1s[m].connected)
    requires DistinctNames(Filter(phase2s, OfConnection(conns[k].uuid)))
    ensures var params := IpsecParams(None, Some(BaselineOf(conns[k], phase1s, phase2s)));
      var out := IpsecCheck(samples, conns[k].description, params, Some(conns), Some(phase1s), Some(phase2s), now).0;
      out.Ok? && AllOk(out.value)
  {
    var conn := conns[k];
    var baseline := BaselineOf(conn, phase1s, phase2s);
    var params := IpsecParams(None, Some(baseline));
    var children := Filter(phase2s, OfConnection(conn.uuid));
    var p := phase1s[m];
    var rates := RateFold(samples, RateRequestsOf(conn.uuid, p), now);
    CheckConnected(samples, params, conns, k, phase1s, m, phase2s, now);
    FirstWhereIs(phase1s, NamedAs(conn.uuid), m);
    RatesAllOk(samples, RateRequestsOf(conn.uuid, p), now);
    assert ExpectedVersion(params, baseline) == Some(p.version);
    BaselineSelfCheck(children, baseline.phase2);
    ReportAllOk(p, params, baseline, rates.1, children);
  }

  /** The check of a connection whose first Phase-1 is connected: the
      report built after the rates, and the store the rates leave. */
  lemma CheckConnected(samples: map<string, Sample>, params: IpsecParams, conns: seq<Connection>, k: nat,
                       phase1s: seq<Phase1>, m: nat, phase2s: seq<Child>, now: real)
    requires k < |conns| && forall j :: 0 <= j < k ==> conns[j].description != conns[k].description
    requires m < |phase1s| && phase1s[m].name == conns[k].uuid && forall j :: 0 <= j < m ==> phase1s[j].name != conns[k].uuid
    requires Truthy(phase1s[m].connected) && params.discovered.Some?
    ensures var rates := RateFold(samples, RateRequestsOf(conns[k].uuid, phase1s[m]), now);
      IpsecCheck(samples, conns[k].description, params, Some(conns), Some(phase1s), Some(phase2s), now)
        == (Ok(ConnectedReport(phase1s[m], params, params.discovered.value, rates.1, Filter(phase2s, OfConnection(conns[k].uuid)))), rates.0)
  {
    FirstWhereIs(conns, Described(conns[k].description), k);
    FirstWhereIs(phase1s, NamedAs(conns[k].uuid), m);
  }

  /** A report is all OK when each of its parts is. */
  lemma ReportAllOk(p: Phase1, params: IpsecParams, discovered: Baseline, rateItems: seq<CheckItem>, children: seq<Child>)
    requires VersionResult(ExpectedVersion(params, discovered), p.version).state == OK
    requires AllOk(rateItems)
    requires forall i :: 0 <= i < |discovered.phase2| ==> ChildResult(discovered.phase2[i], children).state == OK
    requires UnexpectedResults(children, discovered.phase2) == []
    ensures AllOk(ConnectedReport(p, params, discovered, rateItems, children))
  {
    var version := [VersionResult(ExpectedVersion(params, discovered), p.version)];
    var install := InstallTimeItems(p);
    var childs := CheckLevels(|children| as real, NoLevels, NoLevels, Some("childs"), "Childs", Some(Bounds(0.0, None)));
    var compared := ComparedResults(discovered.phase2, children);
    NoLevelsAllOk(p, |children| as real);
    ComparedAllOk(discovered, children);
    AllOkAppend(version, install);
    AllOkAppend(version + install, rateItems);
    AllOkAppend(version + install + rateItems, childs);
    AllOkAppend(version + install + rateItems + childs, compared);
    assert ConnectedReport(p, params, discovered, rateItems, children) == version + install + rateItems + childs + compared + [];
  }

  /** The install time and the Childs count carry no levels. */
  lemma NoLevelsAllOk(p: Phase1, count: real)
    ensures AllOk(InstallTimeItems(p))
    ensures AllOk(CheckLevels(count, NoLevels, NoLevels, Some("childs"), "Childs", Some(Bounds(0.0, None))))
  {
  }

  lemma ComparedAllOk(discovered: Baseline, children: seq<Child>)
    requires forall i :: 0 <= i < |discovered.phase2| ==> ChildResult(discovered.phase2[i], children).state == OK
    ensures AllOk(ComparedResults(discovered.phase2, children))
  {
  }

  /** Every child compared with the baseline taken from the children
      themselves is OK, and none of them is unexpected. */
  lemma BaselineSelfCheck(children: seq<Child>, baseline: seq<ChildBaseline>)
    requires DistinctNames(children)
    requires |baseline| == |children| && forall i :: 0 <= i < |children| ==> baseline[i] == BaselineOfChild(children[i])
    ensures forall i :: 0 <= i < |baseline| ==> ChildResult(baseline[i], children).state == OK
    ensures UnexpectedResults(children, baseline) == []
  {
    forall i | 0 <= i < |baseline|
      ensures ChildResult(baseline[i], children).state == OK
    {
      var d := baseline[i];
      forall j | 0 <= j < i
        ensures !ChildNamed(d.name)(children[j])
      {
        assert children[j].phase2desc != children[i].phase2desc;
      }
      FirstWhereIs(children, ChildNamed(d.name), i);
    }
    forall i | 0 <= i < |children|
      ensures exists j :: 0 <= j < |baseline| && baseline[j].name == children[i].phase2desc
    {
      assert baseline[i].name == children[i].phase2desc;
    }
    UnexpectedResultsEmpty(children, baseline);
  }

  predicate DistinctNames(children: seq<Child>) {
    forall i, j :: 0 <= i < j < |children| ==> children[i].phase2desc != children[j].phase2desc
  }

  /** The per-baseline results, one by one: the first live namesake of
      each baseline child is searched as the source's for/else loop does. */
  method CompareBaseline(baseline: seq<ChildBaseline>, children: seq<Child>) returns (items: seq<CheckItem>)
    ensures |items| == |baseline|
    ensures forall i :: 0 <= i < |baseline| ==> items[i] == ChildResult(baseline[i], children)
  {
    items := [];
    for i := 0 to |baseline|
      invariant |items| == i
      invariant forall j :: 0 <= j < i ==> items[j] == ChildResult(baseline[j], children)
    {
      var item := CompareChild(baseline[i], children);
      items := items + [item];
    }
  }

  /** One round of the comparison loop: the baseline child against its
      first live namesake, field by field. */
  method CompareChild(d: ChildBaseline, children: seq<Child>) returns (item: CheckItem)
    ensures item == ChildResult(d, children)
  {
    var k := Find(children, ChildNamed(d.name));
    if k.None? {
      return Result(WARN, d.name + ": not found");
    }
    var c := children[k.value];
    ghost var integ := if TruthyStr(d.integAlg) then [FieldText(StrOrNone(c.integAlg), d.integAlg.value, d.integAlg == c.integAlg)] else [];
    ghost var head := [d.name + ":", FieldText(c.protocol, d.protocol, d.protocol == c.protocol)];
    var state := OK;
    var notice := [d.name + ":"];
    if d.protocol == c.protocol {
      notice := notice + [c.protocol];
    } else {
      notice := notice + [c.protocol + " (expected: " + d.protocol + ")"];
      state := WARN;
    }
    assert notice == head;
    if TruthyStr(d.integAlg) {
      if d.integAlg == c.integAlg {
        notice := notice + [StrOrNone(c.integAlg)];
      } else {
        notice := notice + [StrOrNone(c.integAlg) + " (expected: " + d.integAlg.value + ")"];
        state := WARN;
      }
    }
    assert notice == head + integ;
    if d.encrAlg == c.encrAlg {
      notice := notice + [c.encrAlg];
    } else {
      notice := notice + [c.encrAlg + " (expected: " + d.encrAlg + ")"];
      state := WARN;
    }
    assert notice == head + integ + [FieldText(c.encrAlg, d.encrAlg, d.encrAlg == c.encrAlg)];
    item := Result(state, Join(notice, " "));
  }

  /** The live children without a baseline namesake, found as the
      source's nested for/else loop does. */
  method ReportUnexpected(children: seq<Child>, baseline: seq<ChildBaseline>) returns (items: seq<CheckItem>)
    ensures items == UnexpectedResults(children, baseline)
  {
    items := [];
    for i := 0 to |children|
      invariant items == UnexpectedResults(children[..i], baseline)
    {
      var c := children[i];
      var k := Find(baseline, BaselineNamed(c.phase2desc));
      UnexpectedNext(children, baseline, i);
      if k.None? {
        items := items + [Result(WARN, c.phase2desc + ": Unexpected Connection")];
      }
    }
    assert children[..|children|] == children;
  }

  /** The child list of the connection, kept as the source's
      comprehension builds it. */
  method ChildrenOf(phase2s: seq<Child>, uuid: string) returns (children: seq<Child>)
    ensures children == Filter(phase2s, OfConnection(uuid))
  {
    children := [];
    var i := |phase2s|;
    while i > 0
      invariant 0 <= i <= |phase2s|
      invariant children == Filter(phase2s[i..], OfConnection(uuid))
    {
      i := i - 1;
      assert phase2s[i..][1..] == phase2s[i + 1..];
      if phase2s[i].ikeid == uuid {
        children := [phase2s[i]] + children;
      }
    }
  }

  /** check_opnsense_ipsec against the service's value store. */
  method CheckIpsec(store: ValueStore, item: string, params: IpsecParams, conns: Option<seq<Connection>>,
                    phase1s: Option<seq<Phase1>>, phase2s: Option<seq<Child>>, now: real)
    returns (r: Try<seq<CheckItem>>)
    modifies store
    ensures (r, store.samples) == IpsecCheck(old(store.samples), item, params, conns, phase1s, phase2s, now)
  {
    if conns.None? {
      return Raised(TypeError);
    }
    var ci := Find(conns.value, Described(item));
    if ci.None? {
      return Ok([]);
    }
    var conn := conns.value[ci.value];
    if phase1s.None? {
      return Raised(TypeError);
    }
    var pi := Find(phase1s.value, NamedAs(conn.uuid));
    if pi.None? {
      return Ok([Result(UNKNOWN, "Phase1 not found")]);
    }
    var p := phase1s.value[pi.value];
    if !Truthy(p.connected) {
      return Ok([Result(CRIT, "Phase1 not connected")]);
    }
    if params.discovered.None? {
      return Raised(KeyError);
    }
    var discovered := params.discovered.value;
    var out := [VersionResult(ExpectedVersion(params, discovered), p.version)] + InstallTimeItems(p);
    var rateItems := store.Rates(RateRequestsOf(conn.uuid, p), now);
    out := out + rateItems;
    if phase2s.None? {
      return Raised(TypeError);
    }
    var children := ChildrenOf(phase2s.value, conn.uuid);
    out := out + CheckLevels(|children| as real, NoLevels, NoLevels, Some("childs"), "Childs", Some(Bounds(0.0, None)));
    var compared := CompareBaseline(discovered.phase2, children);
    assert compared == ComparedResults(discovered.phase2, children);
    var unexpected := ReportUnexpected(children, discovered.phase2);
    r := Ok(out + compared + unexpected);
  }

  // ---------------------------------------------------------------------
  // Child services

  function OwnedBy(ikeid: string): Connection -> bool {
    (c: Connection) => c.uuid == ikeid
  }

  function ChildItem(conn: Connection, c: Child): string {
    conn.description + " " + c.localTs + " > " + c.remoteTs
  }

  /** The item of the service a child belongs to: installed children of
      a configured connection only. */
  function ChildServiceItem(conns: seq<Connection>, c: Child): (r: Option<string>)
    ensures r.Some? <==> Installed(c) && exists j :: 0 <= j < |conns| && conns[j].uuid == c.ikeid
    ensures r.Some? ==> r.value == ChildItem(conns[FirstWhere(conns, OwnedBy(c.ikeid)).value], c)
  {
    var k := FirstWhere(conns, OwnedBy(c.ikeid));
    if Installed(c) && k.Some? then Some(ChildItem(conns[k.value], c)) else None
  }

  /** Some child has item as its service item. */
  predicate FromSomeChild(conns: seq<Connection>, children: seq<Child>, item: string) {
    exists j :: 0 <= j < |children| && ChildServiceItem(conns, children[j]) == Some(item)
  }

  /** discovery_opnsense_ipsec_child. The connection section is searched
      only for installed children, so its absence fails only then. */
  function DiscoverIpsecChildren(conns: Option<seq<Connection>>, phase2s: Option<seq<Child>>): (r: Try<seq<string>>)
    ensures phase2s.None? ==> r == Raised(TypeError)
    ensures conns.Some? && phase2s.Some? ==> r.Ok?
    ensures r.Ok? && conns.Some? ==> forall i :: 0 <= i < |r.value| ==>
              FromSomeChild(conns.value, phase2s.value, r.value[i])
  {
    if phase2s.None? then Raised(TypeError)
    else if conns.None? then DiscoverChildrenIn(conns, phase2s.value)
    else DiscoveredChildItems(conns.value, phase2s.value); DiscoverChildrenIn(conns, phase2s.value)
  }

  function DiscoverChildrenIn(conns: Option<seq<Connection>>, children: seq<Child>): (r: Try<seq<string>>)
    ensures conns.Some? ==> r.Ok?
  {
    if children == [] then Ok([])
    else
      var front := DiscoverChildrenIn(conns, children[..|children| - 1]);
      var c := children[|children| - 1];
      if front.Raised? then front
      else if !Installed(c) then front
      else if conns.None? then Raised(TypeError)
      else
        var item := ChildServiceItem(conns.value, c);
        Ok(front.value + (if item.Some? then [item.value] else []))
  }

  /** The discovered items are the service items of the children that
      have one: each item comes from a child, and every child's item is
      discovered. */
  lemma {:induction false} DiscoveredChildItems(conns: seq<Connection>, children: seq<Child>)
    ensures forall i :: 0 <= i < |DiscoverChildrenIn(Some(conns), children).value| ==>
              FromSomeChild(conns, children, DiscoverChildrenIn(Some(conns), children).value[i])
    ensures forall j :: 0 <= j < |children| && ChildServiceItem(conns, children[j]).Some? ==>
              ChildServiceItem(conns, children[j]).value in DiscoverChildrenIn(Some(conns), children).value
  {
    DiscoveredFromChildren(conns, children);
    DiscoveredEveryChild(conns, children);
  }

  /** One discovery step: the items so far, then the last child's item. */
  lemma DiscoveredSnoc(conns: seq<Connection>, children: seq<Child>)
    requires children != []
    ensures DiscoverChildrenIn(Some(conns), children).value
         == DiscoverChildrenIn(Some(conns), children[..|children| - 1]).value
            + (if ChildServiceItem(conns, children[|children| - 1]).Some?
               then [ChildServiceItem(conns, children[|children| - 1]).value] else [])
  {
  }

  lemma {:induction false} DiscoveredFromChildren(conns: seq<Connection>, children: seq<Child>)
    ensures forall i :: 0 <= i < |DiscoverChildrenIn(Some(conns), children).value| ==>
              FromSomeChild(conns, children, DiscoverChildrenIn(Some(conns), children).value[i])
  {
    if children != [] {
      var init := children[..|children| - 1];
      DiscoveredFromChildren(conns, init);
      DiscoveredSnoc(conns, children);
      var front := DiscoverChildrenIn(Some(conns), init).value;
      var r := DiscoverChildrenIn(Some(conns), children).value;
      forall i | 0 <= i < |r|
        ensures FromSomeChild(conns, children, r[i])
      {
        if i < |front| {
          var j :| 0 <= j < |init| && ChildServiceItem(conns, init[j]) == Some(front[i]);
          assert init[j] == children[j] && r[i] == front[i];
        } else {
          assert ChildServiceItem(conns, children[|children| - 1]) == Some(r[i]);
        }
      }
    } else {
      assert DiscoverChildrenIn(Some(conns), children) == Ok([]);
    }
  }

  lemma {:induction false} DiscoveredEveryChild(conns: seq<Connection>, children: seq<Child>)
    ensures forall j :: 0 <= j < |children| && ChildServiceItem(conns, children[j]).Some? ==>
              ChildServiceItem(conns, children[j]).value in DiscoverChildrenIn(Some(conns), children).value
  {
    if children != [] {
      var init := children[..|children| - 1];
      DiscoveredEveryChild(conns, init);
      DiscoveredSnoc(conns, children);
      var front := DiscoverChildrenIn(Some(conns), init).value;
      var r := DiscoverChildrenIn(Some(conns), children).value;
      forall j | 0 <= j < |children| && ChildServiceItem(conns, children[j]).Some?
        ensures ChildServiceItem(conns, children[j]).value in r
      {
        if j < |init| {
          assert init[j] == children[j];
          assert ChildServiceItem(conns, children[j]).value in front;
        } else {
          assert r[|front|] == ChildServiceItem(conns, children[j]).value;
        }
      }
    }
  }

  function RenderTime(format: real -> string, seconds: real): (text: string) {
    if seconds < 0.0 then format(-seconds) + " ago" else format(seconds)
  }

  /** render_timespan: a negative time is rendered by its magnitude with
      an " ago" suffix, any other time as the plain timespan. */
  lemma RenderTimeSign(format: real -> string, seconds: real)
    ensures seconds < 0.0 ==> RenderTime(format, seconds) == format(-seconds) + " ago"
    ensures seconds < 0.0 ==> RenderTime(format, seconds) == RenderTime(format, -seconds) + " ago"
    ensures seconds >= 0.0 ==> RenderTime(format, seconds) == format(seconds)
  {
  }

  /** The results of one child: protocol, encryption, integrity and DH
      group when present, then the three lifetimes (float() failing on any
      of them fails the check). */
  function ChildReport(c: Child): (r: Try<seq<CheckItem>>)
    ensures r.Ok? <==> FloatOf(c.installTime).Ok? && FloatOf(c.rekeyTime).Ok? && FloatOf(c.lifeTime).Ok?
    ensures r.Ok? ==> |r.value| == 2 + (if c.integAlg.Some? then 1 else 0) + (if c.dhGroup.Some? then 1 else 0) + 6
    ensures r.Ok? ==> r.value[0] == Result(OK, c.protocol) && r.value[1] == Result(OK, "E:" + c.encrAlg + ":" + c.encrKeysize)
    ensures r.Ok? && c.integAlg.Some? ==> r.value[2] == Result(OK, "I:" + c.integAlg.value)
    ensures r.Ok? && c.dhGroup.Some? ==> r.value[|r.value| - 7] == Result(OK, "D:" + c.dhGroup.value)
  {
    var install := FloatOf(c.installTime);
    var rekey := FloatOf(c.rekeyTime);
    var life := FloatOf(c.lifeTime);
    if install.Raised? || rekey.Raised? || life.Raised? then Raised(if install.Raised? then install.exception else if rekey.Raised? then rekey.exception else life.exception)
    else
      Ok([Result(OK, c.protocol), Result(OK, "E:" + c.encrAlg + ":" + c.encrKeysize)]
         + (if c.integAlg.Some? then [Result(OK, "I:" + c.integAlg.value)] else [])
         + (if c.dhGroup.Some? then [Result(OK, "D:" + c.dhGroup.value)] else [])
         + CheckLevels(install.value, NoLevels, NoLevels, Some("install_time"), "Install Time", None)
         + CheckLevels(rekey.value, NoLevels, NoLevels, Some("rekey_time"), "Rekey Time", None)
         + CheckLevels(life.value, NoLevels, NoLevels, Some("life_time"), "Life Time", None))
  }

  /** A child's report ends with the three lifetimes, each through
      check_levels with its metric and no levels, and a failed report
      carries the first failing conversion's exception. */
  lemma ChildReportLifetimes(c: Child)
    ensures var r := ChildReport(c);
            r.Ok? ==>
              (r.value[|r.value| - 6..] ==
                 CheckLevels(FloatOf(c.installTime).value, NoLevels, NoLevels, Some("install_time"), "Install Time", None)
                 + CheckLevels(FloatOf(c.rekeyTime).value, NoLevels, NoLevels, Some("rekey_time"), "Rekey Time", None)
                 + CheckLevels(FloatOf(c.lifeTime).value, NoLevels, NoLevels, Some("life_time"), "Life Time", None))
    ensures var r := ChildReport(c);
            r.Raised? ==> r.exception == (if FloatOf(c.installTime).Raised? then FloatOf(c.installTime).exception
                                         else if FloatOf(c.rekeyTime).Raised? then FloatOf(c.rekeyTime).exception
                                         else FloatOf(c.lifeTime).exception)
  {
  }

  /** check_opnsense_ipsec_child: every child whose service item equals
      the item reports, in section order (there is no break). */
  function CheckIpsecChild(item: string, conns: Option<seq<Connection>>, phase2s: Option<seq<Child>>): (r: Try<seq<CheckItem>>)
    ensures phase2s.None? ==> r == Raised(TypeError)
    ensures phase2s.Some? && phase2s.value != [] && conns.None? ==> r == Raised(TypeError)
    ensures phase2s.Some? && conns.Some? ==> r == Reports(Filter(phase2s.value, MatchesItem(conns.value, item)))
  {
    if phase2s.None? then Raised(TypeError)
    else if conns.None? then CheckChildrenIn(item, conns, phase2s.value)
    else
      CheckChildrenReports(item, conns.value, phase2s.value);
      CheckChildrenIn(item, conns, phase2s.value)
  }

  function CheckChildrenIn(item: string, conns: Option<seq<Connection>>, children: seq<Child>): (r: Try<seq<CheckItem>>)
    ensures conns.Some? && (forall j :: 0 <= j < |children| ==> ChildServiceItem(conns.value, children[j]) != Some(item)) ==> r == Ok([])
    ensures conns.None? && children != [] ==> r == Raised(TypeError)
  {
    if children == [] then Ok([])
    else
      var init := children[..|children| - 1];
      var c := children[|children| - 1];
      var front := CheckChildrenIn(item, conns, init);
      if front.Raised? then front
      else if conns.None? then Raised(TypeError)
      else if ChildServiceItem(conns.value, c) != Some(item) then front
      else
        var report := ChildReport(c);
        if report.Raised? then report else Ok(front.value + report.value)
  }

  /** Whether a child belongs to the service item. */
  function MatchesItem(conns: seq<Connection>, item: string): Child -> bool {
    c => ChildServiceItem(conns, c) == Some(item)
  }

  /** The reports of the given children one after another, or the first
      child's failure. */
  function Reports(cs: seq<Child>): (r: Try<seq<CheckItem>>)
    ensures cs == [] ==> r == Ok([])
  {
    if cs == [] then Ok([])
    else
      var front := Reports(cs[..|cs| - 1]);
      var report := ChildReport(cs[|cs| - 1]);
      if front.Raised? then front
      else if report.Raised? then report
      else Ok(front.value + report.value)
  }

  /** The reports succeed exactly when every child's report does. */
  lemma {:induction false} ReportsOk(cs: seq<Child>)
    ensures Reports(cs).Ok? <==> forall j :: 0 <= j < |cs| ==> ChildReport(cs[j]).Ok?
  {
    if cs != [] {
      var init, c := cs[..|cs| - 1], cs[|cs| - 1];
      assert cs == init + [c];
      ReportsOk(init);
      ReportsSnoc(init, c);
      assert Reports(cs).Ok? <==> Reports(init).Ok? && ChildReport(c).Ok?;
      assert (forall j :: 0 <= j < |cs| ==> ChildReport(cs[j]).Ok?) <==>
             (forall j :: 0 <= j < |init| ==> ChildReport(init[j]).Ok?) && ChildReport(c).Ok?;
    }
  }

  /** One child's reports are its report. */
  lemma ReportsOne(c: Child)
    ensures Reports([c]) == ChildReport(c)
  {
    assert [c][..0] == [];
    if ChildReport(c).Ok? {
      assert [] + ChildReport(c).value == ChildReport(c).value;
    }
  }

  lemma ReportsSnoc(cs: seq<Child>, c: Child)
    ensures Reports(cs + [c]) == (if Reports(cs).Raised? then Reports(cs)
                                  else if ChildReport(c).Raised? then ChildReport(c)
                                  else Ok(Reports(cs).value + ChildReport(c).value))
  {
    assert (cs + [c])[..|cs|] == cs;
  }

  lemma CheckChildrenSnoc(item: string, conns: seq<Connection>, cs: seq<Child>, c: Child)
    ensures var front := CheckChildrenIn(item, Some(conns), cs);
            CheckChildrenIn(item, Some(conns), cs + [c]) ==
              (if front.Raised? || !MatchesItem(conns, item)(c) then front
               else if ChildReport(c).Raised? then ChildReport(c)
               else Ok(front.value + ChildReport(c).value))
  {
    assert (cs + [c])[..|cs|] == cs;
  }

  /** check_opnsense_ipsec_child on a present connection section: the
      reports of the children that belong to the item, in section order,
      or the first such child's failure. */
  lemma {:induction false} CheckChildrenReports(item: string, conns: seq<Connection>, children: seq<Child>)
    ensures CheckChildrenIn(item, Some(conns), children) == Reports(Filter(children, MatchesItem(conns, item)))
  {
    if children == [] {
      assert Filter(children, MatchesItem(conns, item)) == [];
    } else {
      var init, c := children[..|children| - 1], children[|children| - 1];
      assert init + [c] == children;
      CheckChildrenReports(item, conns, init);
      CheckChildrenReportsStep(item, conns, init, c);
    }
  }

  lemma CheckChildrenReportsStep(item: string, conns: seq<Connection>, init: seq<Child>, c: Child)
    requires CheckChildrenIn(item, Some(conns), init) == Reports(Filter(init, MatchesItem(conns, item)))
    ensures CheckChildrenIn(item, Some(conns), init + [c]) == Reports(Filter(init + [c], MatchesItem(conns, item)))
  {
    var p := MatchesItem(conns, item);
    CheckChildrenSnoc(item, conns, init, c);
    FilterAppend(init, [c], p);
    var kept := Filter(init, p);
    if p(c) {
      assert Filter([c], p) == [c];
      ReportsSnoc(kept, c);
    } else {
      assert Filter([c], p) == [];
      assert Filter(init + [c], p) == kept;
    }
  }

  /** An item that exactly one child belongs to gets exactly that child's
      report. */
  lemma {:induction false} SingleChildReport(item: string, conns: seq<Connection>, children: seq<Child>, k: nat)
    requires k < |children| && ChildServiceItem(conns, children[k]) == Some(item)
    requires forall j :: 0 <= j < |children| && j != k ==> ChildServiceItem(conns, children[j]) != Some(item)
    ensures CheckChildrenIn(item, Some(conns), children) == ChildReport(children[k])
  {
    var init := children[..|children| - 1];
    var c := children[|children| - 1];
    if k == |children| - 1 {
      assert CheckChildrenIn(item, Some(conns), init) == Ok([]);
      if ChildReport(c).Ok? {
        assert [] + ChildReport(c).value == ChildReport(c).value;
      }
    } else {
      SingleChildReport(item, conns, init, k);
    }
  }

  /** A child service reports exactly when its item is discovered: an
      item that discovery does not yield gets no results, and a
      discovered item whose check succeeds gets at least eight results
      (CheckChildrenReports says which). */
  lemma {:induction false} ChildCheckMatchesDiscovery(item: string, conns: seq<Connection>, children: seq<Child>)
    ensures DiscoverChildrenIn(Some(conns), children).Ok?
    ensures item !in DiscoverChildrenIn(Some(conns), children).value ==> CheckChildrenIn(item, Some(conns), children) == Ok([])
    ensures item in DiscoverChildrenIn(Some(conns), children).value && CheckChildrenIn(item, Some(conns), children).Ok? ==>
              |CheckChildrenIn(item, Some(conns), children).value| >= 8
  {
    if children != [] {
      var init := children[..|children| - 1];
      var c := children[|children| - 1];
      ChildCheckMatchesDiscovery(item, conns, init);
      DiscoveredSnoc(conns, children);
      var front := CheckChildrenIn(item, Some(conns), init);
      var found := DiscoverChildrenIn(Some(conns), children).value;
      var before := DiscoverChildrenIn(Some(conns), init).value;
      if ChildServiceItem(conns, c) == Some(item) {
        assert found == before + [item];
        if ChildReport(c).Ok? && front.Ok? {
          assert CheckChildrenIn(item, Some(conns), children).value == front.value + ChildReport(c).value;
        }
      } else {
        assert CheckChildrenIn(item, Some(conns), children) == front;
        assert item in found <==> item in before;
      }
    } else {
      assert DiscoverChildrenIn(Some(conns), children) == Ok([]);
    }
  }
}
