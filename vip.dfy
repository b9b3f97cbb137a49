/** The CARP plug-in (one service counting virtual IPs by mode and role)
    and the virtual-IP plug-in (services per VIP or per interface, checked
    against the role recorded at discovery or configured). */
module Vip {
  import opened Common
  import opened Text
  import opened Numbers

  /** The opnsense_carp section; absent keys are None. */
  datatype Carp = Carp(statusMsg: Option<string>, demotion: Json, maintenanceMode: Json)

  /** An entry of the opnsense_vip section. */
  datatype VirtualIp = VirtualIp(interface: string, mode: string, status: string, subnet: string, vhid: string)

  /** The CARP check parameters; an unset rule element is NoLevels. */
  datatype CarpParams = CarpParams(masterLower: Levels, masterUpper: Levels, backupLower: Levels, backupUpper: Levels)

  /** The four counters of the CARP check. */
  datatype VipCounts = VipCounts(carpMaster: nat, carpBackup: nat, ipaliasMaster: nat, ipaliasBackup: nat)

  // ---------------------------------------------------------------------
  // CARP

  /** discovery_opnsense_carp: one service iff the carp section is truthy. */
  function DiscoverCarp(carp: Option<Carp>): (services: nat)
    ensures services <= 1
    ensures services == 1 <==> carp.Some?
  {
    if carp.Some? then 1 else 0
  }

  /** A VIP of the given mode whose role is MASTER (master = true) or any
      other role (master = false). */
  function InFamily(mode: string, master: bool): VirtualIp -> bool {
    (v: VirtualIp) => v.mode == mode && (v.status == "MASTER") == master
  }

  function InMode(mode: string): VirtualIp -> bool {
    (v: VirtualIp) => v.mode == mode
  }

  /** The counters as the number of VIPs in each family. */
  function CountsOf(vips: seq<VirtualIp>): VipCounts {
    VipCounts(|Filter(vips, InFamily("carp", true))|, |Filter(vips, InFamily("carp", false))|,
              |Filter(vips, InFamily("ipalias", true))|, |Filter(vips, InFamily("ipalias", false))|)
  }

  lemma FilterSnocCount<T>(s: seq<T>, x: T, p: T -> bool)
    ensures |Filter(s + [x], p)| == |Filter(s, p)| + (if p(x) then 1 else 0)
  {
    FilterAppend(s, [x], p);
    assert [x][1..] == [];
  }

  /** The counting loop of the CARP check. */
  method CountVips(vips: seq<VirtualIp>) returns (counts: VipCounts)
    ensures counts == CountsOf(vips)
  {
    var carpMaster, carpBackup, ipaliasMaster, ipaliasBackup := 0, 0, 0, 0;
    for i := 0 to |vips|
      invariant carpMaster == |Filter(vips[..i], InFamily("carp", true))|
      invariant carpBackup == |Filter(vips[..i], InFamily("carp", false))|
      invariant ipaliasMaster == |Filter(vips[..i], InFamily("ipalias", true))|
      invariant ipaliasBackup == |Filter(vips[..i], InFamily("ipalias", false))|
    {
      var vip := vips[i];
      assert vips[..i + 1] == vips[..i] + [vip];
      FilterSnocCount(vips[..i], vip, InFamily("carp", true));
      FilterSnocCount(vips[..i], vip, InFamily("carp", false));
      FilterSnocCount(vips[..i], vip, InFamily("ipalias", true));
      FilterSnocCount(vips[..i], vip, InFamily("ipalias", false));
      if vip.mode == "carp" {
        if vip.status == "MASTER" {
          carpMaster := carpMaster + 1;
        } else {
          carpBackup := carpBackup + 1;
        }
      } else if vip.mode == "ipalias" {
        if vip.status == "MASTER" {
          ipaliasMaster := ipaliasMaster + 1;
        } else {
          ipaliasBackup := ipaliasBackup + 1;
        }
      }
    }
    assert vips[..|vips|] == vips;
    counts := VipCounts(carpMaster, carpBackup, ipaliasMaster, ipaliasBackup);
  }

  /** Masters and backups of a mode together are all VIPs of that mode. */
  lemma {:induction false} FamilySplit(vips: seq<VirtualIp>, mode: string)
    ensures |Filter(vips, InFamily(mode, true))| + |Filter(vips, InFamily(mode, false))| == |Filter(vips, InMode(mode))|
  {
    if vips != [] {
      FamilySplit(vips[1..], mode);
    }
  }

  /** A VIP of any other mode (vrrp2, say) changes no counter. */
  lemma OtherModesUncounted(vips: seq<VirtualIp>, v: VirtualIp)
    requires v.mode != "carp" && v.mode != "ipalias"
    ensures CountsOf(vips + [v]) == CountsOf(vips)
  {
    FilterSnocCount(vips, v, InFamily("carp", true));
    FilterSnocCount(vips, v, InFamily("carp", false));
    FilterSnocCount(vips, v, InFamily("ipalias", true));
    FilterSnocCount(vips, v, InFamily("ipalias", false));
  }

  function CarpStatusText(msg: Option<string>): string {
    if TruthyStr(msg) then msg.value else "OK"
  }

  /** The four levelled counters: master levels apply to both master
      counts, backup levels to both backup counts, and each count is
      bounded by the size of its own mode's family. */
  function CountItems(params: CarpParams, c: VipCounts): seq<CheckItem> {
    var carpBounds := Some(Bounds(0.0, Some((c.carpMaster + c.carpBackup) as real)));
    var aliasBounds := Some(Bounds(0.0, Some((c.ipaliasMaster + c.ipaliasBackup) as real)));
    CheckLevels(c.carpMaster as real, params.masterUpper, params.masterLower, Some("carp_master"), "CARP Master", carpBounds)
    + CheckLevels(c.carpBackup as real, params.backupUpper, params.backupLower, Some("carp_backup"), "CARP Backup", carpBounds)
    + CheckLevels(c.ipaliasMaster as real, params.masterUpper, params.masterLower, Some("ipalias_master"), "IPAlias Master", aliasBounds)
    + CheckLevels(c.ipaliasBackup as real, params.backupUpper, params.backupLower, Some("ipalias_backup"), "IPAlias Backup", aliasBounds)
  }

  /** The metrics of the counters: each family's boundary is the number of
      VIPs of that mode. */
  lemma CountMetrics(params: CarpParams, vips: seq<VirtualIp>)
    ensures var items := CountItems(params, CountsOf(vips));
      var carp := Some(Bounds(0.0, Some(|Filter(vips, InMode("carp"))| as real)));
      var alias := Some(Bounds(0.0, Some(|Filter(vips, InMode("ipalias"))| as real)));
      && |items| == 8
      && items[1] == Metric("carp_master", |Filter(vips, InFamily("carp", true))| as real, MetricLevels(params.masterUpper), carp)
      && items[3] == Metric("carp_backup", |Filter(vips, InFamily("carp", false))| as real, MetricLevels(params.backupUpper), carp)
      && items[5] == Metric("ipalias_master", |Filter(vips, InFamily("ipalias", true))| as real, MetricLevels(params.masterUpper), alias)
      && items[7] == Metric("ipalias_backup", |Filter(vips, InFamily("ipalias", false))| as real, MetricLevels(params.backupUpper), alias)
  {
    FamilySplit(vips, "carp");
    FamilySplit(vips, "ipalias");
  }

  /** Two masters under lower levels (3, 2) warn; one backup under upper
      levels (1, 1) is critical. */
  lemma CarpThresholdExamples(c: VipCounts)
    requires c.carpMaster == 2 && c.carpBackup == 1
    ensures var items := CountItems(CarpParams(Fixed(3.0, 2.0), NoLevels, NoLevels, Fixed(1.0, 1.0)), c);
      items[0] == Result(WARN, "CARP Master") && items[2] == Result(CRIT, "CARP Backup")
  {
  }

  /** check_opnsense_carp. */
  method CheckCarp(params: CarpParams, carp: Option<Carp>, vips: Option<seq<VirtualIp>>) returns (r: Try<seq<CheckItem>>)
    ensures carp.None? ==> r == Ok([])
    ensures carp.Some? && IntOf(carp.value.demotion).Raised? ==> r == Raised(IntOf(carp.value.demotion).exception)
    ensures carp.Some? && IntOf(carp.value.demotion).Ok? && vips.None? ==> r == Raised(TypeError)
    ensures carp.Some? && IntOf(carp.value.demotion).Ok? && vips.Some? ==>
              r == Ok([Result(OK, CarpStatusText(carp.value.statusMsg)),
                       Metric("demotion", IntOf(carp.value.demotion).value as real, None, None)]
                      + (if Truthy(carp.value.maintenanceMode) then [Result(WARN, "Maintenance Mode is active")] else [])
                      + CountItems(params, CountsOf(vips.value)))
  {
    if carp.None? {
      return Ok([]);
    }
    var demotion := IntOf(carp.value.demotion);
    if demotion.Raised? {
      return Raised(demotion.exception);
    }
    var out := [Result(OK, CarpStatusText(carp.value.statusMsg)), Metric("demotion", demotion.value as real, None, None)];
    if Truthy(carp.value.maintenanceMode) {
      out := out + [Result(WARN, "Maintenance Mode is active")];
    }
    if vips.None? {
      return Raised(TypeError);
    }
    assert out == [Result(OK, CarpStatusText(carp.value.statusMsg)), Metric("demotion", demotion.value as real, None, None)]
                  + (if Truthy(carp.value.maintenanceMode) then [Result(WARN, "Maintenance Mode is active")] else []);
    var counts := CountVips(vips.value);
    r := Ok(out + CountItems(params, counts));
  }

  // ---------------------------------------------------------------------
  // Sorting and grouping VIPs by interface

  function OnInterface(name: string): VirtualIp -> bool {
    (v: VirtualIp) => v.interface == name
  }

  predicate SortedByInterface(s: seq<VirtualIp>) {
    forall i, j :: 0 <= i < j < |s| ==> !Less(s[j].interface, s[i].interface)
  }

  /** Inserts v before the first element whose interface is not smaller,
      so that it precedes the elements of equal interface. */
  function InsertByInterface(v: VirtualIp, s: seq<VirtualIp>): (r: seq<VirtualIp>)
    ensures multiset(r) == multiset(s) + multiset{v}
    ensures |r| == |s| + 1
  {
    if s == [] || !Less(s[0].interface, v.interface) then [v] + s
    else
      assert s == [s[0]] + s[1..];
      [s[0]] + InsertByInterface(v, s[1..])
  }

  /** sorted(s, key=lambda i: i['interface']): an insertion sort, stable
      as Python's sort is. */
  function SortByInterface(s: seq<VirtualIp>): (r: seq<VirtualIp>)
    ensures multiset(r) == multiset(s)
    ensures |r| == |s|
  {
    if s == [] then []
    else
      assert s == [s[0]] + s[1..];
      InsertByInterface(s[0], SortByInterface(s[1..]))
  }

  lemma {:induction false} InsertSorted(v: VirtualIp, s: seq<VirtualIp>)
    requires SortedByInterface(s)
    ensures SortedByInterface(InsertByInterface(v, s))
  {
    var r := InsertByInterface(v, s);
    if s == [] || !Less(s[0].interface, v.interface) {
      forall j | 1 <= j < |r|
        ensures !Less(r[j].interface, v.interface)
      {
        assert r[j] == s[j - 1];
        LessTotal(s[0].interface, v.interface);
        if Less(s[j - 1].interface, v.interface) {
          if s[0].interface == v.interface {
            assert Less(s[j - 1].interface, s[0].interface);
          } else {
            LessTransitive(s[j - 1].interface, v.interface, s[0].interface);
          }
        }
      }
    } else {
      InsertSorted(v, s[1..]);
      var rest := InsertByInterface(v, s[1..]);
      forall j | 0 <= j < |rest|
        ensures !Less(rest[j].interface, s[0].interface)
      {
        assert rest[j] in multiset(rest);
        if rest[j] != v {
          assert rest[j] in multiset(s[1..]);
          var k :| 0 <= k < |s[1..]| && s[1..][k] == rest[j];
          assert s[k + 1] == rest[j];
        } else {
          LessTotal(s[0].interface, v.interface);
        }
      }
      assert r == [s[0]] + rest;
    }
  }

  lemma {:induction false} SortSorted(s: seq<VirtualIp>)
    ensures SortedByInterface(SortByInterface(s))
  {
    if s != [] {
      SortSorted(s[1..]);
      InsertSorted(s[0], SortByInterface(s[1..]));
    }
  }

  /** Insertion keeps the VIPs of every interface in order. */
  lemma {:induction false} InsertStable(v: VirtualIp, s: seq<VirtualIp>, name: string)
    ensures Filter(InsertByInterface(v, s), OnInterface(name))
         == (if v.interface == name then [v] else []) + Filter(s, OnInterface(name))
  {
    var p := OnInterface(name);
    var r := InsertByInterface(v, s);
    var added := if v.interface == name then [v] else [];
    if s != [] && Less(s[0].interface, v.interface) {
      InsertStable(v, s[1..], name);
      LessIrreflexive(v.interface);
      assert r == [s[0]] + InsertByInterface(v, s[1..]);
      assert s == [s[0]] + s[1..];
      FilterShift(s[0], InsertByInterface(v, s[1..]), s[1..], p, added);
    } else {
      assert r == [v] + s && r[1..] == s;
      FilterCons(r, p);
    }
  }

  /** A common first element keeps a relation between two filters. */
  lemma FilterShift<T>(x: T, t: seq<T>, u: seq<T>, p: T -> bool, added: seq<T>)
    requires Filter(t, p) == added + Filter(u, p)
    requires p(x) ==> added == []
    ensures Filter([x] + t, p) == added + Filter([x] + u, p)
  {
    assert ([x] + t)[0] == x && ([x] + t)[1..] == t;
    assert ([x] + u)[0] == x && ([x] + u)[1..] == u;
    var ft, fu := Filter(t, p), Filter(u, p);
    if p(x) {
      assert ft == fu;
      assert Filter([x] + t, p) == [x] + ft;
      assert Filter([x] + u, p) == [x] + fu;
    } else {
      assert Filter([x] + t, p) == ft;
      assert Filter([x] + u, p) == fu;
    }
  }

  /** The sort is stable: the VIPs of each interface keep their order. */
  lemma {:induction false} SortStable(s: seq<VirtualIp>, name: string)
    ensures Filter(SortByInterface(s), OnInterface(name)) == Filter(s, OnInterface(name))
  {
    if s != [] {
      SortStable(s[1..], name);
      InsertStable(s[0], SortByInterface(s[1..]), name);
    }
  }

  /** itertools.groupby(s, key=interface): runs of equal interface. */
  function GroupByInterface(s: seq<VirtualIp>): (groups: seq<(string, seq<VirtualIp>)>)
    ensures s == [] <==> groups == []
    ensures s != [] ==> groups[0].0 == s[0].interface
    ensures forall i :: 0 <= i < |groups| ==> groups[i].1 != []
  {
    if s == [] then []
    else
      var rest := GroupByInterface(s[1..]);
      if rest != [] && rest[0].0 == s[0].interface then [(rest[0].0, [s[0]] + rest[0].1)] + rest[1..]
      else [(s[0].interface, [s[0]])] + rest
  }

  predicate KeysIncreasing(groups: seq<(string, seq<VirtualIp>)>) {
    forall i, j :: 0 <= i < j < |groups| ==> Less(groups[i].0, groups[j].0)
  }

  /** Each group holds exactly the VIPs of its interface, in order. */
  predicate GroupsAreFilters(s: seq<VirtualIp>, groups: seq<(string, seq<VirtualIp>)>) {
    forall i :: 0 <= i < |groups| ==> groups[i].1 == Filter(s, OnInterface(groups[i].0))
  }

  /** Every interface of s has a group. */
  predicate GroupsCover(s: seq<VirtualIp>, groups: seq<(string, seq<VirtualIp>)>) {
    forall x :: 0 <= x < |s| ==> s[x].interface in GroupKeys(groups)
  }

  function GroupKeys(groups: seq<(string, seq<VirtualIp>)>): (keys: seq<string>)
    ensures |keys| == |groups| && forall i :: 0 <= i < |groups| ==> keys[i] == groups[i].0
  {
    seq(|groups|, i requires 0 <= i < |groups| => groups[i].0)
  }

  lemma FilterCons<T>(s: seq<T>, p: T -> bool)
    requires s != []
    ensures Filter(s, p) == (if p(s[0]) then [s[0]] else []) + Filter(s[1..], p)
  {
  }

  /** Grouping a sorted sequence yields each interface once, in increasing
      order, with all VIPs of that interface in their original order. */
  lemma {:induction false} GroupSorted(s: seq<VirtualIp>)
    requires SortedByInterface(s)
    ensures KeysIncreasing(GroupByInterface(s))
    ensures GroupsAreFilters(s, GroupByInterface(s))
    ensures GroupsCover(s, GroupByInterface(s))
  {
    if s != [] {
      assert SortedByInterface(s[1..]);
      GroupSorted(s[1..]);
      var rest := GroupByInterface(s[1..]);
      if rest != [] && rest[0].0 == s[0].interface {
        GroupJoin(s);
      } else {
        StartBelowRest(s);
        GroupStart(s);
      }
    }
  }

  /** The first VIP joins the group of the VIPs after it. */
  lemma {:induction false} GroupJoin(s: seq<VirtualIp>)
    requires s != []
    requires var rest := GroupByInterface(s[1..]);
      && rest != [] && rest[0].0 == s[0].interface
      && KeysIncreasing(rest) && GroupsAreFilters(s[1..], rest) && GroupsCover(s[1..], rest)
    ensures KeysIncreasing(GroupByInterface(s))
    ensures GroupsAreFilters(s, GroupByInterface(s))
    ensures GroupsCover(s, GroupByInterface(s))
  {
    JoinKeys(s);
    JoinFilters(s);
    JoinCover(s);
  }

  /** Joining keeps the keys of the later groups. */
  lemma {:induction false} JoinKeys(s: seq<VirtualIp>)
    requires s != []
    requires var rest := GroupByInterface(s[1..]); rest != [] && rest[0].0 == s[0].interface
    ensures var rest := GroupByInterface(s[1..]); var groups := GroupByInterface(s);
      |groups| == |rest| && forall i :: 0 <= i < |groups| ==> groups[i].0 == rest[i].0
    ensures var rest := GroupByInterface(s[1..]); var groups := GroupByInterface(s);
      forall i :: 0 < i < |groups| ==> groups[i] == rest[i]
  {
  }

  lemma {:induction false} JoinFilters(s: seq<VirtualIp>)
    requires s != []
    requires var rest := GroupByInterface(s[1..]);
      && rest != [] && rest[0].0 == s[0].interface
      && KeysIncreasing(rest) && GroupsAreFilters(s[1..], rest)
    ensures GroupsAreFilters(s, GroupByInterface(s))
  {
    var v := s[0];
    var groups := GroupByInterface(s);
    JoinKeys(s);
    assert KeysIncreasing(groups);
    LessIrreflexive(v.interface);
    forall i | 0 <= i < |groups|
      ensures groups[i].1 == Filter(s, OnInterface(groups[i].0))
    {
      FilterCons(s, OnInterface(groups[i].0));
    }
  }

  lemma {:induction false} JoinCover(s: seq<VirtualIp>)
    requires s != []
    requires var rest := GroupByInterface(s[1..]);
      && rest != [] && rest[0].0 == s[0].interface && GroupsCover(s[1..], rest)
    ensures GroupsCover(s, GroupByInterface(s))
  {
    var rest := GroupByInterface(s[1..]);
    var groups := GroupByInterface(s);
    JoinKeys(s);
    assert GroupKeys(groups) == GroupKeys(rest);
    forall x | 0 <= x < |s|
      ensures s[x].interface in GroupKeys(groups)
    {
      if x > 0 {
        assert s[x] == s[1..][x - 1];
      } else {
        assert GroupKeys(groups)[0] == s[0].interface;
      }
    }
  }

  /** The first VIP starts a group of its own. */
  lemma {:induction false} GroupStart(s: seq<VirtualIp>)
    requires s != []
    requires var rest := GroupByInterface(s[1..]);
      && (forall i :: 0 <= i < |rest| ==> Less(s[0].interface, rest[i].0))
      && KeysIncreasing(rest) && GroupsAreFilters(s[1..], rest) && GroupsCover(s[1..], rest)
    ensures KeysIncreasing(GroupByInterface(s))
    ensures GroupsAreFilters(s, GroupByInterface(s))
    ensures GroupsCover(s, GroupByInterface(s))
  {
    var v := s[0];
    var rest := GroupByInterface(s[1..]);
    var groups := GroupByInterface(s);
    LessIrreflexive(v.interface);
    assert groups == [(v.interface, [v])] + rest;
    StartAlone(s);
    StartFilters(s);
    StartCover(s);
  }

  /** No later VIP shares the interface of a VIP that starts its own group. */
  lemma {:induction false} StartAlone(s: seq<VirtualIp>)
    requires s != []
    requires var rest := GroupByInterface(s[1..]);
      && (forall i :: 0 <= i < |rest| ==> Less(s[0].interface, rest[i].0))
      && GroupsCover(s[1..], rest)
    ensures Filter(s[1..], OnInterface(s[0].interface)) == []
  {
    var v := s[0];
    var tail := s[1..];
    var rest := GroupByInterface(tail);
    LessIrreflexive(v.interface);
    forall x | 0 <= x < |tail|
      ensures !OnInterface(v.interface)(tail[x])
    {
      var keys := GroupKeys(rest);
      assert tail[x].interface in keys;
      var i :| 0 <= i < |keys| && keys[i] == tail[x].interface;
      assert Less(v.interface, rest[i].0);
    }
    FilterNone(tail, OnInterface(v.interface));
  }

  lemma {:induction false} StartFilters(s: seq<VirtualIp>)
    requires s != []
    requires var rest := GroupByInterface(s[1..]);
      && (forall i :: 0 <= i < |rest| ==> Less(s[0].interface, rest[i].0))
      && GroupsAreFilters(s[1..], rest)
    requires Filter(s[1..], OnInterface(s[0].interface)) == []
    ensures GroupsAreFilters(s, GroupByInterface(s))
  {
    var v := s[0];
    var rest := GroupByInterface(s[1..]);
    var groups := GroupByInterface(s);
    LessIrreflexive(v.interface);
    assert groups == [(v.interface, [v])] + rest;
    forall i | 0 <= i < |groups|
      ensures groups[i].1 == Filter(s, OnInterface(groups[i].0))
    {
      FilterCons(s, OnInterface(groups[i].0));
      if i > 0 {
        assert groups[i] == rest[i - 1];
      }
    }
  }

  lemma {:induction false} StartCover(s: seq<VirtualIp>)
    requires s != []
    requires var rest := GroupByInterface(s[1..]);
      && (forall i :: 0 <= i < |rest| ==> Less(s[0].interface, rest[i].0))
      && GroupsCover(s[1..], rest)
    ensures GroupsCover(s, GroupByInterface(s))
  {
    var v := s[0];
    var tail := s[1..];
    var rest := GroupByInterface(tail);
    var groups := GroupByInterface(s);
    LessIrreflexive(v.interface);
    assert groups == [(v.interface, [v])] + rest;
    assert GroupKeys(groups) == [v.interface] + GroupKeys(rest);
    forall x | 0 <= x < |s|
      ensures s[x].interface in GroupKeys(groups)
    {
      if x > 0 {
        assert s[x] == tail[x - 1];
      }
    }
  }

  /** In a sorted sequence whose first VIP does not join the next group,
      the first interface is below every later group's. */
  lemma {:induction false} StartBelowRest(s: seq<VirtualIp>)
    requires s != [] && SortedByInterface(s)
    requires var rest := GroupByInterface(s[1..]);
      !(rest != [] && rest[0].0 == s[0].interface) && KeysIncreasing(rest)
    ensures var rest := GroupByInterface(s[1..]);
      forall i :: 0 <= i < |rest| ==> Less(s[0].interface, rest[i].0)
  {
    var rest := GroupByInterface(s[1..]);
    if rest != [] {
      assert rest[0].0 == s[1].interface;
      assert !Less(s[1].interface, s[0].interface);
      LessTotal(s[0].interface, rest[0].0);
      forall i | 0 < i < |rest|
        ensures Less(s[0].interface, rest[i].0)
      {
        LessTransitive(s[0].interface, rest[0].0, rest[i].0);
      }
    }
  }

  // ---------------------------------------------------------------------
  // VIP discovery

  /** A (vhid, status) pair of the discovery_status parameter. */
  datatype StatusEntry = StatusEntry(vhid: string, status: string)

  /** A discovered VIP service: its item and its parameters. */
  datatype VipService = VipService(item: string, interface: string, vhid: Option<string>, discoveryStatus: seq<StatusEntry>)

  /** The discovery rule: 'discover' ('none', 'master' or all else) and
      'groupby' ('interface' or anything else); both default to 'none'. */
  datatype VipDiscoveryParams = VipDiscoveryParams(discover: string, groupby: string)

  predicate IsMaster(v: VirtualIp) {
    v.status == "MASTER"
  }

  function StatusEntries(vips: seq<VirtualIp>): (entries: seq<StatusEntry>)
    ensures |entries| == |vips|
    ensures forall i :: 0 <= i < |vips| ==> entries[i] == StatusEntry(vips[i].vhid, vips[i].status)
  {
    seq(|vips|, i requires 0 <= i < |vips| => StatusEntry(vips[i].vhid, vips[i].status))
  }

  /** The VIPs discovery considers: all of them, or only the masters. */
  function Considered(params: VipDiscoveryParams, section: seq<VirtualIp>): seq<VirtualIp> {
    if params.discover == "master" then Filter(section, IsMaster) else section
  }

  function VipItem(v: VirtualIp): string {
    v.interface + "@" + v.vhid
  }

  /** One service per group: the interface is the item. */
  function GroupServices(groups: seq<(string, seq<VirtualIp>)>): (services: seq<VipService>)
    ensures |services| == |groups|
    ensures forall i :: 0 <= i < |groups| ==>
              services[i] == VipService(groups[i].0, groups[i].0, None, StatusEntries(groups[i].1))
  {
    seq(|groups|, i requires 0 <= i < |groups| => VipService(groups[i].0, groups[i].0, None, StatusEntries(groups[i].1)))
  }

  /** One service per VIP: "<interface>@<vhid>". */
  function VipServices(vips: seq<VirtualIp>): (services: seq<VipService>)
    ensures |services| == |vips|
    ensures forall i :: 0 <= i < |vips| ==>
              services[i] == VipService(VipItem(vips[i]), vips[i].interface, Some(vips[i].vhid), [StatusEntry(vips[i].vhid, vips[i].status)])
  {
    seq(|vips|, i requires 0 <= i < |vips| =>
      VipService(VipItem(vips[i]), vips[i].interface, Some(vips[i].vhid), [StatusEntry(vips[i].vhid, vips[i].status)]))
  }

  /** discovery_opnsense_vip. */
  function DiscoverVip(params: VipDiscoveryParams, section: Option<seq<VirtualIp>>): (r: Try<seq<VipService>>)
    ensures params.discover == "none" ==> r == Ok([])
    ensures params.discover != "none" && section.None? ==> r == Raised(TypeError)
    ensures params.discover != "none" && section.Some? && params.groupby != "interface" ==>
              r == Ok(VipServices(Considered(params, section.value)))
  {
    if params.discover == "none" then Ok([])
    else if section.None? then Raised(TypeError)
    else
      var kept := Considered(params, section.value);
      if params.groupby == "interface" then Ok(GroupServices(GroupByInterface(SortByInterface(kept))))
      else Ok(VipServices(kept))
  }

  /** Grouped discovery: one service per interface among the considered
      VIPs and none for any other interface, in increasing order of
      interface, whose discovery_status lists that interface's VIPs in
      section order. */
  lemma {:induction false} DiscoverGrouped(params: VipDiscoveryParams, section: seq<VirtualIp>)
    requires params.discover != "none" && params.groupby == "interface"
    ensures DiscoverVip(params, Some(section)).Ok?
    ensures ItemsIncreasing(DiscoverVip(params, Some(section)).value)
    ensures ServicesPerInterface(Considered(params, section), DiscoverVip(params, Some(section)).value)
    ensures ServicesCover(Considered(params, section), DiscoverVip(params, Some(section)).value)
    ensures ServicesFromVips(Considered(params, section), DiscoverVip(params, Some(section)).value)
  {
    var kept := Considered(params, section);
    assert DiscoverVip(params, Some(section)) == Ok(GroupServices(GroupByInterface(SortByInterface(kept))));
    GroupedServices(kept);
  }

  predicate ItemsIncreasing(services: seq<VipService>) {
    forall i, j :: 0 <= i < j < |services| ==> Less(services[i].item, services[j].item)
  }

  /** Each service is its interface's: item and interface agree, no vhid,
      and discovery_status lists the VIPs of that interface in order. */
  predicate ServicesPerInterface(vips: seq<VirtualIp>, services: seq<VipService>) {
    forall i :: 0 <= i < |services| ==>
      && services[i].interface == services[i].item && services[i].vhid.None?
      && services[i].discoveryStatus == StatusEntries(Filter(vips, OnInterface(services[i].item)))
  }

  /** The interfaces the VIPs are on. */
  function InterfacesOf(vips: seq<VirtualIp>): set<string> {
    set v | v in vips :: v.interface
  }

  /** Every service's item is the interface of one of vips. */
  predicate ServicesFromVips(vips: seq<VirtualIp>, services: seq<VipService>) {
    forall i :: 0 <= i < |services| ==> services[i].item in InterfacesOf(vips)
  }

  /** Every interface of vips has a service. */
  predicate ServicesCover(vips: seq<VirtualIp>, services: seq<VipService>) {
    forall x :: 0 <= x < |vips| ==> vips[x].interface in ServiceItems(services)
  }

  function ServiceItems(services: seq<VipService>): (items: seq<string>)
    ensures |items| == |services| && forall i :: 0 <= i < |services| ==> items[i] == services[i].item
  {
    seq(|services|, i requires 0 <= i < |services| => services[i].item)
  }

  lemma {:induction false} GroupedServices(kept: seq<VirtualIp>)
    ensures ItemsIncreasing(GroupServices(GroupByInterface(SortByInterface(kept))))
    ensures ServicesPerInterface(kept, GroupServices(GroupByInterface(SortByInterface(kept))))
    ensures ServicesCover(kept, GroupServices(GroupByInterface(SortByInterface(kept))))
    ensures ServicesFromVips(kept, GroupServices(GroupByInterface(SortByInterface(kept))))
  {
    GroupsOfSorted(kept);
    var groups := GroupByInterface(SortByInterface(kept));
    ServicesIncreasing(groups);
    ServicesFiltered(kept, groups);
    ServicesCovering(kept, groups);
    ServicesFromGroups(kept, groups);
  }

  /** ... non-empty groups that are the filters give services whose
      items are interfaces of the VIPs ... */
  lemma ServicesFromGroups(kept: seq<VirtualIp>, groups: seq<(string, seq<VirtualIp>)>)
    requires GroupsAreFilters(kept, groups)
    requires forall i :: 0 <= i < |groups| ==> groups[i].1 != []
    ensures ServicesFromVips(kept, GroupServices(groups))
  {
    var services := GroupServices(groups);
    forall i | 0 <= i < |services|
      ensures services[i].item in InterfacesOf(kept)
    {
      var name := groups[i].0;
      var f := groups[i].1[0];
      FilterMembers(kept, OnInterface(name));
      assert OnInterface(name)(f) && f in kept;
      assert f.interface == services[i].item;
    }
  }

  /** One service per group carries the groups' properties over to the
      services: increasing keys give increasing items, ... */
  lemma ServicesIncreasing(groups: seq<(string, seq<VirtualIp>)>)
    requires KeysIncreasing(groups)
    ensures ItemsIncreasing(GroupServices(groups))
  {
    var services := GroupServices(groups);
    forall i, j | 0 <= i < j < |services|
      ensures Less(services[i].item, services[j].item)
    {
      assert services[i].item == groups[i].0 && services[j].item == groups[j].0;
    }
  }

  /** ... groups that are the filters give the discovery statuses ... */
  lemma ServicesFiltered(kept: seq<VirtualIp>, groups: seq<(string, seq<VirtualIp>)>)
    requires GroupsAreFilters(kept, groups)
    ensures ServicesPerInterface(kept, GroupServices(groups))
  {
    var services := GroupServices(groups);
    forall i | 0 <= i < |services|
      ensures services[i].interface == services[i].item && services[i].vhid.None?
      ensures services[i].discoveryStatus == StatusEntries(Filter(kept, OnInterface(services[i].item)))
    {
      assert services[i] == VipService(groups[i].0, groups[i].0, None, StatusEntries(groups[i].1));
    }
  }

  /** ... and groups that cover the VIPs give services that do. */
  lemma ServicesCovering(kept: seq<VirtualIp>, groups: seq<(string, seq<VirtualIp>)>)
    requires GroupsCover(kept, groups)
    ensures ServicesCover(kept, GroupServices(groups))
  {
    assert ServiceItems(GroupServices(groups)) == GroupKeys(groups);
  }

  /** Grouping the sorted VIPs groups the original ones. */
  lemma {:induction false} GroupsOfSorted(kept: seq<VirtualIp>)
    ensures KeysIncreasing(GroupByInterface(SortByInterface(kept)))
    ensures GroupsAreFilters(kept, GroupByInterface(SortByInterface(kept)))
    ensures GroupsCover(kept, GroupByInterface(SortByInterface(kept)))
  {
    var sorted := SortByInterface(kept);
    SortSorted(kept);
    GroupSorted(sorted);
    var groups := GroupByInterface(sorted);
    forall i | 0 <= i < |groups|
      ensures groups[i].1 == Filter(kept, OnInterface(groups[i].0))
    {
      SortStable(kept, groups[i].0);
    }
    CoverPermuted(sorted, kept, groups);
  }

  /** Groups covering the interfaces of a sequence cover those of any
      permutation of it. */
  lemma CoverPermuted(a: seq<VirtualIp>, b: seq<VirtualIp>, groups: seq<(string, seq<VirtualIp>)>)
    requires multiset(a) == multiset(b) && GroupsCover(a, groups)
    ensures GroupsCover(b, groups)
  {
    forall x | 0 <= x < |b|
      ensures b[x].interface in GroupKeys(groups)
    {
      assert b[x] in multiset(a);
      var y :| 0 <= y < |a| && a[y] == b[x];
    }
  }

  // ---------------------------------------------------------------------
  // VIP check

  /** The check parameters: the discovered interface, vhid (per-VIP
      services only) and discovery_status, and the optional configured
      expected_status. */
  datatype VipParams = VipParams(interface: string, vhid: Option<string>, expectedStatus: Option<string>,
                                 discoveryStatus: seq<StatusEntry>)

  /** The VIPs the check looks at. */
  function Selected(params: VipParams): VirtualIp -> bool {
    (v: VirtualIp) => v.interface == params.interface && (params.vhid.None? || v.vhid == params.vhid.value)
  }

  /** The inner loop over discovery_status: the status of the last entry
      with the VIP's vhid, or the value the variable held before (None
      for a variable not yet bound). */
  function LastStatus(entries: seq<StatusEntry>, vhid: string, before: Option<string>): (r: Option<string>)
    ensures (forall i :: 0 <= i < |entries| ==> entries[i].vhid != vhid) ==> r == before
    ensures forall i :: 0 <= i < |entries| && entries[i].vhid == vhid && (forall j :: i < j < |entries| ==> entries[j].vhid != vhid) ==>
              r == Some(entries[i].status)
  {
    if entries == [] then before
    else
      var n := |entries| - 1;
      if entries[n].vhid == vhid then Some(entries[n].status)
      else
        assert forall j :: 0 <= j < n ==> entries[..n][j] == entries[j];
        LastStatus(entries[..n], vhid, before)
  }

  /** The inner loop of check_opnsense_vip. */
  method FindExpected(entries: seq<StatusEntry>, vhid: string, before: Option<string>) returns (expected: Option<string>)
    ensures expected == LastStatus(entries, vhid, before)
  {
    expected := before;
    for j := 0 to |entries|
      invariant expected == LastStatus(entries[..j], vhid, before)
    {
      assert entries[..j + 1][..j] == entries[..j];
      if entries[j].vhid == vhid {
        expected := Some(entries[j].status);
      }
    }
    assert entries[..|entries|] == entries;
  }

  /** The expected status of a selected VIP, given the value the variable
      held after the previous selected VIP. */
  function ExpectedStatus(params: VipParams, v: VirtualIp, before: Option<string>): Option<string> {
    if params.expectedStatus.Some? then params.expectedStatus else LastStatus(params.discoveryStatus, v.vhid, before)
  }

  /** The result of one VIP: OK when its status is the expected one, WARN
      with the expected status otherwise. */
  function VipResult(v: VirtualIp, expected: string): (r: CheckItem)
    ensures r.Result? && r.state != CRIT && r.state != UNKNOWN
    ensures r.state == OK <==> v.status == expected
    ensures r.state == OK ==> r.summary == v.status + ": " + v.subnet
    ensures r.state == WARN ==> r.summary == v.status + ": " + v.subnet + " (expected: " + expected + ")"
  {
    if v.status == expected then Result(OK, v.status + ": " + v.subnet)
    else Result(WARN, v.status + ": " + v.subnet + " (expected: " + expected + ")")
  }

  /** The check loop over a prefix of the section: the output so far and
      the value of the persistent expected_status variable. */
  function VipFold(params: VipParams, vips: seq<VirtualIp>): (Try<seq<CheckItem>>, Option<string>) {
    if vips == [] then (Ok([]), None)
    else VipStep(params, VipFold(params, vips[..|vips| - 1]), vips[|vips| - 1])
  }

  /** One round of the check loop: a VIP that is not selected, or a loop
      that has failed, changes nothing. */
  function VipStep(params: VipParams, prev: (Try<seq<CheckItem>>, Option<string>), v: VirtualIp): (Try<seq<CheckItem>>, Option<string>) {
    if prev.0.Raised? || !Selected(params)(v) then prev
    else
      var expected := ExpectedStatus(params, v, prev.1);
      if expected.None? then (Raised(UnboundLocalError), expected)
      else (Ok(prev.0.value + [VipResult(v, expected.value)]), expected)
  }

  /** The loop over one more VIP is one more step. */
  lemma VipFoldNext(params: VipParams, vips: seq<VirtualIp>, i: nat)
    requires i < |vips|
    ensures VipFold(params, vips[..i + 1]) == VipStep(params, VipFold(params, vips[..i]), vips[i])
  {
    assert vips[..i + 1][..i] == vips[..i];
  }

  /** check_opnsense_vip as a function of its parameters and section. */
  function VipCheck(params: VipParams, section: Option<seq<VirtualIp>>): Try<seq<CheckItem>> {
    if section.None? then Raised(TypeError) else VipFold(params, section.value).0
  }

  /** check_opnsense_vip: the loop with the expected status carried from
      one VIP to the next. */
  method CheckVip(params: VipParams, section: Option<seq<VirtualIp>>) returns (r: Try<seq<CheckItem>>)
    ensures r == VipCheck(params, section)
  {
    if section.None? {
      return Raised(TypeError);
    }
    var vips := section.value;
    var out: seq<CheckItem> := [];
    var expected: Option<string> := None;
    for i := 0 to |vips|
      invariant VipFold(params, vips[..i]) == (Ok(out), expected)
    {
      var vip := vips[i];
      VipFoldNext(params, vips, i);
      if vip.interface != params.interface || (params.vhid.Some? && vip.vhid != params.vhid.value) {
        continue;
      }
      if params.expectedStatus.Some? {
        expected := params.expectedStatus;
      } else {
        expected := FindExpected(params.discoveryStatus, vip.vhid, expected);
      }
      if expected.None? {
        VipFoldRaised(params, vips, i + 1);
        assert vips[..|vips|] == vips;
        return Raised(UnboundLocalError);
      }
      out := out + [VipResult(vip, expected.value)];
    }
    assert vips[..|vips|] == vips;
    r := Ok(out);
  }

  /** Once the loop has failed, the rest of the section changes nothing. */
  lemma VipFoldRaised(params: VipParams, vips: seq<VirtualIp>, n: nat)
    requires n <= |vips| && VipFold(params, vips[..n]).0.Raised?
    ensures VipFold(params, vips).0 == VipFold(params, vips[..n]).0
    decreases |vips| - n
  {
    if n < |vips| {
      assert vips[..n + 1][..n] == vips[..n];
      VipFoldRaised(params, vips, n + 1);
    } else {
      assert vips[..n] == vips;
    }
  }

  /** One result per selected VIP, in order, never CRIT. */
  lemma {:induction false} VipFoldResults(params: VipParams, vips: seq<VirtualIp>)
    ensures var out := VipFold(params, vips).0;
      out.Ok? ==> |out.value| == |Filter(vips, Selected(params))| &&
                  forall i :: 0 <= i < |out.value| ==> out.value[i].Result? && out.value[i].state in {OK, WARN}
  {
    if vips != [] {
      var init := vips[..|vips| - 1];
      var v := vips[|vips| - 1];
      VipFoldResults(params, init);
      assert vips == init + [v];
      FilterSnocCount(init, v, Selected(params));
    }
  }

  /** With a configured expected_status the check never fails, and each
      selected VIP, in order, is compared against that status. */
  lemma {:induction false} VipFoldConfigured(params: VipParams, vips: seq<VirtualIp>)
    requires params.expectedStatus.Some?
    ensures var out := VipFold(params, vips).0;
      var selected := Filter(vips, Selected(params));
      out.Ok? && |out.value| == |selected| &&
      forall i :: 0 <= i < |selected| ==> out.value[i] == VipResult(selected[i], params.expectedStatus.value)
  {
    if vips != [] {
      var init := vips[..|vips| - 1];
      var v := vips[|vips| - 1];
      VipFoldConfigured(params, init);
      assert vips == init + [v];
      FilterAppend(init, [v], Selected(params));
      assert [v][1..] == [];
    }
  }

  /** The first selected VIP without a discovery_status entry for its
      vhid, when no expected_status is configured, fails the check with
      UnboundLocalError. */
  lemma FirstSelectedUnbound(params: VipParams, vips: seq<VirtualIp>, k: nat)
    requires params.expectedStatus.None?
    requires k < |vips| && Selected(params)(vips[k]) && forall j :: 0 <= j < k ==> !Selected(params)(vips[j])
    requires forall i :: 0 <= i < |params.discoveryStatus| ==> params.discoveryStatus[i].vhid != vips[k].vhid
    ensures VipCheck(params, Some(vips)) == Raised(UnboundLocalError)
  {
    VipFoldUnselected(params, vips[..k]);
    assert vips[..k + 1][..k] == vips[..k];
    VipFoldRaised(params, vips, k + 1);
  }

  lemma {:induction false} VipFoldUnselected(params: VipParams, vips: seq<VirtualIp>)
    requires forall j :: 0 <= j < |vips| ==> !Selected(params)(vips[j])
    ensures VipFold(params, vips) == (Ok([]), None)
  {
    if vips != [] {
      VipFoldUnselected(params, vips[..|vips| - 1]);
    }
  }

  /** The last discovery_status entry with v's vhid records v's own
      status, whatever the variable held before. */
  ghost predicate ExpectsOwnStatus(params: VipParams, v: VirtualIp) {
    forall before :: LastStatus(params.discoveryStatus, v.vhid, before) == Some(v.status)
  }

  /** When every selected VIP finds its own status as the last entry with
      its vhid, the check is all OK. */
  lemma {:induction false} VipFoldAllOk(params: VipParams, vips: seq<VirtualIp>)
    requires params.expectedStatus.None?
    requires forall i :: 0 <= i < |vips| && Selected(params)(vips[i]) ==> ExpectsOwnStatus(params, vips[i])
    ensures VipFold(params, vips).0.Ok? && AllOk(VipFold(params, vips).0.value)
  {
    if vips != [] {
      var init := vips[..|vips| - 1];
      var v := vips[|vips| - 1];
      VipFoldAllOk(params, init);
      var prev := VipFold(params, init);
      if Selected(params)(v) {
        assert ExpectsOwnStatus(params, v);
        assert ExpectedStatus(params, v, prev.1) == Some(v.status);
        assert VipFold(params, vips).0.value == prev.0.value + [VipResult(v, v.status)];
      }
    }
  }

  /** Status entries taken from VIPs with distinct vhids: the last entry
      with a VIP's vhid is its own. */
  lemma OwnEntry(vips: seq<VirtualIp>, k: nat, before: Option<string>)
    requires k < |vips| && DistinctVhids(vips)
    ensures LastStatus(StatusEntries(vips), vips[k].vhid, before) == Some(vips[k].status)
  {
  }

  lemma {:induction false} FilterSame<T>(s: seq<T>, p: T -> bool, q: T -> bool)
    requires forall x :: p(x) == q(x)
    ensures Filter(s, p) == Filter(s, q)
  {
    if s != [] {
      FilterSame(s[1..], p, q);
    }
  }

  /** Checking a grouped service right after discovering all VIPs reports
      every VIP of its interface as OK, when the vhids on that interface
      are distinct. */
  lemma {:induction false} GroupedCheckAfterDiscovery(section: seq<VirtualIp>, n: nat)
    requires var r := DiscoverVip(VipDiscoveryParams("all", "interface"), Some(section)); r.Ok? && n < |r.value|
    requires var svc := DiscoverVip(VipDiscoveryParams("all", "interface"), Some(section)).value[n];
      DistinctVhids(Filter(section, OnInterface(svc.interface)))
    ensures var svc := DiscoverVip(VipDiscoveryParams("all", "interface"), Some(section)).value[n];
      var out := VipCheck(VipParams(svc.interface, None, None, svc.discoveryStatus), Some(section));
      out.Ok? && |out.value| == |Filter(section, OnInterface(svc.interface))| && AllOk(out.value)
  {
    var dp := VipDiscoveryParams("all", "interface");
    DiscoverGrouped(dp, section);
    var svc := DiscoverVip(dp, Some(section)).value[n];
    assert svc.discoveryStatus == StatusEntries(Filter(section, OnInterface(svc.interface)));
    CheckInterfaceGroup(section, svc.interface);
  }

  predicate DistinctVhids(vips: seq<VirtualIp>) {
    forall i, j :: 0 <= i < j < |vips| ==> vips[i].vhid != vips[j].vhid
  }

  /** An interface checked against the status entries of its own VIPs. */
  lemma {:induction false} CheckInterfaceGroup(section: seq<VirtualIp>, name: string)
    requires DistinctVhids(Filter(section, OnInterface(name)))
    ensures var members := Filter(section, OnInterface(name));
      var out := VipCheck(VipParams(name, None, None, StatusEntries(members)), Some(section));
      out.Ok? && |out.value| == |members| && AllOk(out.value)
  {
    var members := Filter(section, OnInterface(name));
    var params := VipParams(name, None, None, StatusEntries(members));
    FilterMembers(section, OnInterface(name));
    forall i | 0 <= i < |section| && Selected(params)(section[i])
      ensures ExpectsOwnStatus(params, section[i])
    {
      assert section[i] in members;
      var k :| 0 <= k < |members| && members[k] == section[i];
      forall before: Option<string>
        ensures LastStatus(params.discoveryStatus, section[i].vhid, before) == Some(section[i].status)
      {
        OwnEntry(members, k, before);
      }
    }
    VipFoldAllOk(params, section);
    VipFoldResults(params, section);
    FilterSame(section, Selected(params), OnInterface(name));
  }
}
