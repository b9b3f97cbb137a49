/** The interfaces section: one JSON record per network interface, turned
    into the attributes and counters of the generic interface check. The
    type name is mapped to its position in a fixed list, which for
    positions 1 to 32 is the ifType number of the MIB-II interfaces group
    (section 6 of RFC 1213). */
module Interfaces {
  import opened Common
  import opened Text
  import opened Numbers

  // ---------------------------------------------------------------------
  // Interface types

  /** The type names, in the order whose positions the plug-in reports,
      written in groups of ten. */
  const IfTypes: seq<string> :=
    ["reserved", "other", "BBN 1822", "HDH 1822", "X.25 DDN", "X.25", "Ethernet",
     "ISO 8802-3 CSMA/CD", "ISO 8802-4 Token Bus", "ISO 8802-5 Token Ring"]
    + ["ISO 8802-6 DQDB MAN", "StarLAN", "Proteon proNET-10", "Proteon proNET-80", "HyperChannel",
       "FDDI", "LAP-B", "SDLC", "T-1", "CEPT"]
    + ["Basic rate ISDN", "Primary rate ISDN", "Proprietary P2P", "PPP", "Loopback",
       "ISO CLNP over IP", "Experimental Ethernet", "XNS over IP", "SLIP", "Ultra Technologies"]
    + ["DS-3", "SMDS", "Frame Relay", "RS-232 serial", "Parallel printer port", "ARCNET",
       "ARCNET+", "ATM", "MIOX25", "SONET/SDH"]
    + ["X25PLE", "ISO 8802-2 LLC", "LocalTalk", "SMDSDXI", "Frame Relay DCE", "V.35", "HSSI",
       "HIPPI", "Generic Modem", "ATM AAL5"]
    + ["SONETPATH", "SONETVT", "SMDS InterCarrier Interface", "Proprietary virtual interface",
       "Proprietary multiplexing", "Generic tunnel interface",
       "IPv6-to-IPv4 TCP relay capturing interface", "6to4 tunnel interface"]

  /** list.index: the first position holding t. */
  function Position(names: seq<string>, t: string): (i: nat)
    requires t in names
    ensures i < |names| && names[i] == t
    ensures forall j :: 0 <= j < i ==> names[j] != t
  {
    if names[0] == t then 0 else 1 + Position(names[1..], t)
  }

  /** parse_opnsense_interfaces_type: a listed name gives its position in
      decimal, a name starting with "unknown type" gives what follows
      position 13, anything else gives "1" (other). */
  function InterfaceType(t: string): (r: string)
  {
    if t in IfTypes then NatToString(Position(IfTypes, t))
    else if "unknown type" <= t then (if |t| >= 13 then t[13..] else [])
    else "1"
  }

  /** A listed name maps to the decimal string of its first position. */
  lemma InterfaceTypeListed(t: string, i: nat)
    requires i < |IfTypes| && IfTypes[i] == t
    requires forall j :: 0 <= j < i ==> IfTypes[j] != t
    ensures InterfaceType(t) == NatToString(i)
    ensures AllDigits(InterfaceType(t)) && DigitsValue(InterfaceType(t)) == i
  {
    NatToStringValue(i);
  }

  /** Every listed name maps to a number from 0 to 57. */
  lemma InterfaceTypeRange(t: string)
    requires t in IfTypes
    ensures AllDigits(InterfaceType(t)) && DigitsValue(InterfaceType(t)) < 58
  {
    var i := Position(IfTypes, t);
    InterfaceTypeListed(t, i);
  }

  /** No listed name starts with a lower-case 'u'. */
  lemma NoListedUnknown()
    ensures forall i :: 0 <= i < |IfTypes| ==> IfTypes[i] != [] && IfTypes[i][0] != 'u'
  {
  }

  /** "unknown type <suffix>" maps to the suffix. */
  lemma InterfaceTypeUnknown(suffix: string)
    ensures InterfaceType("unknown type " + suffix) == suffix
  {
    var t := "unknown type " + suffix;
    NoListedUnknown();
    assert t[0] == 'u';
    assert t !in IfTypes;
    assert t[..12] == "unknown type";
    assert t[13..] == suffix;
  }

  /** Unlisted names without the unknown-type prefix map to "1". */
  lemma InterfaceTypeOther(t: string)
    requires t !in IfTypes && !("unknown type" <= t)
    ensures InterfaceType(t) == "1"
  {
  }

  /** "reserved" gives "0". */
  lemma InterfaceTypeReserved()
    ensures InterfaceType("reserved") == "0"
  {
    InterfaceTypeListed("reserved", 0);
  }

  /** "other" gives "1". */
  lemma InterfaceTypeOtherName()
    ensures InterfaceType("other") == "1"
  {
    InterfaceTypeListed("other", 1);
  }

  /** "Ethernet" gives "6". */
  lemma InterfaceTypeEthernet()
    ensures InterfaceType("Ethernet") == "6"
  {
    InterfaceTypeListed("Ethernet", 6);
  }

  // ---------------------------------------------------------------------
  // Counters

  /** The six counters of an interface; JNull where the statistics lack
      the counter (dict.get with default None). */
  datatype Counters = Counters(inOctets: Json, inUcast: Json, inErr: Json,
                               outOctets: Json, outUcast: Json, outErr: Json)

  /** d.get(k, None) */
  function Get(d: Dict<string, Json>, k: string): (v: Json)
    ensures k !in Keys(d) ==> v == JNull
    ensures k in Keys(d) ==> Some(v) == Lookup(d, k)
  {
    match Lookup(d, k)
    case None => JNull
    case Some(v) => v
  }

  /** The statistics keys the counters come from, in field order. */
  const CounterKeys: seq<string> :=
    ["bytes received", "packets received", "input errors",
     "bytes transmitted", "packets transmitted", "output errors"]

  /** parse_opnsense_interfaces_statistics */
  function StatisticsCounters(stats: Dict<string, Json>): (c: Counters)
  {
    Counters(Get(stats, CounterKeys[0]), Get(stats, CounterKeys[1]), Get(stats, CounterKeys[2]),
             Get(stats, CounterKeys[3]), Get(stats, CounterKeys[4]), Get(stats, CounterKeys[5]))
  }

  /** The counters as a list in field order. */
  function CounterValues(c: Counters): seq<Json> {
    [c.inOctets, c.inUcast, c.inErr, c.outOctets, c.outUcast, c.outErr]
  }

  /** Each counter is the value under its key, or JNull when the key is
      missing. */
  lemma CountersFromKeys(stats: Dict<string, Json>)
    ensures forall i :: 0 <= i < 6 ==>
              && (CounterKeys[i] in Keys(stats) ==> Some(CounterValues(StatisticsCounters(stats))[i]) == Lookup(stats, CounterKeys[i]))
              && (CounterKeys[i] !in Keys(stats) ==> CounterValues(StatisticsCounters(stats))[i] == JNull)
  {
    var c := CounterValues(StatisticsCounters(stats));
    assert c == [Get(stats, CounterKeys[0]), Get(stats, CounterKeys[1]), Get(stats, CounterKeys[2]),
                 Get(stats, CounterKeys[3]), Get(stats, CounterKeys[4]), Get(stats, CounterKeys[5])];
    forall i | 0 <= i < 6
      ensures c[i] == Get(stats, CounterKeys[i])
    {
      if i < 3 {
        assert i == 0 || i == 1 || i == 2;
      } else {
        assert i == 3 || i == 4 || i == 5;
      }
    }
  }

  /** Setting a statistics entry that is not a counter leaves the
      counters alone. */
  lemma CountersIgnoreOtherKeys(stats: Dict<string, Json>, k: string, v: Json)
    requires k !in CounterKeys
    ensures StatisticsCounters(Assign(stats, k, v)) == StatisticsCounters(stats)
  {
    var s := Assign(stats, k, v);
    forall i | 0 <= i < 6
      ensures Get(s, CounterKeys[i]) == Get(stats, CounterKeys[i])
    {
      var key := CounterKeys[i];
      assert key != k;
      if key in Keys(stats) {
        var j :| 0 <= j < |stats| && Keys(stats)[j] == key;
        assert stats[j].0 == key;
      }
    }
  }

  // ---------------------------------------------------------------------
  // Interface records

  /** One line of the section: the interface description and its
      statistics object (None where the key is missing). */
  datatype InterfaceLine = InterfaceLine(description: Option<string>, statistics: Option<Dict<string, Json>>)

  /** The attributes handed to the interface check: the index is the JSON
      value whose str() becomes the index. */
  datatype Attributes = Attributes(index: Json, descr: string, alias: string, speed: int, ifType: string)

  datatype Interface = Interface(attributes: Attributes, counters: Counters)

  /** The speed: int() of the text before the first blank of the line
      rate; a line rate that is not a string has no split(). */
  function LineSpeed(rate: Json): (r: Try<int>)
    ensures !rate.JStr? ==> r == Raised(AttributeError)
    ensures rate.JStr? ==> r == ParseInt(BeforeFirst(rate.s, ' '))
  {
    if rate.JStr? then ParseInt(BeforeFirst(rate.s, ' ')) else Raised(AttributeError)
  }

  /** The type of a statistics type value: a value that is not a string
      is never a listed name and has no startswith(). */
  function TypeOf(v: Json): (r: Try<string>)
    ensures !v.JStr? ==> r == Raised(AttributeError)
    ensures v.JStr? ==> r == Ok(InterfaceType(v.s))
  {
    if v.JStr? then Ok(InterfaceType(v.s)) else Raised(AttributeError)
  }

  /** The loop body of parse_opnsense_interfaces: the description and the
      interface stored under it, the arguments evaluated in order. */
  function ParseLine(line: InterfaceLine): (r: Try<(string, Interface)>)
    ensures line.description.None? ==> r == Raised(KeyError)
    ensures r.Ok? ==> && r.value.0 == line.description.value
                      && r.value.1.attributes.descr == r.value.0 && r.value.1.attributes.alias == r.value.0
  {
    if line.description.None? || line.statistics.None? then Raised(KeyError)
    else
      var iface := ParseStatistics(line.description.value, line.statistics.value);
      if iface.Raised? then Raised(iface.exception) else Ok((line.description.value, iface.value))
  }

  /** The interface record of a description and its statistics. */
  function ParseStatistics(nic: string, stats: Dict<string, Json>): (r: Try<Interface>)
    ensures r.Ok? ==> r.value.attributes.descr == nic && r.value.attributes.alias == nic
  {
    var index := Lookup(stats, "index");
    var rate := Lookup(stats, "line rate");
    if index.None? || rate.None? then Raised(KeyError)
    else
      var speed := LineSpeed(rate.value);
      if speed.Raised? then Raised(speed.exception)
      else
        var ty := Lookup(stats, "type");
        if ty.None? then Raised(KeyError)
        else
          var t := TypeOf(ty.value);
          if t.Raised? then Raised(t.exception)
          else Ok(Interface(Attributes(index.value, nic, nic, speed.value, t.value), StatisticsCounters(stats)))
  }

  /** A line parses exactly when it has a description and statistics
      holding an index, a line rate whose leading number int() accepts, and
      a type given as a string; the interface then carries the index, the
      speed, the mapped type and the counters of those statistics. The
      first missing key raises KeyError, a line rate or type that is not a
      string AttributeError. */
  lemma ParseLineSpec(line: InterfaceLine)
    ensures var r := ParseLine(line);
            r.Ok? <==>
              && line.description.Some? && line.statistics.Some?
              && "index" in Keys(line.statistics.value)
              && "line rate" in Keys(line.statistics.value)
              && LineSpeed(Get(line.statistics.value, "line rate")).Ok?
              && "type" in Keys(line.statistics.value)
              && TypeOf(Get(line.statistics.value, "type")).Ok?
    ensures var r := ParseLine(line);
            r.Ok? ==>
              var stats := line.statistics.value;
              r.value.1 == Interface(Attributes(Get(stats, "index"), line.description.value, line.description.value,
                                                LineSpeed(Get(stats, "line rate")).value,
                                                TypeOf(Get(stats, "type")).value),
                                     StatisticsCounters(stats))
    ensures line.statistics.None? ==> ParseLine(line) == Raised(KeyError)
    ensures line.description.Some? && line.statistics.Some? && !("index" in Keys(line.statistics.value)) ==>
              ParseLine(line) == Raised(KeyError)
    ensures line.description.Some? && line.statistics.Some? && "index" in Keys(line.statistics.value) &&
            "line rate" in Keys(line.statistics.value) && !Get(line.statistics.value, "line rate").JStr? ==>
              ParseLine(line) == Raised(AttributeError)
  {
  }

  /** parse_opnsense_interfaces: the lines in order, each stored under its
      description; a later line with the same description replaces the
      interface but keeps the position of the first one. */
  function InterfacesSection(lines: seq<InterfaceLine>): (r: Try<Dict<string, Interface>>)
    ensures r.Ok? <==> forall i :: 0 <= i < |lines| ==> ParseLine(lines[i]).Ok?
  {
    TryMapSpec(lines, ParseLine);
    var entries := TryMap(lines, ParseLine);
    if entries.Raised? then Raised(entries.exception) else Ok(DictOf(entries.value))
  }

  /** The parse loop, filling the dictionary line by line. */
  method ParseInterfaces(lines: seq<InterfaceLine>) returns (r: Try<Dict<string, Interface>>)
    ensures r == InterfacesSection(lines)
  {
    var ifaces: Dict<string, Interface> := [];
    ghost var done: seq<(string, Interface)> := [];
    for k := 0 to |lines|
      invariant TryMap(lines[..k], ParseLine) == Ok(done)
      invariant ifaces == DictOf(done)
    {
      assert lines[..k + 1][..k] == lines[..k];
      var entry := ParseLine(lines[k]);
      if entry.Raised? {
        TryMapRaised(lines, ParseLine, k + 1);
        return Raised(entry.exception);
      }
      assert (done + [entry.value])[..|done|] == done;
      done := done + [entry.value];
      ifaces := Assign(ifaces, entry.value.0, entry.value.1);
    }
    assert lines[..|lines|] == lines;
    r := Ok(ifaces);
  }

  /** The parsed entries of a section that parses, one per line. */
  function Entries(lines: seq<InterfaceLine>): (es: seq<(string, Interface)>)
    requires InterfacesSection(lines).Ok?
    ensures |es| == |lines| && DictOf(es) == InterfacesSection(lines).value
    ensures forall i :: 0 <= i < |lines| ==> ParseLine(lines[i]).Ok? && ParseLine(lines[i]).value == es[i]
    ensures forall i :: 0 <= i < |lines| ==> es[i].0 == lines[i].description.value
  {
    TryMapSpec(lines, ParseLine);
    TryMap(lines, ParseLine).value
  }

  /** Every description of the section is a key of the parsed section, and
      each key is held once. */
  lemma InterfacesCover(lines: seq<InterfaceLine>)
    requires InterfacesSection(lines).Ok?
    ensures DistinctKeys(InterfacesSection(lines).value)
    ensures forall i :: 0 <= i < |lines| ==> lines[i].description.value in Keys(InterfacesSection(lines).value)
  {
    var es := Entries(lines);
    DictOfCovers(es);
  }

  /** The interfaces are stored in order of the first line with each
      description. */
  lemma InterfacesOrder(lines: seq<InterfaceLine>)
    requires InterfacesSection(lines).Ok?
    ensures Keys(InterfacesSection(lines).value) == FirstOccurrences(Keys(Entries(lines)))
  {
    DictOfKeys(Entries(lines));
  }

  /** The last line with a description decides the interface stored
      under it. */
  lemma InterfacesLastWins(lines: seq<InterfaceLine>, i: nat)
    requires InterfacesSection(lines).Ok? && i < |lines|
    requires forall j :: i < j < |lines| ==> lines[j].description != lines[i].description
    ensures Lookup(InterfacesSection(lines).value, lines[i].description.value) == Some(ParseLine(lines[i]).value.1)
  {
    var es := Entries(lines);
    forall j | i < j < |es|
      ensures es[j].0 != es[i].0
    {
      assert lines[j].description != lines[i].description;
    }
    DictOfLast(es, i);
  }

  /** Each stored interface has its key as description and alias. */
  lemma InterfacesNamed(lines: seq<InterfaceLine>)
    requires InterfacesSection(lines).Ok?
    ensures var section := InterfacesSection(lines).value;
            forall k :: 0 <= k < |section| ==>
              section[k].1.attributes.descr == section[k].0 && section[k].1.attributes.alias == section[k].0
  {
    DictOfValues(Entries(lines));
  }

  /** Every stored interface carries its key as description and alias
      when every parsed entry does. */
  lemma {:induction false} DictOfValues(es: seq<(string, Interface)>)
    requires forall i :: 0 <= i < |es| ==> es[i].1.attributes.descr == es[i].0 && es[i].1.attributes.alias == es[i].0
    ensures forall k :: 0 <= k < |DictOf(es)| ==>
              DictOf(es)[k].1.attributes.descr == DictOf(es)[k].0 && DictOf(es)[k].1.attributes.alias == DictOf(es)[k].0
  {
    if es != [] {
      var init := es[..|es| - 1];
      DictOfValues(init);
      var d, last := DictOf(init), es[|es| - 1];
      ReplacedValues(d, last.0, last.1);
      assert DictOf(es) == Replaced(d, last.0, last.1);
    }
  }

  lemma {:induction false} ReplacedValues(d: Dict<string, Interface>, k: string, v: Interface)
    requires forall i :: 0 <= i < |d| ==> d[i].1.attributes.descr == d[i].0 && d[i].1.attributes.alias == d[i].0
    requires v.attributes.descr == k && v.attributes.alias == k
    ensures forall i :: 0 <= i < |Replaced(d, k, v)| ==>
              Replaced(d, k, v)[i].1.attributes.descr == Replaced(d, k, v)[i].0 &&
              Replaced(d, k, v)[i].1.attributes.alias == Replaced(d, k, v)[i].0
  {
    if d != [] {
      var r := Replaced(d, k, v);
      if d[0].0 != k {
        ReplacedValues(d[1..], k, v);
        var rest := Replaced(d[1..], k, v);
        assert r == [d[0]] + rest;
        forall i | 0 <= i < |r|
          ensures r[i].1.attributes.descr == r[i].0 && r[i].1.attributes.alias == r[i].0
        {
          if i > 0 {
            assert r[i] == rest[i - 1];
          }
        }
      } else {
        assert r == [(k, v)] + d[1..];
        assert forall i :: 1 <= i < |r| ==> r[i] == d[i];
      }
    }
  }

  /** A line rate such as "1000 Mbit/s" gives the number before the
      blank. */
  lemma LineRateSpeed(n: nat, unit: string)
    ensures LineSpeed(JStr(NatToString(n) + " " + unit)) == Ok(n)
  {
    var digits := NatToString(n);
    BeforeFirstToken(digits, " " + unit, ' ');
    assert digits + " " + unit == digits + (" " + unit);
    IntRoundTrip(n);
  }

  /** The text before the first separator of a string that starts with a
      separator-free part followed by the separator. */
  lemma {:induction false} BeforeFirstToken(s: string, rest: string, sep: char)
    requires sep !in s && rest != [] && rest[0] == sep
    ensures BeforeFirst(s + rest, sep) == s
  {
    if s != [] {
      assert (s + rest)[1..] == s[1..] + rest;
      BeforeFirstToken(s[1..], rest, sep);
    } else {
      assert s + rest == rest;
    }
  }
}
