/** The gateway plug-in: dpinger's textual round-trip time and loss turned
    into numbers, one service per monitored gateway, and a check of the
    gateway status, round-trip time and packet loss. */
module Gateway {
  import opened Common
  import opened Text
  import opened Numbers

  /** A gateway line as the agent writes it; fields the plug-in does not
      read are not modelled. `status` is the line's 'status_translated'
      key, the only status the check reads. */
  datatype RawGateway = RawGateway(name: string, status: string, loss: string, delay: string,
                                   stddev: string, monitor: string)

  /** A gateway after parsing: "~" became None, times are in seconds;
      `status` is still 'status_translated'. */
  datatype Gateway = Gateway(name: string, status: string, loss: Option<real>, delay: Option<real>,
                             stddev: Option<real>, monitor: Option<string>)

  /** _parse_time: "~" is no value, "<n> ms" is n/1000 seconds, "<n> <unit>"
      for any other unit is n seconds; a string of fewer than two words
      fails at parts[1]. */
  function ParseTime(v: string): (r: Try<Option<real>>)
    ensures r == Ok(None) <==> v == "~"
    ensures r.Ok? && v != "~" ==> r.value.Some?
    ensures r.Raised? ==> (r.exception == IndexError <==> |Split(v)| < 2)
    ensures r.Raised? ==> r.exception in {IndexError, ValueError}
  {
    if v == "~" then Ok(None)
    else
      var parts := Split(v);
      if |parts| < 2 then Raised(IndexError) else Scaled(ParseFloat(parts[0]), parts[1])
  }

  /** A parsed number in the given unit, in seconds: "ms" divides by
      1000, any other unit keeps the number. */
  function Scaled(x: Try<real>, unit: string): (r: Try<Option<real>>)
    ensures x.Raised? ==> r == Raised(x.exception)
    ensures x.Ok? ==> r == Ok(Some(if unit == "ms" then x.value / 1000.0 else x.value))
  {
    if x.Raised? then Raised(x.exception)
    else if unit == "ms" then Ok(Some(x.value / 1000.0))
    else Ok(Some(x.value))
  }

  /** A number followed by a unit reads as that number, divided by 1000
      when the unit is "ms", and fails as float() does when it is not a
      number. */
  lemma ParseTimeTokens(n: string, unit: string)
    requires n != [] && NoSpace(n) && n[0] != '~' && unit != [] && NoSpace(unit)
    ensures ParseTime(n + " " + unit) == Scaled(ParseFloat(n), unit)
  {
    var v := n + " " + unit;
    assert v[0] == n[0];
    SplitTwoTokens(n, unit);
  }

  /** "<whole>.<frac> ms" reads as milliseconds; any other unit as seconds. */
  lemma ParseTimeDecimal(whole: string, frac: string, unit: string)
    requires whole != [] && AllDigits(whole) && AllDigits(frac)
    requires unit != [] && NoSpace(unit)
    ensures ParseTime(whole + "." + frac + " " + unit) == Scaled(Ok(DecimalValue(whole, frac)), unit)
  {
    DecimalToken(whole, frac);
    ParseTimeTokens(whole + "." + frac, unit);
  }

  /** A decimal literal is one word, does not start with '~', and reads
      as its value. */
  lemma DecimalToken(whole: string, frac: string)
    requires whole != [] && AllDigits(whole) && AllDigits(frac)
    ensures var n := whole + "." + frac; n != [] && NoSpace(n) && n[0] != '~'
    ensures ParseFloat(whole + "." + frac) == Ok(DecimalValue(whole, frac))
  {
    var n := whole + "." + frac;
    assert n[0] == whole[0];
    forall i | 0 <= i < |n|
      ensures !IsSpace(n[i])
    {
      if i < |whole| {
        assert n[i] == whole[i];
      } else if i > |whole| {
        assert n[i] == frac[i - |whole| - 1];
      }
    }
    FloatOfDecimal(whole, frac);
  }

  /** gw['loss'][:-2]: the text without its last two characters (" %"). */
  function DropLastTwo(s: string): (r: string)
    ensures |s| >= 2 ==> s == r + s[|s| - 2..]
    ensures |s| < 2 ==> r == ""
  {
    if |s| >= 2 then s[..|s| - 2] else ""
  }

  /** The loss: "~" is no value, otherwise the number before " %". */
  function ParseLoss(v: string): (r: Try<Option<real>>)
    ensures r == Ok(None) <==> v == "~"
    ensures r.Raised? ==> r.exception == ValueError
  {
    if v == "~" then Ok(None)
    else
      var x := ParseFloat(DropLastTwo(v));
      if x.Raised? then Raised(x.exception) else Ok(Some(x.value))
  }

  /** "<whole>.<frac> %" reads as the percentage whole.frac. */
  lemma ParseLossDecimal(whole: string, frac: string)
    requires whole != [] && AllDigits(whole) && AllDigits(frac)
    ensures ParseLoss(whole + "." + frac + " %") == Ok(Some(DecimalValue(whole, frac)))
  {
    var v := whole + "." + frac + " %";
    assert DropLastTwo(v) == whole + "." + frac;
    FloatOfDecimal(whole, frac);
  }

  /** The loop body of parse_opnsense_gateway: loss, delay and stddev are
      converted in that order, a "~" monitor becomes None, and every other
      field is left as it was. */
  function NormaliseGateway(raw: RawGateway): (r: Try<Gateway>)
    ensures r.Ok? ==> r.value.name == raw.name && r.value.status == raw.status
    ensures r.Ok? <==> ParseLoss(raw.loss).Ok? && ParseTime(raw.delay).Ok? && ParseTime(raw.stddev).Ok?
    ensures r.Ok? ==> && r.value.loss == ParseLoss(raw.loss).value
                      && r.value.delay == ParseTime(raw.delay).value
                      && r.value.stddev == ParseTime(raw.stddev).value
    ensures r.Ok? ==> (r.value.monitor.None? <==> raw.monitor == "~")
    ensures r.Ok? && raw.monitor != "~" ==> r.value.monitor == Some(raw.monitor)
  {
    var loss := ParseLoss(raw.loss);
    if loss.Raised? then Raised(loss.exception)
    else
      var delay := ParseTime(raw.delay);
      if delay.Raised? then Raised(delay.exception)
      else
        var stddev := ParseTime(raw.stddev);
        if stddev.Raised? then Raised(stddev.exception)
        else Ok(Gateway(raw.name, raw.status, loss.value, delay.value, stddev.value,
                        if raw.monitor == "~" then None else Some(raw.monitor)))
  }

  /** The gateways keyed by name. */
  function ByName(gws: seq<Gateway>): (d: Dict<string, Gateway>)
    ensures |d| <= |gws|
  {
    var pairs := seq(|gws|, i requires 0 <= i < |gws| => (gws[i].name, gws[i]));
    DictOfLength(pairs);
    DictOf(pairs)
  }

  lemma {:induction false} DictOfLength<K, V>(s: seq<(K, V)>)
    ensures |DictOf(s)| <= |s|
  {
    if s != [] {
      DictOfLength(s[..|s| - 1]);
      AssignLength(DictOf(s[..|s| - 1]), s[|s| - 1].0, s[|s| - 1].1);
    }
  }

  lemma AssignLength<K, V>(d: Dict<K, V>, k: K, v: V)
    ensures |Assign(d, k, v)| <= |d| + 1
  {
    assert |Keys(Assign(d, k, v))| <= |Keys(d)| + 1;
  }

  /** parse_opnsense_gateway as a function of the agent's lines. */
  function GatewaySection(raws: seq<RawGateway>): Try<Dict<string, Gateway>> {
    var gws := TryMap(raws, NormaliseGateway);
    if gws.Raised? then Raised(gws.exception) else Ok(ByName(gws.value))
  }

  /** parse_opnsense_gateway: normalise every gateway in a loop, then key
      the gateways by name. */
  method ParseGateways(raws: seq<RawGateway>) returns (r: Try<Dict<string, Gateway>>)
    ensures r == GatewaySection(raws)
  {
    var gws: seq<Gateway> := [];
    for i := 0 to |raws|
      invariant TryMap(raws[..i], NormaliseGateway) == Ok(gws)
    {
      assert raws[..i + 1][..i] == raws[..i];
      var g := NormaliseGateway(raws[i]);
      if g.Raised? {
        TryMapRaised(raws, NormaliseGateway, i + 1);
        return Raised(g.exception);
      }
      gws := gws + [g.value];
    }
    assert raws[..|raws|] == raws;
    r := Ok(ByName(gws));
  }

  /** The parse succeeds iff every gateway converts, and then keeps them
      in order, each converted on its own. */
  lemma ParseSucceeds(raws: seq<RawGateway>)
    ensures GatewaySection(raws).Ok? <==> forall i :: 0 <= i < |raws| ==> NormaliseGateway(raws[i]).Ok?
    ensures var gws := TryMap(raws, NormaliseGateway);
      gws.Ok? ==> |gws.value| == |raws| && forall i :: 0 <= i < |raws| ==> gws.value[i] == NormaliseGateway(raws[i]).value
  {
    TryMapSpec(raws, NormaliseGateway);
  }

  /** A name maps to the last gateway of that name. */
  lemma {:induction false} ByNameLookup(gws: seq<Gateway>, name: string)
    ensures var found := Lookup(ByName(gws), name);
      && (found.None? <==> forall i :: 0 <= i < |gws| ==> gws[i].name != name)
      && (forall i :: 0 <= i < |gws| && gws[i].name == name && (forall j :: i < j < |gws| ==> gws[j].name != name) ==>
            found == Some(gws[i]))
  {
    var pairs := seq(|gws|, i requires 0 <= i < |gws| => (gws[i].name, gws[i]));
    DictOfLookup(pairs, name);
    assert forall i :: 0 <= i < |gws| ==> (MatchKey(name)(pairs[i]) <==> gws[i].name == name);
    var last := LastWhere(pairs, MatchKey(name));
    if last.Some? {
      forall i | 0 <= i < |gws| && gws[i].name == name && (forall j :: i < j < |gws| ==> gws[j].name != name)
        ensures i == last.value
      {
      }
    }
  }

  // ---------------------------------------------------------------------
  // Discovery and check

  function HasDelay(item: (string, Gateway)): bool {
    item.1.delay.Some?
  }

  /** discovery_opnsense_gateway: one service per gateway with a delay,
      in section order. */
  function DiscoverGateways(section: Dict<string, Gateway>): (items: seq<string>)
    ensures |items| <= |section|
    ensures forall i :: 0 <= i < |items| ==> exists j :: 0 <= j < |section| && section[j].1.delay.Some? && items[i] == section[j].1.name
    ensures forall j :: 0 <= j < |section| && section[j].1.delay.Some? ==> section[j].1.name in items
  {
    var kept := Filter(section, HasDelay);
    FilterMembers(section, HasDelay);
    var names := Names(kept);
    forall i | 0 <= i < |names|
      ensures exists j :: 0 <= j < |section| && section[j].1.delay.Some? && names[i] == section[j].1.name
    {
      assert kept[i] in kept;
      assert kept[i] in section && HasDelay(kept[i]);
      var j :| 0 <= j < |section| && section[j] == kept[i];
      assert section[j].1.delay.Some? && names[i] == section[j].1.name;
    }
    forall j | 0 <= j < |section| && section[j].1.delay.Some?
      ensures section[j].1.name in names
    {
      assert section[j] in section;
      assert section[j] in kept;
      var k :| 0 <= k < |kept| && kept[k] == section[j];
      assert names[k] == section[j].1.name;
    }
    names
  }

  /** The gateway names of the items, in order. */
  function Names(items: Dict<string, Gateway>): (names: seq<string>)
    ensures |names| == |items|
    ensures forall i :: 0 <= i < |items| ==> names[i] == items[i].1.name
  {
    if items == [] then [] else [items[0].1.name] + Names(items[1..])
  }

  /** Names of a concatenation are the concatenated names. */
  lemma {:induction false} NamesAppend(a: Dict<string, Gateway>, b: Dict<string, Gateway>)
    ensures Names(a + b) == Names(a) + Names(b)
  {
  }

  /** Discovery keeps section order: the services of two parts of a
      section are those of the first part, then those of the second. */
  lemma DiscoverGatewaysAppend(a: Dict<string, Gateway>, b: Dict<string, Gateway>)
    ensures DiscoverGateways(a + b) == DiscoverGateways(a) + DiscoverGateways(b)
  {
    FilterAppend(a, b, HasDelay);
    NamesAppend(Filter(a, HasDelay), Filter(b, HasDelay));
  }

  /** When every gateway has a delay, discovery yields every gateway's
      name in section order. */
  lemma DiscoverGatewaysAllDelayed(section: Dict<string, Gateway>)
    requires forall i :: 0 <= i < |section| ==> section[i].1.delay.Some?
    ensures DiscoverGateways(section) == Names(section)
  {
    FilterAll(section, HasDelay);
  }

  /** The check parameters as a rule sets them; an absent key is None. */
  datatype GatewayParams = GatewayParams(status: Option<string>, delay: Option<Levels>, loss: Option<Levels>)

  function ExpectedGatewayStatus(params: GatewayParams): string {
    if params.status.Some? then params.status.value else "Online"
  }

  function DelayLevels(params: GatewayParams): Levels {
    if params.delay.Some? then params.delay.value else Fixed(0.1, 0.2)
  }

  function LossLevels(params: GatewayParams): Levels {
    if params.loss.Some? then params.loss.value else Fixed(10.0, 20.0)
  }

  /** The status result: OK when the gateway reports the expected status. */
  function StatusResult(gw: Gateway, params: GatewayParams): (r: CheckItem)
    ensures r.Result?
    ensures r.state == OK <==> gw.status == ExpectedGatewayStatus(params)
    ensures r.state != OK ==> r.state == WARN && r.summary == gw.status + " (expected: " + ExpectedGatewayStatus(params) + ")"
    ensures r.state == OK ==> r.summary == gw.status
  {
    var expected := ExpectedGatewayStatus(params);
    if gw.status == expected then Result(OK, gw.status) else Result(WARN, gw.status + " (expected: " + expected + ")")
  }

  /** A delay is truthy unless absent or zero. */
  predicate TruthyDelay(delay: Option<real>) {
    delay.Some? && delay.value != 0.0
  }

  /** check_opnsense_gateway. */
  function CheckGateway(item: string, params: GatewayParams, section: Dict<string, Gateway>): (r: Try<seq<CheckItem>>)
    ensures Lookup(section, item).None? ==> r == Ok([])
    ensures Lookup(section, item).Some? && !TruthyDelay(Lookup(section, item).value.delay) ==>
              r == Ok([StatusResult(Lookup(section, item).value, params)])
    ensures (Lookup(section, item).Some? && TruthyDelay(Lookup(section, item).value.delay) &&
             Lookup(section, item).value.loss.None?) ==> r == Raised(TypeError)
    ensures Lookup(section, item).Some? && r.Ok? ==> |r.value| >= 1 && r.value[0] == StatusResult(Lookup(section, item).value, params)
  {
    var found := Lookup(section, item);
    if found.None? then Ok([])
    else
      var gw := found.value;
      var status := StatusResult(gw, params);
      if !TruthyDelay(gw.delay) then Ok([status])
      else if gw.loss.None? then Raised(TypeError)
      else
        Ok([status, Result(OK, "Monitor " + StrOrNone(gw.monitor))]
           + CheckLevels(gw.delay.value, DelayLevels(params), NoLevels, Some("rta"), "rtt", None)
           + CheckLevels(gw.loss.value, LossLevels(params), NoLevels, Some("pl"), "loss", None))
  }

  /** A monitored gateway reports its status, its monitor, then the round
      trip time against the delay levels and the loss against the loss
      levels, each with its metric: CRIT from the crit level on, WARN from
      the warn level on, OK below. */
  lemma {:induction false} CheckMonitored(item: string, params: GatewayParams, section: Dict<string, Gateway>)
    requires Lookup(section, item).Some?
    requires var gw := Lookup(section, item).value; TruthyDelay(gw.delay) && gw.loss.Some?
    ensures var gw := Lookup(section, item).value;
      var r := CheckGateway(item, params, section);
      && r.Ok? && |r.value| == 6
      && r.value[0] == StatusResult(gw, params)
      && r.value[1] == Result(OK, "Monitor " + StrOrNone(gw.monitor))
      && r.value[2..4] == CheckLevels(gw.delay.value, DelayLevels(params), NoLevels, Some("rta"), "rtt", None)
      && r.value[4..] == CheckLevels(gw.loss.value, LossLevels(params), NoLevels, Some("pl"), "loss", None)
      && (DelayLevels(params).Fixed? ==>
            && (r.value[2].state == CRIT <==> gw.delay.value >= DelayLevels(params).crit)
            && (r.value[2].state == WARN <==> DelayLevels(params).warn <= gw.delay.value < DelayLevels(params).crit))
      && (LossLevels(params).Fixed? ==>
            && (r.value[4].state == CRIT <==> gw.loss.value >= LossLevels(params).crit)
            && (r.value[4].state == WARN <==> LossLevels(params).warn <= gw.loss.value < LossLevels(params).crit))
  {
    var gw := Lookup(section, item).value;
    var r := CheckGateway(item, params, section);
    var head := [StatusResult(gw, params), Result(OK, "Monitor " + StrOrNone(gw.monitor))];
    var rtt := CheckLevels(gw.delay.value, DelayLevels(params), NoLevels, Some("rta"), "rtt", None);
    var loss := CheckLevels(gw.loss.value, LossLevels(params), NoLevels, Some("pl"), "loss", None);
    assert r.value == head + rtt + loss;
    assert r.value[2..4] == rtt && r.value[4..] == loss;
    if DelayLevels(params).Fixed? {
      UpperLevelsSemantics(gw.delay.value, DelayLevels(params).warn, DelayLevels(params).crit, Some("rta"), "rtt", None);
    }
    if LossLevels(params).Fixed? {
      UpperLevelsSemantics(gw.loss.value, LossLevels(params).warn, LossLevels(params).crit, Some("pl"), "loss", None);
    }
  }

  /** With default levels a loss of 100 % is critical and a round trip of
      0.15 s warns. */
  lemma DefaultLevelsExample(gw: Gateway)
    requires gw.delay == Some(0.15) && gw.loss == Some(100.0)
    ensures var r := CheckGateway(gw.name, GatewayParams(None, None, None), [(gw.name, gw)]);
      r.Ok? && r.value[2].state == WARN && r.value[4].state == CRIT
  {
    assert Lookup([(gw.name, gw)], gw.name) == Some(gw);
  }

  /** Every discovered gateway is found by the check, has a delay, and
      reports at least its status. */
  lemma {:induction false} DiscoveredChecks(section: Dict<string, Gateway>, params: GatewayParams, i: nat)
    requires DistinctKeys(section) && forall j :: 0 <= j < |section| ==> section[j].0 == section[j].1.name
    requires i < |DiscoverGateways(section)|
    ensures Lookup(section, DiscoverGateways(section)[i]).Some?
    ensures Lookup(section, DiscoverGateways(section)[i]).value.delay.Some?
    ensures ReportsStatus(DiscoverGateways(section)[i], params, section)
  {
    var item := DiscoverGateways(section)[i];
    var j :| 0 <= j < |section| && section[j].1.delay.Some? && item == section[j].1.name;
    assert item in Keys(section);
    LookupDistinct(section, j);
  }

  /** The check of item crashes or starts with the status result. */
  predicate ReportsStatus(item: string, params: GatewayParams, section: Dict<string, Gateway>) {
    var r := CheckGateway(item, params, section);
    r.Raised? || (Lookup(section, item).Some? && |r.value| >= 1 && r.value[0] == StatusResult(Lookup(section, item).value, params))
  }
}
