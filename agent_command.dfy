/** The special agent call: the rule's parameters with their defaults, and
    the command line built from them. The macro replacement of the host's
    configuration is a parameter. */
module AgentCommand {
  import opened Common

  /** The rule's values as handed to the parameter parser: None for an
      optional field the rule leaves out. */
  datatype RuleValues = RuleValues(url: string, key: string, secret: Option<string>, ignoreCert: Option<string>,
                                   firewall: bool, firmware: bool, vip: bool, gateway: bool, ipsec: bool,
                                   unbound: Option<bool>, snapshot: Option<bool>, ssl: Option<bool>)

  /** Params after validation; a secret of None is the secret field's
      default. */
  datatype Params = Params(url: string, key: string, secret: Option<string>, ignoreCert: string,
                           firewall: bool, firmware: bool, vip: bool, gateway: bool, ipsec: bool,
                           unbound: bool, snapshot: bool, ssl: bool)

  /** Params.model_validate: the defaults are no secret, 'check_cert', and
      unbound, snapshot and ssl off. */
  function ParamsOf(v: RuleValues): Params {
    Params(v.url, v.key, v.secret, if v.ignoreCert.Some? then v.ignoreCert.value else "check_cert",
           v.firewall, v.firmware, v.vip, v.gateway, v.ipsec,
           v.unbound == Some(true), v.snapshot == Some(true), v.ssl == Some(true))
  }

  /** The feature switches, in the order the command line lists them. */
  const Parts: seq<string> := ["firewall", "firmware", "vip", "gateway", "ipsec", "unbound", "snapshot", "ssl"]

  /** getattr(params, part, False) */
  function Enabled(p: Params, part: string): bool {
    match part
    case "firewall" => p.firewall
    case "firmware" => p.firmware
    case "vip" => p.vip
    case "gateway" => p.gateway
    case "ipsec" => p.ipsec
    case "unbound" => p.unbound
    case "snapshot" => p.snapshot
    case "ssl" => p.ssl
    case _ => false
  }

  function EnabledIn(p: Params): string -> bool {
    part => Enabled(p, part)
  }

  /** '--ignore-cert' unless the certificate is checked. */
  function IgnoreCertOption(p: Params): seq<string> {
    if p.ignoreCert != "check_cert" then ["--ignore-cert"] else []
  }

  /** The option of each enabled part of parts, part by part. */
  function Flags(p: Params, parts: seq<string>): seq<string> {
    if parts == [] then []
    else Flags(p, parts[..|parts| - 1]) + (if Enabled(p, parts[|parts| - 1]) then ["--" + parts[|parts| - 1]] else [])
  }

  /** f"--{part}" for each part. */
  function Dashed(parts: seq<string>): (r: seq<string>)
    ensures |r| == |parts|
    ensures forall i :: 0 <= i < |parts| ==> r[i] == "--" + parts[i]
  {
    if parts == [] then [] else ["--" + parts[0]] + Dashed(parts[1..])
  }

  datatype SpecialAgentCommand = SpecialAgentCommand(arguments: seq<string>)

  /** commands_function: one command, or the AttributeError of calling
      unsafe() on a missing secret. */
  function Commands(p: Params, replaceMacros: string -> string): (r: Try<seq<SpecialAgentCommand>>)
    ensures r.Raised? <==> p.secret.None?
    ensures r.Raised? ==> r.exception == AttributeError
    ensures r.Ok? ==> |r.value| == 1
  {
    if p.secret.None? then Raised(AttributeError)
    else
      Ok([SpecialAgentCommand(CommandLine(p, replaceMacros(p.url), Parts))])
  }

  /** The argument list for the URL after macro replacement and the
      feature switches parts. */
  function CommandLine(p: Params, url: string, parts: seq<string>): seq<string>
    requires p.secret.Some?
  {
    ["-U", url, "-k", p.key, "-s", p.secret.value] + IgnoreCertOption(p) + Flags(p, parts)
  }

  /** commands_function, growing the argument list as the source does. */
  method CommandsFunction(p: Params, replaceMacros: string -> string) returns (r: Try<seq<SpecialAgentCommand>>)
    ensures r == Commands(p, replaceMacros)
  {
    if p.secret.None? {
      return Raised(AttributeError);
    }
    var arguments := ["-U", replaceMacros(p.url), "-k", p.key, "-s", p.secret.value];
    if p.ignoreCert != "check_cert" {
      arguments := arguments + ["--ignore-cert"];
    }
    ghost var head := arguments;
    for i := 0 to |Parts|
      invariant arguments == head + Flags(p, Parts[..i])
    {
      assert Parts[..i + 1][..i] == Parts[..i];
      if Enabled(p, Parts[i]) {
        arguments := arguments + ["--" + Parts[i]];
      }
    }
    assert Parts[..|Parts|] == Parts;
    return Ok([SpecialAgentCommand(arguments)]);
  }

  /** The options are those of the enabled parts, in the order of parts. */
  lemma {:induction false} FlagsFilter(p: Params, parts: seq<string>)
    ensures Flags(p, parts) == Dashed(Filter(parts, EnabledIn(p)))
  {
    if parts != [] {
      var init, last := parts[..|parts| - 1], parts[|parts| - 1];
      assert parts == init + [last];
      FlagsFilter(p, init);
      FilterAppend(init, [last], EnabledIn(p));
      assert Filter([last], EnabledIn(p)) == if Enabled(p, last) then [last] else [];
      DashedAppend(Filter(init, EnabledIn(p)), Filter([last], EnabledIn(p)));
    }
  }

  lemma DashedAppend(a: seq<string>, b: seq<string>)
    ensures Dashed(a + b) == Dashed(a) + Dashed(b)
  {
  }

  /** Filtering keeps every occurrence that passes and none that fails. */
  lemma {:induction false} FilterCount<T>(s: seq<T>, p: T -> bool, x: T)
    ensures multiset(Filter(s, p))[x] == if p(x) then multiset(s)[x] else 0
  {
    if s != [] {
      FilterCount(s[1..], p, x);
      assert s == [s[0]] + s[1..];
    }
  }

  /** "--" + x occurs in the options as often as x in the parts. */
  lemma {:induction false} DashedCount(parts: seq<string>, x: string)
    ensures multiset(Dashed(parts))["--" + x] == multiset(parts)[x]
  {
    if parts != [] {
      DashedCount(parts[1..], x);
      assert parts == [parts[0]] + parts[1..];
      if "--" + parts[0] == "--" + x {
        assert ("--" + parts[0])[2..] == parts[0] && ("--" + x)[2..] == x;
      }
    }
  }

  lemma PartsDistinct()
    ensures forall i, j :: 0 <= i < j < |Parts| ==> Parts[i] != Parts[j]
  {
  }

  /** Each part is listed once. */
  lemma PartsOnce(part: string)
    ensures multiset(Parts)[part] == if part in Parts then 1 else 0
  {
    PartsDistinct();
    DistinctOnce(Parts, part);
  }

  /** The command line: the URL after macro replacement, the key and the
      secret first; then '--ignore-cert' when the certificate is not
      checked; then the enabled parts in their fixed order. */
  lemma CommandLineSpec(p: Params, url: string, parts: seq<string>)
    requires p.secret.Some?
    ensures |CommandLine(p, url, parts)| == 6 + |IgnoreCertOption(p)| + |Filter(parts, EnabledIn(p))|
    ensures CommandLine(p, url, parts)[..6] == ["-U", url, "-k", p.key, "-s", p.secret.value]
    ensures CommandLine(p, url, parts)[6..] == IgnoreCertOption(p) + Dashed(Filter(parts, EnabledIn(p)))
  {
    var head := ["-U", url, "-k", p.key, "-s", p.secret.value];
    var tail := IgnoreCertOption(p) + Dashed(Filter(parts, EnabledIn(p)));
    CommandLineParts(p, url, parts);
    SplitAt(head, tail);
  }

  /** The command line is the fixed head and the options. */
  lemma CommandLineParts(p: Params, url: string, parts: seq<string>)
    requires p.secret.Some?
    ensures CommandLine(p, url, parts)
         == ["-U", url, "-k", p.key, "-s", p.secret.value] + (IgnoreCertOption(p) + Dashed(Filter(parts, EnabledIn(p))))
  {
    FlagsFilter(p, parts);
  }

  lemma SplitAt<T>(a: seq<T>, b: seq<T>)
    ensures |a + b| == |a| + |b| && (a + b)[..|a|] == a && (a + b)[|a|..] == b
  {
  }

  lemma CommandsSpec(p: Params, replaceMacros: string -> string)
    requires p.secret.Some?
    ensures var r := Commands(p, replaceMacros);
            && r.Ok? && |r.value| == 1
            && |r.value[0].arguments| == 6 + |IgnoreCertOption(p)| + |Filter(Parts, EnabledIn(p))|
            && r.value[0].arguments[..6] == ["-U", replaceMacros(p.url), "-k", p.key, "-s", p.secret.value]
            && r.value[0].arguments[6..] == IgnoreCertOption(p) + Dashed(Filter(Parts, EnabledIn(p)))
  {
    CommandLineSpec(p, replaceMacros(p.url), Parts);
  }

  /** A part listed once occurs once. */
  lemma {:induction false} DistinctOnce(parts: seq<string>, x: string)
    requires forall i, j :: 0 <= i < j < |parts| ==> parts[i] != parts[j]
    ensures multiset(parts)[x] == if x in parts then 1 else 0
  {
    if parts != [] {
      DistinctOnce(parts[1..], x);
      assert parts == [parts[0]] + parts[1..];
      if x == parts[0] {
        assert x !in parts[1..];
      }
    }
  }

  /** The options are the certificate option and the enabled switches. */
  lemma OptionsCount(p: Params, url: string, parts: seq<string>, x: string)
    requires p.secret.Some?
    ensures multiset(CommandLine(p, url, parts)[6..])["--" + x]
         == multiset(IgnoreCertOption(p))["--" + x] + (if Enabled(p, x) then multiset(parts)[x] else 0)
  {
    CommandLineSpec(p, url, parts);
    var enabled := Filter(parts, EnabledIn(p));
    assert multiset(IgnoreCertOption(p) + Dashed(enabled)) == multiset(IgnoreCertOption(p)) + multiset(Dashed(enabled));
    DashedCount(enabled, x);
    FilterCount(parts, EnabledIn(p), x);
  }

  /** For switches none of which is named 'ignore-cert', the certificate
      option occurs once iff the certificate is not checked. */
  lemma CommandLineIgnoreCert(p: Params, url: string, parts: seq<string>)
    requires p.secret.Some? && "ignore-cert" !in parts
    ensures multiset(CommandLine(p, url, parts)[6..])["--ignore-cert"] == (if p.ignoreCert != "check_cert" then 1 else 0)
  {
    OptionsCount(p, url, parts, "ignore-cert");
    assert "--" + "ignore-cert" == "--ignore-cert";
  }

  /** For distinct switches none of which is named 'ignore-cert', each
      switch's option occurs once iff it is enabled. */
  lemma CommandLineSwitch(p: Params, url: string, parts: seq<string>, part: string)
    requires p.secret.Some?
    requires forall i, j :: 0 <= i < j < |parts| ==> parts[i] != parts[j]
    requires "ignore-cert" !in parts && part in parts
    ensures multiset(CommandLine(p, url, parts)[6..])["--" + part] == (if Enabled(p, part) then 1 else 0)
  {
    OptionsCount(p, url, parts, part);
    DistinctOnce(parts, part);
    assert ("--" + part)[2..] == part && "--ignore-cert"[2..] == "ignore-cert";
    assert "--" + part != "--ignore-cert";
  }

  /** '--ignore-cert' is an option exactly when ignore_cert is not
      'check_cert', and "--<part>" exactly once when the part is enabled
      and never otherwise. */
  lemma CommandOptions(p: Params, replaceMacros: string -> string, part: string)
    requires p.secret.Some? && part in Parts
    ensures var options := Commands(p, replaceMacros).value[0].arguments[6..];
            && multiset(options)["--ignore-cert"] == (if p.ignoreCert != "check_cert" then 1 else 0)
            && multiset(options)["--" + part] == (if Enabled(p, part) then 1 else 0)
  {
    PartsDistinct();
    assert "ignore-cert" !in Parts;
    CommandLineIgnoreCert(p, replaceMacros(p.url), Parts);
    CommandLineSwitch(p, replaceMacros(p.url), Parts, part);
  }

  /** Filtering past a tail that all fails filters the head alone. */
  lemma FilterHead<T>(a: seq<T>, b: seq<T>, p: T -> bool)
    requires forall i :: 0 <= i < |b| ==> !p(b[i])
    ensures Filter(a + b, p) == Filter(a, p)
  {
    FilterAppend(a, b, p);
    FilterNone(b, p);
  }

  /** With the defaults, the certificate is checked and unbound, snapshot
      and ssl are off: the options are those of the five original
      features alone, so the command has at most eleven arguments. */
  lemma DefaultCommand(v: RuleValues, replaceMacros: string -> string)
    requires v.secret.Some? && v.ignoreCert.None? && v.unbound.None? && v.snapshot.None? && v.ssl.None?
    ensures var args := Commands(ParamsOf(v), replaceMacros).value[0].arguments;
            && args[6..] == Dashed(Filter(["firewall", "firmware", "vip", "gateway", "ipsec"], EnabledIn(ParamsOf(v))))
            && |args| <= 11
  {
    var p := ParamsOf(v);
    var first, late := ["firewall", "firmware", "vip", "gateway", "ipsec"], ["unbound", "snapshot", "ssl"];
    assert Parts == first + late;
    assert forall i :: 0 <= i < |late| ==> !EnabledIn(p)(late[i]);
    FilterHead(first, late, EnabledIn(p));
    CommandsSpec(p, replaceMacros);
  }
}
