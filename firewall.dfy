/** The firewall plug-in: the number of packet-filter states against the
    state limit and the number of alias table entries against the table
    size, from two JSON sections. */
module Firewall {
  import opened Common
  import opened Numbers

  /** The opnsense_pf_states section: current states and the limit, as the
      JSON values handed to int(). */
  datatype PfStates = PfStates(current: Json, limit: Json)

  /** The opnsense_alias_table section: used entries and the table size. */
  datatype AliasTable = AliasTable(used: Json, size: Json)

  /** The optional upper levels 'pf_states' and 'aliases'. */
  datatype FirewallParams = FirewallParams(pfStates: Levels, aliases: Levels)

  /** discovery_opnsense_firewall: one service when either section is
      present and non-empty (None stands for absent or empty). */
  function DiscoverFirewall(pf: Option<PfStates>, alias: Option<AliasTable>): (n: nat)
    ensures n <= 1
    ensures n == 1 <==> pf.Some? || alias.Some?
  {
    if pf.Some? || alias.Some? then 1 else 0
  }

  /** One check_levels call on int(value) with boundaries (0, int(bound)). */
  function Usage(value: Json, bound: Json, levels: Levels, metric: string, title: string): (r: Try<seq<CheckItem>>)
    ensures r.Ok? <==> IntOf(value).Ok? && IntOf(bound).Ok?
    ensures r.Raised? ==> r.exception == (if IntOf(value).Raised? then IntOf(value).exception else IntOf(bound).exception)
  {
    var v := IntOf(value);
    var b := IntOf(bound);
    if v.Raised? then Raised(v.exception)
    else if b.Raised? then Raised(b.exception)
    else Ok(CheckLevels(v.value as real, levels, NoLevels, Some(metric), title, Some(Bounds(0.0, Some(b.value as real)))))
  }

  /** check_opnsense_firewall: the states first, then the aliases. A
      missing section is not subscriptable; a value int() rejects aborts
      the check, discarding the states already yielded. */
  function CheckFirewall(params: FirewallParams, pf: Option<PfStates>, alias: Option<AliasTable>): (r: Try<seq<CheckItem>>)
    ensures pf.None? ==> r == Raised(TypeError)
  {
    if pf.None? then Raised(TypeError)
    else
      var states := Usage(pf.value.current, pf.value.limit, params.pfStates, "pf_states", "PF States");
      if states.Raised? then states
      else if alias.None? then Raised(TypeError)
      else
        var aliases := Usage(alias.value.used, alias.value.size, params.aliases, "aliases", "Aliases");
        if aliases.Raised? then aliases
        else Ok(states.value + aliases.value)
  }

  /** The check succeeds exactly when both sections are there and all four
      numbers convert; it then reports the states (result, metric with the
      limit as upper boundary) before the aliases (likewise with the size),
      each against its own upper levels: CRIT from the crit level on, WARN
      from the warn level on, OK below. */
  lemma CheckFirewallSpec(params: FirewallParams, pf: Option<PfStates>, alias: Option<AliasTable>)
    ensures var r := CheckFirewall(params, pf, alias);
            r.Ok? <==> pf.Some? && alias.Some? &&
                       IntOf(pf.value.current).Ok? && IntOf(pf.value.limit).Ok? &&
                       IntOf(alias.value.used).Ok? && IntOf(alias.value.size).Ok?
    ensures var r := CheckFirewall(params, pf, alias);
            r.Ok? ==>
              var current, limit := IntOf(pf.value.current).value as real, IntOf(pf.value.limit).value as real;
              var used, size := IntOf(alias.value.used).value as real, IntOf(alias.value.size).value as real;
              && |r.value| == 4
              && r.value[..2] == CheckLevels(current, params.pfStates, NoLevels, Some("pf_states"), "PF States",
                                             Some(Bounds(0.0, Some(limit))))
              && r.value[2..] == CheckLevels(used, params.aliases, NoLevels, Some("aliases"), "Aliases",
                                             Some(Bounds(0.0, Some(size))))
              && (params.pfStates.Fixed? ==>
                    && (r.value[0].state == CRIT <==> current >= params.pfStates.crit)
                    && (r.value[0].state == WARN <==> params.pfStates.warn <= current < params.pfStates.crit))
              && (params.aliases.Fixed? ==>
                    && (r.value[2].state == CRIT <==> used >= params.aliases.crit)
                    && (r.value[2].state == WARN <==> params.aliases.warn <= used < params.aliases.crit))
  {
    var r := CheckFirewall(params, pf, alias);
    if r.Ok? {
      var current := IntOf(pf.value.current).value as real;
      var used := IntOf(alias.value.used).value as real;
      var states := Usage(pf.value.current, pf.value.limit, params.pfStates, "pf_states", "PF States");
      var aliases := Usage(alias.value.used, alias.value.size, params.aliases, "aliases", "Aliases");
      assert r.value == states.value + aliases.value;
      if params.pfStates.Fixed? {
        UpperLevelsSemantics(current, params.pfStates.warn, params.pfStates.crit, Some("pf_states"), "PF States",
                             Some(Bounds(0.0, Some(IntOf(pf.value.limit).value as real))));
      }
      if params.aliases.Fixed? {
        UpperLevelsSemantics(used, params.aliases.warn, params.aliases.crit, Some("aliases"), "Aliases",
                             Some(Bounds(0.0, Some(IntOf(alias.value.size).value as real))));
      }
    }
  }

  /** The agent writes the counts as decimal strings: str(n) reads back as
      n, so the metrics carry the agent's numbers. */
  lemma CheckFirewallStrings(params: FirewallParams, current: int, limit: int, used: int, size: int)
    ensures var r := CheckFirewall(params, Some(PfStates(JStr(IntToString(current)), JStr(IntToString(limit)))),
                                   Some(AliasTable(JStr(IntToString(used)), JStr(IntToString(size)))));
            && r.Ok? && |r.value| == 4
            && r.value[1] == Metric("pf_states", current as real, MetricLevels(params.pfStates), Some(Bounds(0.0, Some(limit as real))))
            && r.value[3] == Metric("aliases", used as real, MetricLevels(params.aliases), Some(Bounds(0.0, Some(size as real))))
  {
    CounterString(current);
    CounterString(limit);
    CounterString(used);
    CounterString(size);
    CheckFirewallSpec(params, Some(PfStates(JStr(IntToString(current)), JStr(IntToString(limit)))),
                      Some(AliasTable(JStr(IntToString(used)), JStr(IntToString(size)))));
  }
}
