/** The migrations of the special agent's rule: the old boolean
    certificate option becomes a choice, and rules written before the
    feature switches existed get the five original features switched on. */
module Datasource {
  import opened Common

  /** migrate_bool_to_choice: a boolean becomes the matching choice, any
      other value is already a choice and is kept. */
  function MigrateBoolToChoice(model: Json): (r: Json)
    ensures model.JBool? ==> r.JStr? && (r.s == "ignore_cert" <==> model.b) && (r.s == "check_cert" <==> !model.b)
    ensures !model.JBool? ==> r == model
  {
    if model.JBool? then JStr(if model.b then "ignore_cert" else "check_cert") else model
  }

  /** A migrated value is never a boolean, and migrating twice is
      migrating once. */
  lemma MigrateBoolToChoiceIdempotent(model: Json)
    ensures !MigrateBoolToChoice(model).JBool?
    ensures MigrateBoolToChoice(MigrateBoolToChoice(model)) == MigrateBoolToChoice(model)
  {
  }

  /** The features whose switch defaults to on for an old rule. */
  const Features: seq<string> := ["firewall", "firmware", "vip", "gateway", "ipsec"]

  /** One step of the migration: a key already present is left alone, a
      missing one is added, switched on. */
  function SetDefault(d: Dict<string, Json>, k: string): (r: Dict<string, Json>)
    ensures k in Keys(r)
    ensures k in Keys(d) ==> r == d
    ensures k !in Keys(d) ==> Lookup(r, k) == Some(JBool(true)) && Keys(r) == Keys(d) + [k]
  {
    if k in Keys(d) then d
    else Assign(d, k, JBool(true))
  }

  /** SetDefault leaves the value of every key that was there. */
  lemma SetDefaultKeeps(d: Dict<string, Json>, k: string, k': string)
    requires k' in Keys(d)
    ensures Lookup(SetDefault(d, k), k') == Lookup(d, k')
  {
    if k !in Keys(d) {
      var i :| 0 <= i < |d| && Keys(d)[i] == k';
      assert d[i].0 == k';
    }
  }

  /** The migration applied to the keys ks in order. */
  function AddDefaults(d: Dict<string, Json>, ks: seq<string>): Dict<string, Json> {
    if ks == [] then d else SetDefault(AddDefaults(d, ks[..|ks| - 1]), ks[|ks| - 1])
  }

  /** The rule under migration: its items, changed in place. */
  class RuleModel {
    var items: Dict<string, Json>

    /** A Python dict holds each key once. */
    predicate Valid()
      reads this
    {
      DistinctKeys(items)
    }

    constructor(items: Dict<string, Json>)
      requires DistinctKeys(items)
      ensures Valid() && this.items == items
    {
      this.items := items;
    }

    /** migrate_special_agents_opnsense: adds each missing feature switch,
        switched on, and returns the same model. */
    method MigrateSpecialAgent() returns (r: RuleModel)
      requires Valid()
      modifies this
      ensures Valid() && r == this
      ensures items == AddDefaults(old(items), Features)
    {
      for i := 0 to |Features|
        invariant Valid()
        invariant items == AddDefaults(old(items), Features[..i])
      {
        assert Features[..i + 1][..i] == Features[..i];
        var key := Features[i];
        if key in Keys(items) {
          continue;
        }
        items := Assign(items, key, JBool(true));
      }
      assert Features[..|Features|] == Features;
      return this;
    }
  }

  /** After the migration every key of ks is present, and no other key
      is added. */
  lemma {:induction false} AddDefaultsKeys(d: Dict<string, Json>, ks: seq<string>)
    ensures forall k :: k in Keys(AddDefaults(d, ks)) <==> k in Keys(d) || k in ks
  {
    if ks != [] {
      AddDefaultsKeys(d, ks[..|ks| - 1]);
      assert ks == ks[..|ks| - 1] + [ks[|ks| - 1]];
    }
  }

  /** A key that was present keeps its value. */
  lemma {:induction false} AddDefaultsKeeps(d: Dict<string, Json>, ks: seq<string>, k: string)
    requires k in Keys(d)
    ensures Lookup(AddDefaults(d, ks), k) == Lookup(d, k)
  {
    if ks != [] {
      AddDefaultsKeeps(d, ks[..|ks| - 1], k);
      AddDefaultsKeys(d, ks[..|ks| - 1]);
      SetDefaultKeeps(AddDefaults(d, ks[..|ks| - 1]), ks[|ks| - 1], k);
    }
  }

  /** A key of ks that was missing is switched on. */
  lemma {:induction false} AddDefaultsMissing(d: Dict<string, Json>, ks: seq<string>, k: string)
    requires k in ks && k !in Keys(d)
    ensures Lookup(AddDefaults(d, ks), k) == Some(JBool(true))
  {
    var init, last := ks[..|ks| - 1], ks[|ks| - 1];
    assert ks == init + [last];
    var before := AddDefaults(d, init);
    AddDefaultsKeys(d, init);
    if k in init {
      AddDefaultsMissing(d, init, k);
      SetDefaultKeeps(before, last, k);
    }
  }

  /** Keys already there stay where they were; the added ones follow. */
  lemma {:induction false} AddDefaultsPrefix(d: Dict<string, Json>, ks: seq<string>)
    ensures |Keys(AddDefaults(d, ks))| >= |Keys(d)| && Keys(AddDefaults(d, ks))[..|Keys(d)|] == Keys(d)
  {
    if ks != [] {
      AddDefaultsPrefix(d, ks[..|ks| - 1]);
      var before := AddDefaults(d, ks[..|ks| - 1]);
      if ks[|ks| - 1] !in Keys(before) {
        assert Keys(AddDefaults(d, ks)) == Keys(before) + [ks[|ks| - 1]];
        assert (Keys(before) + [ks[|ks| - 1]])[..|Keys(d)|] == Keys(before)[..|Keys(d)|];
      }
    }
  }

  /** A model that has every key of ks is not changed. */
  lemma {:induction false} AddDefaultsPresent(d: Dict<string, Json>, ks: seq<string>)
    requires forall k :: k in ks ==> k in Keys(d)
    ensures AddDefaults(d, ks) == d
  {
    if ks != [] {
      AddDefaultsPresent(d, ks[..|ks| - 1]);
      assert ks[|ks| - 1] in ks;
    }
  }

  /** Migrating a migrated model changes nothing. */
  lemma AddDefaultsIdempotent(d: Dict<string, Json>, ks: seq<string>)
    ensures AddDefaults(AddDefaults(d, ks), ks) == AddDefaults(d, ks)
  {
    AddDefaultsKeys(d, ks);
    AddDefaultsPresent(AddDefaults(d, ks), ks);
  }

  /** The rule migration: the five feature switches are present; a
      switch the rule had keeps its value, a missing one is on; every
      other key keeps its value and no other key appears. */
  lemma MigrationSpec(d: Dict<string, Json>)
    ensures var m := AddDefaults(d, Features);
            && (forall k :: k in Features ==> k in Keys(m))
            && (forall k :: k in Keys(m) <==> k in Keys(d) || k in Features)
            && (forall k :: k in Keys(d) ==> Lookup(m, k) == Lookup(d, k))
            && (forall k :: k in Features && k !in Keys(d) ==> Lookup(m, k) == Some(JBool(true)))
            && (forall k :: k !in Features ==> Lookup(m, k) == Lookup(d, k))
  {
    var m := AddDefaults(d, Features);
    AddDefaultsKeys(d, Features);
    forall k | k in Keys(d) {
      AddDefaultsKeeps(d, Features, k);
    }
    forall k | k in Features && k !in Keys(d) {
      AddDefaultsMissing(d, Features, k);
    }
  }

  /** Distinct keys that are all missing are appended in their order. */
  lemma {:induction false} AddDefaultsFresh(d: Dict<string, Json>, ks: seq<string>)
    requires forall i, j :: 0 <= i < j < |ks| ==> ks[i] != ks[j]
    requires forall k :: k in ks ==> k !in Keys(d)
    ensures Keys(AddDefaults(d, ks)) == Keys(d) + ks
  {
    if ks != [] {
      var init, last := ks[..|ks| - 1], ks[|ks| - 1];
      assert ks == init + [last];
      assert last in ks && last !in init;
      AddDefaultsFresh(d, init);
      var before := AddDefaults(d, init);
      assert last !in Keys(before);
    }
  }

  /** A rule without any feature switch gets all five, switched on, after
      its own keys and in the order firewall, firmware, vip, gateway,
      ipsec. */
  lemma MigrateRuleWithoutSwitches(d: Dict<string, Json>)
    requires forall k :: k in Features ==> k !in Keys(d)
    ensures Keys(AddDefaults(d, Features)) == Keys(d) + Features
    ensures forall k :: k in Features ==> Lookup(AddDefaults(d, Features), k) == Some(JBool(true))
  {
    AddDefaultsFresh(d, Features);
    MigrationSpec(d);
  }
}
