/** What an upgrade by `ApplyDefaults` of internal/environment/defaults.go does to components and namespaces, in terms of
    the document alone, and what it leaves as it is. */
module DefaultsExact {
  import opened Options
  import opened Documents
  import opened MergeMissing
  import opened Defaults
  import opened DefaultsUpgrade

  // ---------------------------------------------------------------- what is read

  lemma OnMeans(catalog: Fields, key: string)
    ensures IsOn(catalog, key) <==> Find(Object(catalog), [key, "enabled"]) == Some(Bool(true))
  {
    var path := [key, "enabled"];
    assert path[1..] == ["enabled"] && ["enabled"][1..] == [];
    if key in catalog {
      FindLast(catalog[key], "enabled");
    }
  }

  lemma FindLast(value: Value, key: string)
    ensures Find(value, [key]) == if value.Object? && key in value.fields then Some(value.fields[key]) else None
  {
    assert [key][1..] == [];
  }

  lemma NamespaceMeans(catalog: Fields, key: string, name: string)
    ensures NamespaceOf(catalog, key) == name != "" ==>
      key in catalog && catalog[key].Object? && "namespace" in catalog[key].fields
        && catalog[key].fields["namespace"].Text? && Trim(catalog[key].fields["namespace"].s) == name
    ensures key in catalog && catalog[key].Object? && Get(catalog[key].fields, "namespace") == Text(name) ==>
      NamespaceOf(catalog, key) == Trim(name)
  {
  }

  lemma TempoMeans(collector: Fields)
    ensures SendsToTempo(collector) <==> Find(Object(collector), ["values", "destinations", "tempo", "enabled"]) == Some(Bool(true))
  {
    var path := ["values", "destinations", "tempo", "enabled"];
    assert path[1..] == ["destinations", "tempo", "enabled"] && path[1..][1..] == ["tempo", "enabled"];
    var destinations := Section(Section(collector, "values"), "destinations");
    OnMeans(destinations, "tempo");
  }

  /** What an upgrade switches on. */
  lemma PulledMeans(catalog: Fields, defaults: Fields, key: string)
    ensures Pulled(catalog, defaults, key) <==>
      && key in catalog && catalog[key].Object?
      && ((IsOn(catalog, "opentelemetry_collector")
            && (key in {"prometheus", "loki", "jaeger"} || (key == "tempo" && TempoIsWanted(catalog, defaults))))
          || (IsOn(catalog, "loki") && key == "prometheus"))
    ensures HasSection(catalog, "opentelemetry_collector") ==>
      (TempoIsWanted(catalog, defaults) <==>
        var values := Get(Section(catalog, "opentelemetry_collector"), "values");
        Find(if values.Object? then Completed(values, Object(defaults)) else Object(defaults), ["destinations", "tempo", "enabled"])
          == Some(Bool(true)))
  {
    if HasSection(catalog, "opentelemetry_collector") {
      var completed := WithValues(Section(catalog, "opentelemetry_collector"), defaults);
      TempoMeans(completed);
      var path := ["values", "destinations", "tempo", "enabled"];
      assert path[1..] == ["destinations", "tempo", "enabled"];
    }
  }

  // ---------------------------------------------------------------- namespaces

  /** The namespace of one of these components, if it has one. */
  ghost predicate NamespaceAmong(catalog: Fields, keys: seq<string>, name: string) {
    name != "" && exists key :: key in keys && HasSection(catalog, key) && NamespaceOf(catalog, key) == name
  }

  lemma {:induction false} NamesOfKeys(namespaces: Fields, catalog: Fields, keys: seq<string>, name: string)
    ensures WithNamespacesOf(Some(namespaces), catalog, keys).Some?
    ensures name in WithNamespacesOf(Some(namespaces), catalog, keys).value <==> name in namespaces || NamespaceAmong(catalog, keys, name)
  {
    if keys != [] {
      var before, last := keys[..|keys| - 1], keys[|keys| - 1];
      NamesOfKeys(namespaces, catalog, before, name);
      assert keys == before + [last];
    }
  }

  /** The catalog has the same components in the same namespaces. */
  lemma LoggingKeepsNames(s: Setup, defaults: Fields)
    ensures var after := AfterLogging(s, defaults).catalog;
      forall key :: HasSection(after, key) == HasSection(s.catalog, key) && NamespaceOf(after, key) == NamespaceOf(s.catalog, key)
  {
    CollectorSwitches(s.catalog, defaults);
    EnabledSwitchesOne(AfterCollector(s.catalog, defaults), PROMETHEUS);
  }

  lemma StackNames(s: Setup, key: string, name: string)
    requires s.namespaces.Some?
    ensures var after := AfterOneStack(s, key);
      && after.namespaces.Some?
      && (name in after.namespaces.value ==> name in s.namespaces.value || (NeedsNamespace(after.catalog, key) && NamespaceOf(after.catalog, key) == name))
      && (name in s.namespaces.value ==> name in after.namespaces.value)
      && (forall other | other != key :: Get(after.catalog, other) == Get(s.catalog, other))
      && (forall k :: IsOn(after.catalog, k) == IsOn(s.catalog, k))
  {
    if MovesStack(s.catalog, s.namespaces, key) {
      var chosen := StackNamespace(Section(s.catalog, key));
      assert Trimmed(chosen);
    }
  }

  lemma RegisteredNames(namespaces: Fields, catalog: Fields, name: string)
    ensures name in Registered(namespaces, catalog) <==>
      name in namespaces || exists key :: IsOn(catalog, key) && name != "" && NamespaceOf(catalog, key) == name
  {
    if key :| IsOn(catalog, key) && name != "" && NamespaceOf(catalog, key) == name {
      assert key in catalog && NeedsNamespace(catalog, key);
    }
  }

  lemma LoggingNames(s: Setup, defaults: Fields, name: string)
    requires s.namespaces.Some?
    ensures var logged := AfterLogging(s, defaults);
      && logged.namespaces.Some?
      && (name in logged.namespaces.value <==>
            || name in s.namespaces.value
            || (IsOn(logged.catalog, LOKI) && NamespaceAmong(s.catalog, LOGGING, name)))
  {
    var logged := AfterLogging(s, defaults);
    LoggingKeepsNames(s, defaults);
    NamesOfKeys(s.namespaces.value, logged.catalog, LOGGING, name);
    EnabledSwitchesOne(AfterCollector(s.catalog, defaults), PROMETHEUS);
    assert PROMETHEUS != LOKI;
  }

  /** The namespaces after an upgrade are exactly those there were, those of the components that are on, and, if Loki is
      on, those of the whole logging set. */
  lemma NamespacesExactly(s: Setup, defaults: Fields, name: string)
    requires s.namespaces.Some?
    ensures var after := AfterComponents(s, defaults);
      && after.namespaces.Some?
      && (name in after.namespaces.value <==>
            || name in s.namespaces.value
            || (exists key :: IsOn(after.catalog, key) && name != "" && NamespaceOf(after.catalog, key) == name)
            || (IsOn(after.catalog, "loki")
                && NamespaceAmong(s.catalog, ["loki", "prometheus", "jaeger", "tempo", "opentelemetry_collector"], name)))
  {
    var logged := AfterLogging(s, defaults);
    LoggingNames(s, defaults, name);
    var first := AfterOneStack(logged, CLICKVISUAL);
    StackNames(logged, CLICKVISUAL, name);
    var second := AfterOneStack(first, EFK);
    StackNames(first, EFK, name);
    RegisteredNames(second.namespaces.value, second.catalog, name);
    StacksDiffer();
    if NeedsNamespace(first.catalog, CLICKVISUAL) {
      assert Get(second.catalog, CLICKVISUAL) == Get(first.catalog, CLICKVISUAL);
      assert NamespaceOf(second.catalog, CLICKVISUAL) == NamespaceOf(first.catalog, CLICKVISUAL);
    }
  }

  lemma StacksDiffer()
    ensures CLICKVISUAL != EFK
  {
    assert CLICKVISUAL[0] == 'c' && EFK[0] == 'e';
  }

  lemma OwnNamesExactly(namespaces: Fields, components: Fields, name: string)
    ensures WithOwn(Some(namespaces), components, OWN).Some?
    ensures name in WithOwn(Some(namespaces), components, OWN).value <==>
      || name in namespaces
      || (name != "" && exists key :: key in {"consul", "etcd"} && IsOn(components, key) && NamespaceOf(components, key) == name)
  {
    assert OWN[..1] == ["consul"] && OWN == ["consul"] + ["etcd"] && ["consul"][..0] == [];
    var first := WithOwn(Some(namespaces), components, ["consul"]);
    assert WithOwn(Some(namespaces), components, []) == Some(namespaces);
    assert first == WithNamespace(Some(namespaces), if IsOn(components, "consul") then NamespaceOf(components, "consul") else "");
  }

  // ---------------------------------------------------------------- stacks

  /** An enabled stack ends up in one namespace: the one of its values, or else its own. Otherwise it stays. */
  lemma StackHasOneNamespace(s: Setup, key: string)
    ensures s.namespaces.Some? && IsOn(s.catalog, key) && Get(Section(s.catalog, key), "values").Object? ==>
      var stack := Section(s.catalog, key);
      var chosen := StringValue(Get(Get(stack, "values").fields, "namespace"));
      var name := if chosen != "" then chosen else StringValue(Get(stack, "namespace"));
      var after := Section(AfterOneStack(s, key).catalog, key);
      if name == "" then after == stack
      else
        && Get(after, "namespace") == Text(name) && Get(after, "values").Object?
        && Get(after, "values").fields == Get(stack, "values").fields["namespace" := Text(name)]
        && (forall setting | setting !in {"namespace", "values"} :: Get(after, setting) == Get(stack, setting))
    ensures !(s.namespaces.Some? && IsOn(s.catalog, key) && Get(Section(s.catalog, key), "values").Object?) ==>
      AfterOneStack(s, key) == s
  {
  }

  /** These two stacks move, each on its own, and no other component. */
  lemma OnlyTheStacksMove(s: Setup, defaults: Fields, key: string)
    ensures var logged := AfterLogging(s, defaults);
      Get(AfterComponents(s, defaults).catalog, key) ==
        Get((if key in {"clickvisual_stack", "efk_stack"} then AfterOneStack(logged, key) else logged).catalog, key)
  {
    StacksDiffer();
    var logged := AfterLogging(s, defaults);
    StackLeavesOthers(logged, CLICKVISUAL, key);
    StackLeavesOthers(AfterOneStack(logged, CLICKVISUAL), EFK, key);
  }

  lemma StackLeavesOthers(s: Setup, stack: string, key: string)
    ensures key != stack ==> Get(AfterOneStack(s, stack).catalog, key) == Get(s.catalog, key)
    ensures AfterOneStack(s, stack).namespaces.Some? <==> s.namespaces.Some?
    ensures forall t: Setup :: Get(t.catalog, stack) == Get(s.catalog, stack) && (t.namespaces.Some? <==> s.namespaces.Some?) ==>
      Get(AfterOneStack(t, stack).catalog, stack) == Get(AfterOneStack(s, stack).catalog, stack)
  {
  }

  /** The values of the collector are filled in from the defaults; those of every other component stay. */
  lemma ValuesAreFilledIn(s: Setup, defaults: Fields, key: string)
    requires HasSection(s.catalog, key)
    ensures var before, after := Get(Section(s.catalog, key), "values"), Get(Section(AfterLogging(s, defaults).catalog, key), "values");
      after == if key != "opentelemetry_collector" then before
        else if before.Object? then Completed(before, Object(defaults)) else Object(defaults)
  {
    FilledIn(s.catalog, defaults, key);
    EnabledLeaves(AfterCollector(s.catalog, defaults), PROMETHEUS, key, "values");
  }

  lemma FilledIn(catalog: Fields, defaults: Fields, key: string)
    requires HasSection(catalog, key)
    ensures var before, after := Get(Section(catalog, key), "values"), Get(Section(AfterCollector(catalog, defaults), key), "values");
      after == if key != "opentelemetry_collector" then before
        else if before.Object? then Completed(before, Object(defaults)) else Object(defaults)
  {
    if HasSection(catalog, COLLECTOR) {
      var completed := WithSection(catalog, COLLECTOR, WithValues(Section(catalog, COLLECTOR), defaults));
      EnabledLeaves(completed, PROMETHEUS, key, "values");
      EnabledLeaves(Enabled(completed, PROMETHEUS), LOKI, key, "values");
      EnabledLeaves(Enabled(Enabled(completed, PROMETHEUS), LOKI), JAEGER, key, "values");
      EnabledLeaves(Enabled(Enabled(Enabled(completed, PROMETHEUS), LOKI), JAEGER), TEMPO, key, "values");
    }
  }

  // ---------------------------------------------------------------- everything else stays

  /** Every other setting of a component stays. */
  lemma OtherSettingsStay(s: Setup, defaults: Fields, key: string, setting: string)
    requires setting !in {"enabled", "namespace", "values"}
    ensures Get(Section(AfterComponents(s, defaults).catalog, key), setting) == Get(Section(s.catalog, key), setting)
    ensures !HasSection(s.catalog, key) ==> Get(AfterComponents(s, defaults).catalog, key) == Get(s.catalog, key)
  {
    var logged := AfterLogging(s, defaults);
    LoggingLeaves(s.catalog, defaults, key, setting);
    var first := AfterOneStack(logged, CLICKVISUAL);
    StackLeaves(logged, CLICKVISUAL, key, setting);
    StackLeaves(first, EFK, key, setting);
  }

  lemma StackLeaves(s: Setup, stack: string, key: string, setting: string)
    requires setting !in {"enabled", "namespace", "values"}
    ensures var after := AfterOneStack(s, stack).catalog;
      && Get(Section(after, key), setting) == Get(Section(s.catalog, key), setting)
      && HasSection(after, key) == HasSection(s.catalog, key)
      && (!HasSection(s.catalog, key) ==> Get(after, key) == Get(s.catalog, key))
  {
  }

  lemma EnabledLeaves(catalog: Fields, on: string, key: string, setting: string)
    requires setting != "enabled"
    ensures var after := Enabled(catalog, on);
      && Get(Section(after, key), setting) == Get(Section(catalog, key), setting)
      && HasSection(after, key) == HasSection(catalog, key)
      && (!HasSection(catalog, key) ==> Get(after, key) == Get(catalog, key))
  {
  }

  lemma LoggingLeaves(catalog: Fields, defaults: Fields, key: string, setting: string)
    requires setting !in {"enabled", "namespace", "values"}
    ensures var after := AfterLoki(AfterCollector(catalog, defaults));
      && Get(Section(after, key), setting) == Get(Section(catalog, key), setting)
      && HasSection(after, key) == HasSection(catalog, key)
      && (!HasSection(catalog, key) ==> Get(after, key) == Get(catalog, key))
  {
    CollectorLeaves(catalog, defaults, key, setting);
    EnabledLeaves(AfterCollector(catalog, defaults), PROMETHEUS, key, setting);
  }

  lemma CollectorLeaves(catalog: Fields, defaults: Fields, key: string, setting: string)
    requires setting !in {"enabled", "namespace", "values"}
    ensures var after := AfterCollector(catalog, defaults);
      && Get(Section(after, key), setting) == Get(Section(catalog, key), setting)
      && HasSection(after, key) == HasSection(catalog, key)
      && (!HasSection(catalog, key) ==> Get(after, key) == Get(catalog, key))
  {
    if HasSection(catalog, COLLECTOR) {
      var completed := WithSection(catalog, COLLECTOR, WithValues(Section(catalog, COLLECTOR), defaults));
      assert Get(Section(completed, key), setting) == Get(Section(catalog, key), setting);
      var first := Enabled(completed, PROMETHEUS);
      EnabledLeaves(completed, PROMETHEUS, key, setting);
      var second := Enabled(first, LOKI);
      EnabledLeaves(first, LOKI, key, setting);
      var third := Enabled(second, JAEGER);
      EnabledLeaves(second, JAEGER, key, setting);
      EnabledLeaves(third, TEMPO, key, setting);
    }
  }

  lemma CatalogLeaves(doc: Fields, collectorDefaults: Fields, key: string)
    requires key !in {"namespaces", "components"}
    ensures Get(WithCatalog(doc, collectorDefaults), key) == Get(doc, key)
  {
  }

  /** An upgrade changes the node groups, the namespaces and the catalog; every other part of the document is as the
      merge with the defaults made it, and so is every node group that stayed. */
  lemma OtherSectionsStay(doc: Fields, defaults: Fields, collectorDefaults: Fields, key: string, part: string)
    ensures var merged, after := Merged(doc, defaults), Upgraded(doc, defaults, collectorDefaults);
      && (key !in {"eks", "namespaces", "components"} ==> Get(after, key) == Get(merged, key))
      && (key == "eks" && part != "node_groups" ==> Get(Section(after, key), part) == Get(Section(merged, key), part))
      && (HasNodeGroups(doc) && part in NodeGroups(doc) ==> Get(NodeGroups(after), part) == Get(NodeGroups(merged), part))
      && (!HasNodeGroups(doc) ==> Get(after, "eks") == Get(merged, "eks"))
  {
    SectionsDiffer();
    var merged := Merged(doc, defaults);
    var kept := if HasNodeGroups(doc) then KeptGroups(merged, NodeGroups(doc).Keys) else merged;
    assert NODE_GROUPS == "node_groups" && EKS == "eks" && NAMESPACES == "namespaces" && COMPONENTS == "components";
    if HasNodeGroups(doc) {
      MergedKeepsGroups(doc, defaults);
      assert NodeGroups(kept) == Restricted(NodeGroups(merged), NodeGroups(doc).Keys);
    }
    var cleared := Cleared(kept);
    ClearedLeaves(kept, key);
    ClearedLeaves(kept, "eks");
    if key !in {"namespaces", "components"} {
      CatalogLeaves(cleared, collectorDefaults, key);
      OwnLeaves(WithCatalog(cleared, collectorDefaults), key);
    }
    CatalogLeaves(cleared, collectorDefaults, "eks");
    OwnLeaves(WithCatalog(cleared, collectorDefaults), "eks");
  }

  lemma ClearedLeaves(doc: Fields, key: string)
    ensures key != "namespaces" ==> Get(Cleared(doc), key) == Get(doc, key)
  {
  }

  /** Beside the catalog the components stay, and without a catalog that is an object all of them do. */
  lemma OtherComponentsStay(doc: Fields, defaults: Fields, collectorDefaults: Fields, part: string)
    ensures var merged, after := Merged(doc, defaults), Upgraded(doc, defaults, collectorDefaults);
      && (part != "catalog" ==> Get(Section(after, "components"), part) == Get(Section(merged, "components"), part))
      && (!Get(Section(merged, "components"), "catalog").Object? ==> Get(after, "components") == Get(merged, "components"))
  {
    SectionsDiffer();
    PreparedKeepsCatalog(doc, defaults);
    var prepared := Prepared(doc, defaults);
    OwnLeaves(WithCatalog(prepared, collectorDefaults), COMPONENTS);
    if HasCatalog(prepared) {
      var s := AfterComponents(Setup(Catalog(prepared), NamespacesOf(prepared)), collectorDefaults);
      assert Section(Installed(prepared, s), COMPONENTS) == WithSection(Section(prepared, COMPONENTS), CATALOG, s.catalog);
    }
  }

  /** The two sections an upgrade writes: the catalog, if there is one, and the namespaces, if there are any. */
  lemma UpgradeMeans(doc: Fields, defaults: Fields, collectorDefaults: Fields)
    ensures var merged, after := Merged(doc, defaults), Upgraded(doc, defaults, collectorDefaults);
      var bare := if Get(merged, "namespaces").Object? then Some(map name | name in Get(merged, "namespaces").fields :: Object(map[])) else None;
      var catalog := Get(Section(merged, "components"), "catalog");
      if !catalog.Object? then
        && Get(after, "components") == Get(merged, "components")
        && (bare.None? ==> Get(after, "namespaces") == Get(merged, "namespaces"))
        && (bare.Some? ==> IsNamed(bare, Section(after, "components"), Get(after, "namespaces")))
      else
        var setup := AfterComponents(Setup(catalog.fields, bare), collectorDefaults);
        && Get(Section(after, "components"), "catalog") == Object(setup.catalog)
        && (bare.None? ==> Get(after, "namespaces") == Get(merged, "namespaces"))
        && (bare.Some? ==> IsNamed(setup.namespaces, Section(after, "components"), Get(after, "namespaces")))
  {
    SectionsDiffer();
    PreparedKeepsCatalog(doc, defaults);
    var prepared := Prepared(doc, defaults);
    var held := WithCatalog(prepared, collectorDefaults);
    OwnExists(NamespacesOf(held), Section(held, COMPONENTS), OWN);
    if HasCatalog(prepared) {
      ComponentsExist(Setup(Catalog(prepared), NamespacesOf(prepared)), collectorDefaults);
    } else {
      assert Get(WithOwnNamespaces(held), COMPONENTS) == Get(held, COMPONENTS);
      if !HasSection(held, COMPONENTS) {
        NothingOwn(NamespacesOf(held), OWN);
      }
    }
  }

  lemma {:induction false} OwnExists(namespaces: Option<Fields>, components: Fields, keys: seq<string>)
    ensures WithOwn(namespaces, components, keys).Some? <==> namespaces.Some?
    decreases |keys|
  {
    if keys != [] {
      OwnExists(namespaces, components, keys[..|keys| - 1]);
    }
  }

  lemma {:induction false} NothingOwn(namespaces: Option<Fields>, keys: seq<string>)
    ensures WithOwn(namespaces, map[], keys) == namespaces
    decreases |keys|
  {
    if keys != [] {
      NothingOwn(namespaces, keys[..|keys| - 1]);
    }
  }

  lemma {:induction false} KeysExist(namespaces: Option<Fields>, catalog: Fields, keys: seq<string>)
    ensures WithNamespacesOf(namespaces, catalog, keys).Some? <==> namespaces.Some?
    decreases |keys|
  {
    if keys != [] {
      KeysExist(namespaces, catalog, keys[..|keys| - 1]);
    }
  }

  lemma ComponentsExist(s: Setup, defaults: Fields)
    ensures AfterComponents(s, defaults).namespaces.Some? <==> s.namespaces.Some?
  {
    KeysExist(s.namespaces, AfterLogging(s, defaults).catalog, LOGGING);
  }

  /** The namespaces together with those of the components outside the catalog. */
  predicate IsNamed(namespaces: Option<Fields>, components: Fields, after: Value) {
    WithOwn(namespaces, components, ["consul", "etcd"]).Some? && after == Object(WithOwn(namespaces, components, ["consul", "etcd"]).value)
  }
}
