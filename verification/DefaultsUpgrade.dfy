/** `ApplyDefaults` of internal/environment/defaults.go as it changes a document in place, for the sections that
    Defaults describes. */
module DefaultsUpgrade {
  import opened Options
  import opened Documents
  import opened MergeMissing
  import opened Defaults

  // ---------------------------------------------------------------- the specification

  function Cleared(doc: Fields): Fields {
    if HasSection(doc, NAMESPACES) then WithSection(doc, NAMESPACES, Emptied(Section(doc, NAMESPACES))) else doc
  }

  function NamespacesOf(doc: Fields): Option<Fields> {
    if HasSection(doc, NAMESPACES) then Some(Section(doc, NAMESPACES)) else None
  }

  function WithNamespaces(doc: Fields, namespaces: Option<Fields>): Fields {
    if namespaces.None? then doc else WithSection(doc, NAMESPACES, namespaces.value)
  }

  function Installed(doc: Fields, s: Setup): Fields {
    WithNamespaces(WithSection(doc, COMPONENTS, WithSection(Section(doc, COMPONENTS), CATALOG, s.catalog)), s.namespaces)
  }

  function WithCatalog(doc: Fields, collectorDefaults: Fields): Fields {
    if HasCatalog(doc) then Installed(doc, AfterComponents(Setup(Catalog(doc), NamespacesOf(doc)), collectorDefaults)) else doc
  }

  const OWN := ["consul", "etcd"]

  /** The namespaces of the components outside the catalog, if they are on. */
  function WithOwn(namespaces: Option<Fields>, components: Fields, keys: seq<string>): Option<Fields> {
    if keys == [] then namespaces
    else
      var before, key := WithOwn(namespaces, components, keys[..|keys| - 1]), keys[|keys| - 1];
      WithNamespace(before, if IsOn(components, key) then NamespaceOf(components, key) else "")
  }

  function WithOwnNamespaces(doc: Fields): Fields {
    if HasSection(doc, COMPONENTS) then WithNamespaces(doc, WithOwn(NamespacesOf(doc), Section(doc, COMPONENTS), OWN)) else doc
  }

  /** The merged document without the node groups that only the defaults have, and with bare namespaces. */
  function Prepared(doc: Fields, defaults: Fields): Fields {
    var merged := Merged(doc, defaults);
    Cleared(if HasNodeGroups(doc) then KeptGroups(merged, NodeGroups(doc).Keys) else merged)
  }

  function Upgraded(doc: Fields, defaults: Fields, collectorDefaults: Fields): Fields {
    WithOwnNamespaces(WithCatalog(Prepared(doc, defaults), collectorDefaults))
  }

  // ---------------------------------------------------------------- the steps change nothing else

  lemma OwnLeaves(doc: Fields, key: string)
    requires key != NAMESPACES
    ensures Get(WithOwnNamespaces(doc), key) == Get(doc, key)
  {
  }

  // ---------------------------------------------------------------- node groups

  lemma MergedKeepsGroups(doc: Fields, defaults: Fields)
    requires HasNodeGroups(doc)
    ensures HasNodeGroups(Merged(doc, defaults)) && NodeGroups(doc).Keys <= NodeGroups(Merged(doc, defaults)).Keys
  {
    var merged := Merged(doc, defaults);
    if EKS in defaults {
      assert merged[EKS] == Completed(doc[EKS], defaults[EKS]);
      if defaults[EKS].Object? && NODE_GROUPS in defaults[EKS].fields {
        assert merged[EKS].fields[NODE_GROUPS] == Completed(doc[EKS].fields[NODE_GROUPS], defaults[EKS].fields[NODE_GROUPS]);
      }
    }
  }

  /** An upgrade keeps the names of the node groups exactly: it brings none back and drops none. */
  lemma GroupNamesStay(doc: Fields, defaults: Fields, collectorDefaults: Fields)
    requires HasNodeGroups(doc)
    ensures var after := Upgraded(doc, defaults, collectorDefaults);
      HasNodeGroups(after) && NodeGroups(after).Keys == NodeGroups(doc).Keys
  {
    MergedKeepsGroups(doc, defaults);
    SectionsDiffer();
    var merged := Merged(doc, defaults);
    var kept := KeptGroups(merged, NodeGroups(doc).Keys);
    assert HasNodeGroups(kept) && NodeGroups(kept) == Restricted(NodeGroups(merged), NodeGroups(doc).Keys);
    assert NodeGroups(kept).Keys == NodeGroups(doc).Keys;
    OwnLeaves(WithCatalog(Cleared(kept), collectorDefaults), EKS);
  }

  // ---------------------------------------------------------------- namespaces

  lemma {:induction false} OwnGrows(namespaces: Option<Fields>, components: Fields, keys: seq<string>)
    ensures Grows(namespaces, WithOwn(namespaces, components, keys))
  {
    if keys != [] {
      OwnGrows(namespaces, components, keys[..|keys| - 1]);
    }
  }

  lemma MergedKeepsNamespaces(doc: Fields, defaults: Fields)
    requires HasSection(doc, NAMESPACES)
    ensures HasSection(Merged(doc, defaults), NAMESPACES)
    ensures Section(doc, NAMESPACES).Keys <= Section(Merged(doc, defaults), NAMESPACES).Keys
  {
    if NAMESPACES in defaults {
      assert Merged(doc, defaults)[NAMESPACES] == Completed(doc[NAMESPACES], defaults[NAMESPACES]);
    }
  }

  lemma CatalogNamespaces(doc: Fields, collectorDefaults: Fields)
    ensures Grows(NamespacesOf(doc), NamespacesOf(WithCatalog(doc, collectorDefaults)))
  {
    if HasCatalog(doc) {
      var s := Setup(Catalog(doc), NamespacesOf(doc));
      SetupGrows(s, collectorDefaults);
    }
  }

  lemma OwnNamespaces(doc: Fields)
    ensures Grows(NamespacesOf(doc), NamespacesOf(WithOwnNamespaces(doc)))
  {
    if HasSection(doc, COMPONENTS) {
      OwnGrows(NamespacesOf(doc), Section(doc, COMPONENTS), OWN);
    }
  }

  /** No upgrade removes a namespace, and every namespace ends up with a name and nothing else. */
  lemma NamespacesStay(doc: Fields, defaults: Fields, collectorDefaults: Fields)
    requires HasSection(doc, NAMESPACES)
    ensures var after := Upgraded(doc, defaults, collectorDefaults);
      && HasSection(after, NAMESPACES) && Section(doc, NAMESPACES).Keys <= Section(after, NAMESPACES).Keys
      && forall name | name in Section(after, NAMESPACES) :: Section(after, NAMESPACES)[name] == Object(map[])
  {
    var merged := Merged(doc, defaults);
    MergedKeepsNamespaces(doc, defaults);
    SectionsDiffer();
    var kept := if HasNodeGroups(doc) then KeptGroups(merged, NodeGroups(doc).Keys) else merged;
    assert Get(kept, NAMESPACES) == Get(merged, NAMESPACES);
    var cleared := Cleared(kept);
    assert Section(cleared, NAMESPACES).Keys == Section(kept, NAMESPACES).Keys;
    CatalogNamespaces(cleared, collectorDefaults);
    OwnNamespaces(WithCatalog(cleared, collectorDefaults));
  }

  // ---------------------------------------------------------------- components

  /** The components as the upgrade finds them. */
  function FoundSetup(doc: Fields, defaults: Fields): Setup {
    Setup(Catalog(Prepared(doc, defaults)), NamespacesOf(Prepared(doc, defaults)))
  }

  lemma PreparedKeepsCatalog(doc: Fields, defaults: Fields)
    ensures var merged, prepared := Merged(doc, defaults), Prepared(doc, defaults);
      && Get(prepared, COMPONENTS) == Get(merged, COMPONENTS)
      && HasSection(prepared, NAMESPACES) == HasSection(merged, NAMESPACES)
  {
    SectionsDiffer();
    var merged := Merged(doc, defaults);
    var kept := if HasNodeGroups(doc) then KeptGroups(merged, NodeGroups(doc).Keys) else merged;
    assert Get(kept, COMPONENTS) == Get(merged, COMPONENTS) && Get(kept, NAMESPACES) == Get(merged, NAMESPACES);
  }

  lemma CatalogSurvives(doc: Fields, defaults: Fields, collectorDefaults: Fields)
    requires HasCatalog(Prepared(doc, defaults))
    ensures var s, after := AfterComponents(FoundSetup(doc, defaults), collectorDefaults), Upgraded(doc, defaults, collectorDefaults);
      HasCatalog(after) && Catalog(after) == s.catalog && Grows(s.namespaces, NamespacesOf(after))
  {
    var prepared := Prepared(doc, defaults);
    SectionsDiffer();
    SetupGrows(FoundSetup(doc, defaults), collectorDefaults);
    OwnNamespaces(WithCatalog(prepared, collectorDefaults));
    OwnLeaves(WithCatalog(prepared, collectorDefaults), COMPONENTS);
  }

  /** After one upgrade everything an enabled component needs is on, nothing else was switched on, and the namespace of
      every enabled component is registered. */
  lemma UpgradeIsClosed(doc: Fields, defaults: Fields, collectorDefaults: Fields, key: string)
    requires HasCatalog(Merged(doc, defaults))
    ensures var before, after := Merged(doc, defaults), Upgraded(doc, defaults, collectorDefaults);
      && HasCatalog(after) && Closed(Catalog(after))
      && (IsOn(Catalog(after), key) <==> IsOn(Catalog(before), key) || Pulled(Catalog(before), collectorDefaults, key))
      && (HasSection(before, NAMESPACES) && NeedsNamespace(Catalog(after), key) ==>
            NamespaceOf(Catalog(after), key) in Section(after, NAMESPACES))
  {
    var s := FoundSetup(doc, defaults);
    PreparedKeepsCatalog(doc, defaults);
    CatalogSurvives(doc, defaults, collectorDefaults);
    OnePassCloses(s, collectorDefaults);
    SwitchedOnExactly(s, collectorDefaults);
    if s.namespaces.Some? {
      EnabledNamespacesAreRegistered(s, collectorDefaults, key);
    }
  }

  // ---------------------------------------------------------------- the code

  /** The loop that deletes node groups the document did not have. */
  method DeleteNewGroups(found: Fields, existing: set<string>) returns (groups: Fields)
    ensures groups == Restricted(found, existing)
  {
    groups := found;
    var rest := found.Keys;
    while rest != {}
      invariant rest <= found.Keys && groups.Keys <= found.Keys
      invariant forall name | name in found :: name in groups <==> name in rest || name in existing
      invariant forall name | name in groups :: groups[name] == found[name]
      decreases rest
    {
      var name :| name in rest;
      if name !in existing {
        groups := groups - {name};
      }
      rest := rest - {name};
    }
  }

  method EmptyNamespaces(found: Fields) returns (namespaces: Fields)
    ensures namespaces == Emptied(found)
  {
    namespaces := found;
    var rest := found.Keys;
    while rest != {}
      invariant rest <= found.Keys && namespaces.Keys == found.Keys
      invariant forall name | name in found && name !in rest :: namespaces[name] == Object(map[])
      decreases rest
    {
      var name :| name in rest;
      namespaces := namespaces[name := Object(map[])];
      rest := rest - {name};
    }
  }

  method EnableDependencies(found: Fields) returns (catalog: Fields)
    ensures catalog == Enabled(Enabled(Enabled(found, PROMETHEUS), LOKI), JAEGER)
  {
    catalog := found;
    var dependencies := [PROMETHEUS, LOKI, JAEGER];
    var i := 0;
    while i < |dependencies|
      invariant 0 <= i <= 3
      invariant catalog == if i == 0 then found else if i == 1 then Enabled(found, PROMETHEUS)
        else if i == 2 then Enabled(Enabled(found, PROMETHEUS), LOKI) else Enabled(Enabled(Enabled(found, PROMETHEUS), LOKI), JAEGER)
    {
      if HasSection(catalog, dependencies[i]) {
        catalog := WithSection(catalog, dependencies[i], Section(catalog, dependencies[i])["enabled" := Bool(true)]);
      }
      i := i + 1;
    }
  }

  method UpgradeCollector(found: Fields, defaults: Fields) returns (catalog: Fields)
    ensures catalog == AfterCollector(found, defaults)
  {
    if !HasSection(found, COLLECTOR) {
      return found;
    }
    var collector := Section(found, COLLECTOR);
    var values := defaults;
    if HasSection(collector, "values") {
      values := Merge(Section(collector, "values"), Object(defaults));
    }
    collector := WithSection(collector, "values", values);
    catalog := WithSection(found, COLLECTOR, collector);
    if IsOn(catalog, COLLECTOR) {
      catalog := EnableDependencies(catalog);
      if SendsToTempo(Section(catalog, COLLECTOR)) {
        catalog := Enabled(catalog, TEMPO);
      }
    }
  }

  method AddNamespaces(found: Option<Fields>, catalog: Fields, keys: seq<string>) returns (namespaces: Option<Fields>)
    ensures namespaces == WithNamespacesOf(found, catalog, keys)
  {
    namespaces := found;
    var i := 0;
    while i < |keys|
      invariant 0 <= i <= |keys|
      invariant namespaces == WithNamespacesOf(found, catalog, keys[..i])
    {
      assert keys[..i + 1][..i] == keys[..i];
      if namespaces.Some? && HasSection(catalog, keys[i]) {
        var name := NamespaceOf(catalog, keys[i]);
        if name != "" {
          namespaces := Some(namespaces.value[name := Object(map[])]);
        }
      }
      i := i + 1;
    }
    assert keys[..i] == keys;
  }

  method UpgradeStack(found: Setup, key: string) returns (s: Setup)
    ensures s == AfterOneStack(found, key)
  {
    s := found;
    if IsOn(found.catalog, key) && found.namespaces.Some? {
      var stack := Section(found.catalog, key);
      if HasSection(stack, "values") {
        var values := Section(stack, "values");
        var name := StringValue(Get(values, "namespace"));
        if name == "" {
          name := StringValue(Get(stack, "namespace"));
        }
        if name != "" {
          values := values["namespace" := Text(name)];
          stack := WithSection(stack, "values", values)["namespace" := Text(name)];
          s := Setup(WithSection(found.catalog, key, stack), Some(found.namespaces.value[name := Object(map[])]));
        }
      }
    }
  }

  lemma OneMoreKey(catalog: Fields, keys: set<string>, key: string)
    ensures NeededAmong(catalog, keys + {key}) ==
      if NeedsNamespace(catalog, key) then NeededAmong(catalog, keys) + {NamespaceOf(catalog, key)} else NeededAmong(catalog, keys)
  {
  }

  lemma OneMoreName(found: Fields, names: set<string>, name: string)
    ensures WithNames(found, names)[name := Object(map[])] == WithNames(found, names + {name})
    ensures WithNames(found, {}) == found
  {
  }

  /** The loop that registers the namespaces of all enabled components, in whatever order the map gives them. */
  method RegisterEnabled(found: Fields, catalog: Fields) returns (namespaces: Fields)
    ensures namespaces == Registered(found, catalog)
  {
    namespaces := found;
    var rest := catalog.Keys;
    ghost var seen: set<string> := {};
    OneMoreName(found, {}, "");
    assert NeededAmong(catalog, seen) == {};
    while rest != {}
      invariant seen + rest == catalog.Keys
      invariant namespaces == WithNames(found, NeededAmong(catalog, seen))
      decreases rest
    {
      var key :| key in rest;
      OneMoreKey(catalog, seen, key);
      namespaces := RegisterOne(found, namespaces, catalog, NeededAmong(catalog, seen), key);
      rest, seen := rest - {key}, seen + {key};
    }
    assert seen == catalog.Keys;
  }

  method RegisterOne(ghost found: Fields, before: Fields, catalog: Fields, ghost names: set<string>, key: string)
    returns (namespaces: Fields)
    requires before == WithNames(found, names)
    ensures namespaces == WithNames(found, if NeedsNamespace(catalog, key) then names + {NamespaceOf(catalog, key)} else names)
  {
    if IsOn(catalog, key) {
      var name := NamespaceOf(catalog, key);
      if name != "" {
        OneMoreName(found, names, name);
        return before[name := Object(map[])];
      }
    }
    return before;
  }

  method UpgradeComponents(found: Setup, collectorDefaults: Fields) returns (s: Setup)
    ensures s == AfterComponents(found, collectorDefaults)
  {
    var collected := UpgradeCollector(found.catalog, collectorDefaults);
    var catalog, namespaces := collected, found.namespaces;
    if IsOn(catalog, LOKI) {
      catalog := Enabled(catalog, PROMETHEUS);
      namespaces := AddNamespaces(namespaces, catalog, LOGGING);
    }
    s := UpgradeStack(Setup(catalog, namespaces), CLICKVISUAL);
    s := UpgradeStack(s, EFK);
    if s.namespaces.Some? {
      var registered := RegisterEnabled(s.namespaces.value, s.catalog);
      s := Setup(s.catalog, Some(registered));
    }
  }

  method AddOwn(found: Option<Fields>, components: Fields) returns (namespaces: Option<Fields>)
    ensures namespaces == WithOwn(found, components, OWN)
  {
    namespaces := found;
    var i := 0;
    while i < |OWN|
      invariant 0 <= i <= |OWN|
      invariant namespaces == WithOwn(found, components, OWN[..i])
    {
      assert OWN[..i + 1][..i] == OWN[..i];
      if namespaces.Some? && IsOn(components, OWN[i]) {
        var name := NamespaceOf(components, OWN[i]);
        if name != "" {
          namespaces := Some(namespaces.value[name := Object(map[])]);
        }
      }
      i := i + 1;
    }
    assert OWN[..i] == OWN;
  }

  method KeepGroups(doc: Document, had: bool, existing: set<string>)
    modifies doc
    ensures doc.fields == if had then KeptGroups(old(doc.fields), existing) else old(doc.fields)
  {
    if had && HasNodeGroups(doc.fields) {
      var groups := DeleteNewGroups(NodeGroups(doc.fields), existing);
      doc.fields := WithNodeGroups(doc.fields, groups);
    }
  }

  method ClearNamespaces(doc: Document)
    modifies doc
    ensures doc.fields == Cleared(old(doc.fields))
  {
    if HasSection(doc.fields, NAMESPACES) {
      var namespaces := EmptyNamespaces(Section(doc.fields, NAMESPACES));
      doc.fields := WithSection(doc.fields, NAMESPACES, namespaces);
    }
  }

  method UpgradeCatalog(doc: Document, collectorDefaults: Fields)
    modifies doc
    ensures doc.fields == WithCatalog(old(doc.fields), collectorDefaults)
  {
    if HasCatalog(doc.fields) {
      var s := UpgradeComponents(Setup(Catalog(doc.fields), NamespacesOf(doc.fields)), collectorDefaults);
      doc.fields := Installed(doc.fields, s);
    }
  }

  method ApplyDefaults(doc: Document, defaults: Fields, collectorDefaults: Fields)
    modifies doc
    ensures doc.fields == Upgraded(old(doc.fields), defaults, collectorDefaults)
  {
    var had := HasNodeGroups(doc.fields);
    var existing := if had then NodeGroups(doc.fields).Keys else {};
    doc.fields := Merge(doc.fields, Object(defaults));
    KeepGroups(doc, had, existing);
    ClearNamespaces(doc);
    UpgradeCatalog(doc, collectorDefaults);
    if HasSection(doc.fields, COMPONENTS) {
      var namespaces := AddOwn(NamespacesOf(doc.fields), Section(doc.fields, COMPONENTS));
      doc.fields := WithNamespaces(doc.fields, namespaces);
    }
  }
}
