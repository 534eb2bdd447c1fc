/** The structure `ApplyDefaults` of internal/environment/defaults.go keeps: node groups, namespaces and the components
    that switch each other on. */
module Defaults {
  import opened Options
  import opened Documents
  import opened MergeMissing

  // ---------------------------------------------------------------- sections of a document

  const NAMESPACES := "namespaces"
  const COMPONENTS := "components"
  const CATALOG := "catalog"

  lemma SectionsDiffer()
    ensures EKS != NAMESPACES && EKS != COMPONENTS && NAMESPACES != COMPONENTS
  {
    assert |EKS| == 3 && |NAMESPACES| == 10 && NAMESPACES[0] == 'n' && COMPONENTS[0] == 'c' && |COMPONENTS| == 10;
  }

  predicate HasCatalog(doc: Fields) { HasSection(doc, COMPONENTS) && HasSection(Section(doc, COMPONENTS), CATALOG) }

  function Catalog(doc: Fields): Fields { Section(Section(doc, COMPONENTS), CATALOG) }

  // ---------------------------------------------------------------- node groups and namespaces

  function Restricted(groups: Fields, names: set<string>): Fields {
    map name | name in groups && name in names :: groups[name]
  }

  /** Defaults never bring back a node group the user removed. */
  function KeptGroups(doc: Fields, names: set<string>): Fields {
    if !HasNodeGroups(doc) then doc
    else WithNodeGroups(doc, Restricted(NodeGroups(doc), names))
  }

  /** Namespaces have a name and nothing else. */
  function Emptied(namespaces: Fields): Fields {
    map name | name in namespaces :: Object(map[])
  }

  function WithNamespace(namespaces: Option<Fields>, name: string): Option<Fields> {
    if namespaces.None? || name == "" then namespaces else Some(namespaces.value[name := Object(map[])])
  }

  // ---------------------------------------------------------------- components

  const COLLECTOR := "opentelemetry_collector"
  const PROMETHEUS := "prometheus"
  const LOKI := "loki"
  const JAEGER := "jaeger"
  const TEMPO := "tempo"
  const CLICKVISUAL := "clickvisual_stack"
  const EFK := "efk_stack"

  predicate IsOn(catalog: Fields, key: string) {
    HasSection(catalog, key) && BoolValue(Get(Section(catalog, key), "enabled"))
  }

  function NamespaceOf(catalog: Fields, key: string): string {
    StringValue(Get(Section(catalog, key), "namespace"))
  }

  /** Switches a component on, if the catalog has it. */
  function Enabled(catalog: Fields, key: string): Fields {
    if HasSection(catalog, key) then WithSection(catalog, key, Section(catalog, key)["enabled" := Bool(true)]) else catalog
  }

  function WithValues(component: Fields, defaults: Fields): Fields {
    WithSection(component, "values", if HasSection(component, "values") then Merged(Section(component, "values"), defaults) else defaults)
  }

  /** Whether the collector is told to send traces to Tempo. */
  predicate SendsToTempo(collector: Fields) {
    var destinations := Section(Section(collector, "values"), "destinations");
    HasSection(destinations, TEMPO) && BoolValue(Get(Section(destinations, TEMPO), "enabled"))
  }

  /** An enabled collector switches on what it reports to. */
  function AfterCollector(catalog: Fields, defaults: Fields): Fields {
    if !HasSection(catalog, COLLECTOR) then catalog
    else
      var completed := WithSection(catalog, COLLECTOR, WithValues(Section(catalog, COLLECTOR), defaults));
      if !IsOn(completed, COLLECTOR) then completed
      else
        var on := Enabled(Enabled(Enabled(completed, PROMETHEUS), LOKI), JAEGER);
        if SendsToTempo(Section(on, COLLECTOR)) then Enabled(on, TEMPO) else on
  }

  /** An enabled Loki brings the Grafana of the Prometheus component. */
  function AfterLoki(catalog: Fields): Fields {
    if IsOn(catalog, LOKI) then Enabled(catalog, PROMETHEUS) else catalog
  }

  const LOGGING := [LOKI, PROMETHEUS, JAEGER, TEMPO, COLLECTOR]

  function WithNamespacesOf(namespaces: Option<Fields>, catalog: Fields, keys: seq<string>): Option<Fields> {
    if keys == [] then namespaces
    else
      var before, key := WithNamespacesOf(namespaces, catalog, keys[..|keys| - 1]), keys[|keys| - 1];
      WithNamespace(before, if HasSection(catalog, key) then NamespaceOf(catalog, key) else "")
  }

  /** The one namespace of a stack: the one of its chart values, or else its own. */
  function StackNamespace(stack: Fields): string {
    var chosen := StringValue(Get(Section(stack, "values"), "namespace"));
    if chosen == "" then StringValue(Get(stack, "namespace")) else chosen
  }

  predicate MovesStack(catalog: Fields, namespaces: Option<Fields>, key: string) {
    IsOn(catalog, key) && namespaces.Some? && HasSection(Section(catalog, key), "values")
  }

  /** An enabled stack has its values and its record in the same namespace. */
  function AfterStack(catalog: Fields, namespaces: Option<Fields>, key: string): Fields {
    if !MovesStack(catalog, namespaces, key) || StackNamespace(Section(catalog, key)) == "" then catalog
    else
      var stack, name := Section(catalog, key), Text(StackNamespace(Section(catalog, key)));
      WithSection(catalog, key, WithSection(stack, "values", Section(stack, "values")["namespace" := name])["namespace" := name])
  }

  function NamespacesAfterStack(catalog: Fields, namespaces: Option<Fields>, key: string): Option<Fields> {
    if MovesStack(catalog, namespaces, key) then WithNamespace(namespaces, StackNamespace(Section(catalog, key))) else namespaces
  }

  predicate NeedsNamespace(catalog: Fields, key: string) {
    IsOn(catalog, key) && NamespaceOf(catalog, key) != ""
  }

  /** The namespaces of the enabled components among these. */
  function NeededAmong(catalog: Fields, keys: set<string>): set<string> {
    set key | key in keys && NeedsNamespace(catalog, key) :: NamespaceOf(catalog, key)
  }

  function WithNames(namespaces: Fields, names: set<string>): Fields {
    map name | name in namespaces.Keys + names :: if name in names then Object(map[]) else namespaces[name]
  }

  function Registered(namespaces: Fields, catalog: Fields): Fields {
    WithNames(namespaces, NeededAmong(catalog, catalog.Keys))
  }

  /** What the catalog and the namespaces become. */
  datatype Setup = Setup(catalog: Fields, namespaces: Option<Fields>)

  function AfterLogging(s: Setup, defaults: Fields): Setup {
    var collected := AfterCollector(s.catalog, defaults);
    var catalog := AfterLoki(collected);
    Setup(catalog, if IsOn(collected, LOKI) then WithNamespacesOf(s.namespaces, catalog, LOGGING) else s.namespaces)
  }

  function AfterOneStack(s: Setup, key: string): Setup {
    Setup(AfterStack(s.catalog, s.namespaces, key), NamespacesAfterStack(s.catalog, s.namespaces, key))
  }

  function AfterComponents(s: Setup, defaults: Fields): Setup {
    var moved := AfterOneStack(AfterOneStack(AfterLogging(s, defaults), CLICKVISUAL), EFK);
    Setup(moved.catalog, if moved.namespaces.None? then None else Some(Registered(moved.namespaces.value, moved.catalog)))
  }

  // ---------------------------------------------------------------- which components end up on

  /** Two catalogs with the same components, namespaces and chart values, apart from what is switched on. */
  ghost predicate SameComponents(a: Fields, b: Fields) {
    forall key :: HasSection(a, key) == HasSection(b, key) && NamespaceOf(a, key) == NamespaceOf(b, key)
                  && Get(Section(a, key), "values") == Get(Section(b, key), "values")
  }

  lemma EnabledSwitchesOne(catalog: Fields, key: string)
    ensures SameComponents(catalog, Enabled(catalog, key))
    ensures forall k :: IsOn(Enabled(catalog, key), k) <==> IsOn(catalog, k) || (k == key && HasSection(catalog, k))
  {
  }

  lemma WithValuesSwitchesNothing(catalog: Fields, key: string, defaults: Fields)
    requires HasSection(catalog, key)
    ensures var completed := WithSection(catalog, key, WithValues(Section(catalog, key), defaults));
      && (forall k :: HasSection(completed, k) == HasSection(catalog, k) && NamespaceOf(completed, k) == NamespaceOf(catalog, k))
      && (forall k :: IsOn(completed, k) == IsOn(catalog, k))
      && Get(Section(completed, key), "values") == Get(WithValues(Section(catalog, key), defaults), "values")
  {
  }

  /** The collector sends to Tempo once its values are complete. */
  predicate TempoIsWanted(catalog: Fields, defaults: Fields) {
    HasSection(catalog, COLLECTOR) && SendsToTempo(WithValues(Section(catalog, COLLECTOR), defaults))
  }

  /** What an enabled collector switches on. */
  predicate PulledByCollector(catalog: Fields, defaults: Fields, key: string) {
    && HasSection(catalog, key) && IsOn(catalog, COLLECTOR)
    && (key == PROMETHEUS || key == LOKI || key == JAEGER || (key == TEMPO && TempoIsWanted(catalog, defaults)))
  }

  lemma ThreeSwitchedOn(catalog: Fields)
    ensures var on := Enabled(Enabled(Enabled(catalog, PROMETHEUS), LOKI), JAEGER);
      && SameComponents(catalog, on)
      && forall k :: IsOn(on, k) <==>
           IsOn(catalog, k) || (HasSection(catalog, k) && (k == PROMETHEUS || k == LOKI || k == JAEGER))
  {
    EnabledSwitchesOne(catalog, PROMETHEUS);
    EnabledSwitchesOne(Enabled(catalog, PROMETHEUS), LOKI);
    EnabledSwitchesOne(Enabled(Enabled(catalog, PROMETHEUS), LOKI), JAEGER);
  }

  lemma CollectorSwitches(catalog: Fields, defaults: Fields)
    ensures var after := AfterCollector(catalog, defaults);
      && (forall k :: HasSection(after, k) == HasSection(catalog, k) && NamespaceOf(after, k) == NamespaceOf(catalog, k))
      && (forall k :: IsOn(after, k) <==> IsOn(catalog, k) || PulledByCollector(catalog, defaults, k))
      && (HasSection(catalog, COLLECTOR) ==>
            Get(Section(after, COLLECTOR), "values") == Get(WithValues(Section(catalog, COLLECTOR), defaults), "values"))
  {
    if HasSection(catalog, COLLECTOR) {
      var completed := WithSection(catalog, COLLECTOR, WithValues(Section(catalog, COLLECTOR), defaults));
      WithValuesSwitchesNothing(catalog, COLLECTOR, defaults);
      if IsOn(completed, COLLECTOR) {
        var on := Enabled(Enabled(Enabled(completed, PROMETHEUS), LOKI), JAEGER);
        ThreeSwitchedOn(completed);
        EnabledSwitchesOne(on, TEMPO);
      }
    }
  }

  lemma StackSwitchesNothing(catalog: Fields, namespaces: Option<Fields>, key: string)
    ensures var after := AfterStack(catalog, namespaces, key);
      forall k :: HasSection(after, k) == HasSection(catalog, k) && IsOn(after, k) == IsOn(catalog, k)
                  && (k != key ==> Get(after, k) == Get(catalog, k))
  {
  }

  /** What ends up on without having been on. */
  predicate Pulled(catalog: Fields, defaults: Fields, key: string) {
    || PulledByCollector(catalog, defaults, key)
    || (key == PROMETHEUS && HasSection(catalog, key) && IsOn(catalog, LOKI))
  }

  lemma LoggingSwitches(s: Setup, defaults: Fields)
    ensures var after := AfterLogging(s, defaults).catalog;
      && (forall k :: HasSection(after, k) == HasSection(s.catalog, k))
      && (forall k :: IsOn(after, k) <==> IsOn(s.catalog, k) || Pulled(s.catalog, defaults, k))
      && (HasSection(s.catalog, COLLECTOR) ==>
            Get(Section(after, COLLECTOR), "values") == Get(WithValues(Section(s.catalog, COLLECTOR), defaults), "values"))
  {
    CollectorSwitches(s.catalog, defaults);
  }

  /** A component is on after the upgrade exactly when it was on before or an enabled component needs it. */
  lemma SwitchedOnExactly(s: Setup, defaults: Fields)
    ensures var after := AfterComponents(s, defaults).catalog;
      && (forall k :: HasSection(after, k) == HasSection(s.catalog, k))
      && (forall k :: IsOn(after, k) <==> IsOn(s.catalog, k) || Pulled(s.catalog, defaults, k))
      && (HasSection(s.catalog, COLLECTOR) ==>
            Get(Section(after, COLLECTOR), "values") == Get(WithValues(Section(s.catalog, COLLECTOR), defaults), "values"))
  {
    var logged := AfterLogging(s, defaults);
    LoggingSwitches(s, defaults);
    StackSwitchesNothing(logged.catalog, logged.namespaces, CLICKVISUAL);
    var moved := AfterOneStack(logged, CLICKVISUAL);
    StackSwitchesNothing(moved.catalog, moved.namespaces, EFK);
  }

  /** Everything an enabled component needs is on. */
  predicate Closed(catalog: Fields) {
    && (IsOn(catalog, COLLECTOR) ==>
          && (HasSection(catalog, PROMETHEUS) ==> IsOn(catalog, PROMETHEUS))
          && (HasSection(catalog, LOKI) ==> IsOn(catalog, LOKI))
          && (HasSection(catalog, JAEGER) ==> IsOn(catalog, JAEGER))
          && (HasSection(catalog, TEMPO) && SendsToTempo(Section(catalog, COLLECTOR)) ==> IsOn(catalog, TEMPO)))
    && (IsOn(catalog, LOKI) && HasSection(catalog, PROMETHEUS) ==> IsOn(catalog, PROMETHEUS))
  }

  /** One pass is enough. */
  lemma OnePassCloses(s: Setup, defaults: Fields)
    ensures Closed(AfterComponents(s, defaults).catalog)
  {
    var after := AfterComponents(s, defaults).catalog;
    SwitchedOnExactly(s, defaults);
    assert IsOn(after, COLLECTOR) ==> IsOn(s.catalog, COLLECTOR);
  }

  lemma ValuesAreCompleteOnce(component: Fields, again: Fields, defaults: Fields)
    requires Get(again, "values") == Get(WithValues(component, defaults), "values")
    ensures Get(WithValues(again, defaults), "values") == Get(again, "values")
  {
    if HasSection(component, "values") {
      SecondMergeChangesNothing(Object(Section(component, "values")), Object(defaults));
    } else {
      CompletedBySelf(Object(defaults));
    }
  }

  /** Upgrading again switches nothing more on. */
  lemma SecondPassSwitchesNothing(s: Setup, defaults: Fields, key: string)
    ensures var once := AfterComponents(s, defaults);
      IsOn(AfterComponents(once, defaults).catalog, key) == IsOn(once.catalog, key)
  {
    var once := AfterComponents(s, defaults);
    SwitchedOnExactly(s, defaults);
    SwitchedOnExactly(once, defaults);
    OnePassCloses(s, defaults);
    if HasSection(s.catalog, COLLECTOR) {
      ValuesAreCompleteOnce(Section(s.catalog, COLLECTOR), Section(once.catalog, COLLECTOR), defaults);
    }
  }

  // ---------------------------------------------------------------- namespaces are registered and never removed

  ghost predicate Grows(before: Option<Fields>, after: Option<Fields>) {
    && before.Some? == after.Some?
    && (before.Some? ==> before.value.Keys <= after.value.Keys)
    && (before.Some? && (forall n | n in before.value :: before.value[n] == Object(map[])) ==>
          forall n | n in after.value :: after.value[n] == Object(map[]))
  }

  lemma {:induction false} NamespacesGrow(namespaces: Option<Fields>, catalog: Fields, keys: seq<string>)
    ensures Grows(namespaces, WithNamespacesOf(namespaces, catalog, keys))
  {
    if keys != [] {
      NamespacesGrow(namespaces, catalog, keys[..|keys| - 1]);
    }
  }

  lemma SetupGrows(s: Setup, defaults: Fields)
    ensures Grows(s.namespaces, AfterComponents(s, defaults).namespaces)
  {
    var logged := AfterLogging(s, defaults);
    NamespacesGrow(s.namespaces, logged.catalog, LOGGING);
    assert Grows(s.namespaces, logged.namespaces);
    var first := AfterOneStack(logged, CLICKVISUAL);
    assert Grows(logged.namespaces, first.namespaces);
    var second := AfterOneStack(first, EFK);
    assert Grows(first.namespaces, second.namespaces);
  }

  /** Every enabled component finds its namespace registered. */
  lemma EnabledNamespacesAreRegistered(s: Setup, defaults: Fields, key: string)
    requires s.namespaces.Some?
    ensures var after := AfterComponents(s, defaults);
      && after.namespaces.Some?
      && (IsOn(after.catalog, key) && NamespaceOf(after.catalog, key) != "" ==> NamespaceOf(after.catalog, key) in after.namespaces.value)
  {
    SetupGrows(s, defaults);
    var after := AfterComponents(s, defaults);
    if NeedsNamespace(after.catalog, key) {
      assert key in after.catalog;
    }
  }
}
