/** internal/environment/scheduling.go: the canonical placement plan of the node groups, and the comparison that lets a
    provisioned cluster only grow. */
module Scheduling {
  import opened Options
  import opened Documents
  import opened Ordering
  import Region

  datatype Taint = Taint(key: string, value: string, effect: string)

  datatype Placement = Placement(instanceTypes: seq<string>, zones: seq<string>, capacityType: string, subnetType: string,
                                 amiType: string, diskSize: int, labels: map<string, string>, taints: seq<Taint>)

  datatype Plan = Plan(enabled: bool, groups: map<string, Placement>)

  // ---------------------------------------------------------------- reading a group

  predicate TaintAtMost(a: Taint, b: Taint) {
    if a.key != b.key then AtMost(a.key, b.key)
    else if a.value != b.value then AtMost(a.value, b.value)
    else AtMost(a.effect, b.effect)
  }

  lemma TaintsAreOrdered()
    ensures TotalOrder(TaintAtMost)
  {
    TextsAreOrdered();
  }

  function TaintOf(fields: Fields): Taint {
    Taint(StringValue(Get(fields, "key")), StringValue(Get(fields, "value")), StringValue(Get(fields, "effect")))
  }

  function ListedTaints(items: seq<Value>): seq<Taint> {
    if items == [] then []
    else
      var before, last := ListedTaints(items[..|items| - 1]), items[|items| - 1];
      if last.Object? then before + [TaintOf(last.fields)] else before
  }

  function TaintsOf(value: Value): seq<Taint> {
    if value.List? then ListedTaints(value.items) else []
  }

  function LabelsOf(value: Value): map<string, string> {
    map key | key in FieldsOf(value) :: StringValue(FieldsOf(value)[key])
  }

  function OrDefault(text: string, fallback: string): string {
    if text == "" then fallback else text
  }

  const ON_DEMAND := "ON_DEMAND"
  const AL2023 := "AL2023_x86_64_STANDARD"

  function PlacementOf(group: Fields): Placement {
    Placement(Sorted(Region.StringList(Get(group, "instance_types")), AtMost),
              Sorted(Region.StringList(Get(group, "availability_zones")), AtMost),
              OrDefault(StringValue(Get(group, "capacity_type")), ON_DEMAND),
              StringValue(Get(group, "subnet_type")),
              OrDefault(StringValue(Get(group, "ami_type")), AL2023),
              IntValue(Get(group, "disk_size")),
              LabelsOf(Get(group, "labels")),
              Sorted(TaintsOf(Get(group, "taints")), TaintAtMost))
  }

  function IsEnabled(doc: Fields): bool {
    BoolValue(Get(FieldsOf(Get(FieldsOf(Get(doc, "eks")), "workload_scheduling")), "enabled"))
  }

  function PlanOf(doc: Fields): Plan {
    var groups := NodeGroups(doc);
    Plan(IsEnabled(doc), map name | name in groups && groups[name].Object? :: PlacementOf(groups[name].fields))
  }

  /** Taints are read one by one; what is no object is skipped. */
  lemma {:induction false} TaintsOneByOne(before: seq<Value>, after: seq<Value>, item: Value)
    ensures ListedTaints(before + after) == ListedTaints(before) + ListedTaints(after)
    ensures ListedTaints([item]) == if item.Object?
      then [Taint(StringValue(Get(item.fields, "key")), StringValue(Get(item.fields, "value")), StringValue(Get(item.fields, "effect")))]
      else []
    ensures TaintsOf(List(before)) == ListedTaints(before) && (!item.List? ==> TaintsOf(item) == [])
    decreases |after|
  {
    assert [item][..0] == [];
    if after == [] {
      assert before + after == before;
    } else {
      var n := |after| - 1;
      assert (before + after)[..|before| + n] == before + after[..n];
      TaintsOneByOne(before, after[..n], item);
    }
  }

  lemma LabelsMean(value: Value, key: string)
    ensures key in LabelsOf(value) <==> value.Object? && key in value.fields
    ensures key in LabelsOf(value) ==> LabelsOf(value)[key] == StringValue(value.fields[key])
  {
  }

  /** A plan has one entry for each group that is an object, and says whether scheduling is switched on. */
  lemma PlanMeans(doc: Fields, name: string)
    ensures PlanOf(doc).enabled <==>
      && "eks" in doc && doc["eks"].Object? && "workload_scheduling" in doc["eks"].fields
      && doc["eks"].fields["workload_scheduling"].Object?
      && Get(doc["eks"].fields["workload_scheduling"].fields, "enabled") == Bool(true)
    ensures name in PlanOf(doc).groups <==> HasNodeGroups(doc) && name in NodeGroups(doc) && NodeGroups(doc)[name].Object?
    ensures name in PlanOf(doc).groups ==> PlanOf(doc).groups[name] == PlacementOf(NodeGroups(doc)[name].fields)
  {
  }

  /** An entry: the settings of the group, two of them with a default, and its lists in order. */
  lemma EntryMeans(group: Fields)
    ensures var entry, capacity, ami := PlacementOf(group), StringValue(Get(group, "capacity_type")), StringValue(Get(group, "ami_type"));
      && entry.capacityType == (if capacity != "" then capacity else "ON_DEMAND")
      && entry.amiType == (if ami != "" then ami else "AL2023_x86_64_STANDARD")
      && entry.subnetType == StringValue(Get(group, "subnet_type")) && entry.diskSize == IntValue(Get(group, "disk_size"))
      && entry.labels == LabelsOf(Get(group, "labels"))
      && multiset(entry.instanceTypes) == multiset(Region.StringList(Get(group, "instance_types"))) && Ascending(entry.instanceTypes, AtMost)
      && multiset(entry.zones) == multiset(Region.StringList(Get(group, "availability_zones"))) && Ascending(entry.zones, AtMost)
      && multiset(entry.taints) == multiset(TaintsOf(Get(group, "taints"))) && Ascending(entry.taints, TaintAtMost)
  {
    TextsAreOrdered();
    TaintsAreOrdered();
    SortedIsAscending(Region.StringList(Get(group, "instance_types")), AtMost);
    SortedIsAscending(Region.StringList(Get(group, "availability_zones")), AtMost);
    SortedIsAscending(TaintsOf(Get(group, "taints")), TaintAtMost);
  }

  // ---------------------------------------------------------------- what a plan says and what it leaves out

  /** The same placement up to the order of types, zones and taints. */
  predicate SamePlacement(g: Fields, h: Fields) {
    && multiset(Region.StringList(Get(g, "instance_types"))) == multiset(Region.StringList(Get(h, "instance_types")))
    && multiset(Region.StringList(Get(g, "availability_zones"))) == multiset(Region.StringList(Get(h, "availability_zones")))
    && OrDefault(StringValue(Get(g, "capacity_type")), "ON_DEMAND") == OrDefault(StringValue(Get(h, "capacity_type")), "ON_DEMAND")
    && StringValue(Get(g, "subnet_type")) == StringValue(Get(h, "subnet_type"))
    && OrDefault(StringValue(Get(g, "ami_type")), "AL2023_x86_64_STANDARD") == OrDefault(StringValue(Get(h, "ami_type")), "AL2023_x86_64_STANDARD")
    && IntValue(Get(g, "disk_size")) == IntValue(Get(h, "disk_size"))
    && LabelsOf(Get(g, "labels")) == LabelsOf(Get(h, "labels"))
    && multiset(TaintsOf(Get(g, "taints"))) == multiset(TaintsOf(Get(h, "taints")))
  }

  /** Two groups have the same entry in a plan exactly when they place alike. */
  lemma PlacementsMatchExactly(g: Fields, h: Fields)
    ensures PlacementOf(g) == PlacementOf(h) <==> SamePlacement(g, h)
  {
    TextsAreOrdered();
    TaintsAreOrdered();
    SortedIsCanonical(Region.StringList(Get(g, "instance_types")), Region.StringList(Get(h, "instance_types")), AtMost);
    SortedIsCanonical(Region.StringList(Get(g, "availability_zones")), Region.StringList(Get(h, "availability_zones")), AtMost);
    SortedIsCanonical(TaintsOf(Get(g, "taints")), TaintsOf(Get(h, "taints")), TaintAtMost);
  }

  const CONTRACT := ["instance_types", "availability_zones", "capacity_type", "subnet_type", "ami_type", "disk_size", "labels", "taints"]

  /** Capacity, and every other field outside the contract, can change without changing the plan. */
  lemma OtherFieldsDoNotMatter(group: Fields, key: string, value: Value)
    requires key !in CONTRACT
    ensures PlacementOf(group[key := value]) == PlacementOf(group)
  {
    assert forall k | k in CONTRACT :: Get(group[key := value], k) == Get(group, k);
    assert CONTRACT[0] in CONTRACT && CONTRACT[1] in CONTRACT && CONTRACT[2] in CONTRACT && CONTRACT[3] in CONTRACT;
    assert CONTRACT[4] in CONTRACT && CONTRACT[5] in CONTRACT && CONTRACT[6] in CONTRACT && CONTRACT[7] in CONTRACT;
  }

  // ---------------------------------------------------------------- comparing plans

  datatype Changes = Changes(enabledChanged: bool, added: seq<string>, removed: seq<string>, modified: seq<string>)

  /** The list holds every one of these names once. */
  ghost predicate Holds(list: seq<string>, names: set<string>) {
    && (forall name :: name in list <==> name in names)
    && forall i, j | 0 <= i < j < |list| :: list[i] != list[j]
  }

  /** The ascending list of these names. */
  ghost predicate Lists(list: seq<string>, names: set<string>) {
    Ascending(list, AtMost) && Holds(list, names)
  }

  lemma {:induction false} HoldsOnce(list: seq<string>, names: set<string>)
    requires Holds(list, names)
    ensures multiset(list) == multiset(names)
  {
    if list != [] {
      var n := |list| - 1;
      var front, last := list[..n], list[n];
      assert list == front + [last];
      assert last in list;
      forall name ensures name in front <==> name in names - {last} {
        if name in names - {last} {
          var i :| 0 <= i < |list| && list[i] == name;
          assert front[i] == name;
        }
      }
      HoldsOnce(front, names - {last});
      assert names == (names - {last}) + {last};
    }
  }

  lemma {:induction false} OnceHolds(list: seq<string>, names: set<string>)
    requires multiset(list) == multiset(names)
    ensures Holds(list, names)
  {
    forall name ensures name in list <==> name in names {
      assert name in multiset(list) <==> name in multiset(names);
    }
    forall i, j | 0 <= i < j < |list| ensures list[i] != list[j] {
      assert list == list[..i] + [list[i]] + list[i + 1..j] + [list[j]] + list[j + 1..];
      assert list[i] == list[j] ==> multiset(list)[list[i]] >= 2;
    }
  }

  function AddedNames(a: Plan, b: Plan): set<string> { b.groups.Keys - a.groups.Keys }

  function RemovedNames(a: Plan, b: Plan): set<string> { a.groups.Keys - b.groups.Keys }

  function ModifiedNames(a: Plan, b: Plan): set<string> {
    set name | name in a.groups && name in b.groups && a.groups[name] != b.groups[name]
  }

  ghost predicate IsComparison(c: Changes, a: Plan, b: Plan) {
    && (c.enabledChanged <==> a.enabled != b.enabled)
    && Lists(c.added, AddedNames(a, b)) && Lists(c.removed, RemovedNames(a, b)) && Lists(c.modified, ModifiedNames(a, b))
  }

  lemma ListsNothing(list: seq<string>, names: set<string>)
    requires Lists(list, names)
    ensures list == [] <==> names == {}
    ensures forall name :: name in list <==> name in names
  {
    if names != {} {
      var name :| name in names;
      assert name in list;
    }
    if list != [] {
      assert list[0] in list;
    }
  }

  lemma ListIsDetermined(a: seq<string>, b: seq<string>, names: set<string>)
    requires Lists(a, names) && Lists(b, names)
    ensures a == b
  {
    TextsAreOrdered();
    HoldsOnce(a, names);
    HoldsOnce(b, names);
    AscendingIsUnique(a, b, AtMost);
  }

  /** The comparison of two plans is one definite result, whatever order the maps are walked in. */
  lemma ComparisonIsDetermined(c: Changes, d: Changes, a: Plan, b: Plan)
    requires IsComparison(c, a, b) && IsComparison(d, a, b)
    ensures c == d
  {
    ListIsDetermined(c.added, d.added, AddedNames(a, b));
    ListIsDetermined(c.removed, d.removed, RemovedNames(a, b));
    ListIsDetermined(c.modified, d.modified, ModifiedNames(a, b));
  }

  /** Plans are the same exactly when the comparison reports no change. */
  lemma SameMeansNoChange(c: Changes, a: Plan, b: Plan)
    requires IsComparison(c, a, b)
    ensures a == b <==> c == Changes(false, [], [], [])
  {
    ListsNothing(c.added, AddedNames(a, b));
    ListsNothing(c.removed, RemovedNames(a, b));
    ListsNothing(c.modified, ModifiedNames(a, b));
    if c == Changes(false, [], [], []) {
      assert a.groups.Keys == b.groups.Keys;
      forall name | name in a.groups ensures a.groups[name] == b.groups[name] {
        assert name !in ModifiedNames(a, b);
      }
      assert a.groups == b.groups;
    }
  }

  /** What a provisioned cluster accepts: nothing provisioned is removed or modified. */
  predicate AppendOnly(c: Changes) { !c.enabledChanged && c.removed == [] && c.modified == [] }

  /** Append-only changes add up to an append-only change, and what was added adds up too. */
  lemma AppendOnlyIsTransitive(ab: Changes, bc: Changes, ac: Changes, a: Plan, b: Plan, c: Plan)
    requires IsComparison(ab, a, b) && IsComparison(bc, b, c) && IsComparison(ac, a, c)
    requires AppendOnly(ab) && AppendOnly(bc)
    ensures AppendOnly(ac)
    ensures forall name :: name in ac.added <==> name in ab.added || name in bc.added
  {
    ListsNothing(ab.added, AddedNames(a, b));
    ListsNothing(ab.removed, RemovedNames(a, b));
    ListsNothing(ab.modified, ModifiedNames(a, b));
    ListsNothing(bc.added, AddedNames(b, c));
    ListsNothing(bc.removed, RemovedNames(b, c));
    ListsNothing(bc.modified, ModifiedNames(b, c));
    ListsNothing(ac.added, AddedNames(a, c));
    ListsNothing(ac.removed, RemovedNames(a, c));
    ListsNothing(ac.modified, ModifiedNames(a, c));
    forall name | name in a.groups ensures name in c.groups && c.groups[name] == a.groups[name] {
      assert name !in RemovedNames(a, b) && name !in ModifiedNames(a, b);
      assert name !in RemovedNames(b, c) && name !in ModifiedNames(b, c);
    }
  }

  // ---------------------------------------------------------------- the code

  method ReadTaints(value: Value) returns (taints: seq<Taint>)
    ensures taints == TaintsOf(value)
  {
    taints := [];
    if value.List? {
      var i := 0;
      while i < |value.items|
        invariant 0 <= i <= |value.items|
        invariant taints == ListedTaints(value.items[..i])
      {
        assert value.items[..i + 1][..i] == value.items[..i];
        if value.items[i].Object? {
          taints := taints + [TaintOf(value.items[i].fields)];
        }
        i := i + 1;
      }
      assert value.items[..i] == value.items;
    }
  }

  method ReadLabels(value: Value) returns (labels: map<string, string>)
    ensures labels == LabelsOf(value)
  {
    labels := map[];
    if value.Object? {
      var rest := value.fields.Keys;
      while rest != {}
        invariant rest <= value.fields.Keys && labels.Keys == value.fields.Keys - rest
        invariant forall key | key in labels :: labels[key] == StringValue(value.fields[key])
        decreases rest
      {
        var key :| key in rest;
        labels := labels[key := StringValue(value.fields[key])];
        rest := rest - {key};
      }
    }
  }

  method ReadPlacement(group: Fields) returns (placement: Placement)
    ensures placement == PlacementOf(group)
  {
    var types := Region.StringListOf(Get(group, "instance_types"));
    var zones := Region.StringListOf(Get(group, "availability_zones"));
    var capacityType := StringValue(Get(group, "capacity_type"));
    if capacityType == "" {
      capacityType := ON_DEMAND;
    }
    var amiType := StringValue(Get(group, "ami_type"));
    if amiType == "" {
      amiType := AL2023;
    }
    var labels := ReadLabels(Get(group, "labels"));
    var taints := ReadTaints(Get(group, "taints"));
    return Placement(Sorted(types, AtMost), Sorted(zones, AtMost), capacityType, StringValue(Get(group, "subnet_type")),
                     amiType, IntValue(Get(group, "disk_size")), labels, Sorted(taints, TaintAtMost));
  }

  lemma PlanIs(doc: Fields, placements: map<string, Placement>)
    requires forall name :: name in placements <==> name in NodeGroups(doc) && NodeGroups(doc)[name].Object?
    requires forall name | name in placements :: placements[name] == PlacementOf(NodeGroups(doc)[name].fields)
    ensures placements == PlanOf(doc).groups
  {
  }

  method SchedulingPlan(doc: Fields) returns (plan: Plan)
    ensures plan == PlanOf(doc)
  {
    var groups := NodeGroups(doc);
    var placements: map<string, Placement> := map[];
    var rest := groups.Keys;
    while rest != {}
      invariant rest <= groups.Keys
      invariant forall name :: name in placements <==> name in groups && name !in rest && groups[name].Object?
      invariant forall name | name in placements :: placements[name] == PlacementOf(groups[name].fields)
      decreases rest
    {
      var name :| name in rest;
      if groups[name].Object? {
        var placement := ReadPlacement(groups[name].fields);
        placements := placements[name := placement];
      }
      rest := rest - {name};
    }
    PlanIs(doc, placements);
    return Plan(IsEnabled(doc), placements);
  }

  method SameSchedulingPlan(current: Fields, next: Fields) returns (same: bool)
    ensures same <==> PlanOf(current) == PlanOf(next)
  {
    var a := SchedulingPlan(current);
    var b := SchedulingPlan(next);
    return a == b;
  }

  /** The names were appended in the order the map gave them; sorting makes the list definite. */
  method SortedList(names: seq<string>, ghost wanted: set<string>) returns (list: seq<string>)
    requires Holds(names, wanted)
    ensures Lists(list, wanted)
  {
    TextsAreOrdered();
    SortedIsAscending(names, AtMost);
    HoldsOnce(names, wanted);
    list := Sorted(names, AtMost);
    OnceHolds(list, wanted);
  }

  /** One more name has been looked at. */
  lemma OneMoreName(list: seq<string>, names: set<string>, seen: set<string>, name: string)
    requires Holds(list, names * seen) && name !in seen
    ensures Holds(if name in names then list + [name] else list, names * (seen + {name}))
  {
    if name in names {
      assert names * (seen + {name}) == names * seen + {name};
      forall k ensures k in list + [name] <==> k in names * seen + {name} {
        assert k in list <==> k in names * seen;
      }
    } else {
      assert names * (seen + {name}) == names * seen;
    }
  }

  method LostAndModified(a: Plan, b: Plan) returns (removed: seq<string>, modified: seq<string>)
    ensures Holds(removed, RemovedNames(a, b)) && Holds(modified, ModifiedNames(a, b))
  {
    removed, modified := [], [];
    var rest := a.groups.Keys;
    ghost var seen: set<string> := {};
    assert RemovedNames(a, b) * seen == {} && ModifiedNames(a, b) * seen == {};
    while rest != {}
      invariant seen + rest == a.groups.Keys && seen !! rest
      invariant Holds(removed, RemovedNames(a, b) * seen) && Holds(modified, ModifiedNames(a, b) * seen)
      decreases rest
    {
      var name :| name in rest;
      OneMoreName(removed, RemovedNames(a, b), seen, name);
      OneMoreName(modified, ModifiedNames(a, b), seen, name);
      if name !in b.groups {
        removed := removed + [name];
      } else if a.groups[name] != b.groups[name] {
        modified := modified + [name];
      }
      rest, seen := rest - {name}, seen + {name};
    }
    assert RemovedNames(a, b) * seen == RemovedNames(a, b) && ModifiedNames(a, b) * seen == ModifiedNames(a, b);
  }

  method NewNames(a: Plan, b: Plan) returns (added: seq<string>)
    ensures Holds(added, AddedNames(a, b))
  {
    added := [];
    var rest := b.groups.Keys;
    ghost var seen: set<string> := {};
    assert AddedNames(a, b) * seen == {};
    while rest != {}
      invariant seen + rest == b.groups.Keys && seen !! rest
      invariant Holds(added, AddedNames(a, b) * seen)
      decreases rest
    {
      var name :| name in rest;
      OneMoreName(added, AddedNames(a, b), seen, name);
      if name !in a.groups {
        added := added + [name];
      }
      rest, seen := rest - {name}, seen + {name};
    }
    assert AddedNames(a, b) * seen == AddedNames(a, b);
  }

  method CompareSchedulingPlans(current: Fields, next: Fields) returns (changes: Changes)
    ensures IsComparison(changes, PlanOf(current), PlanOf(next))
    ensures changes.enabledChanged <==> PlanOf(current).enabled != PlanOf(next).enabled
    ensures forall name :: name in changes.added <==> name !in PlanOf(current).groups && name in PlanOf(next).groups
    ensures forall name :: name in changes.removed <==> name in PlanOf(current).groups && name !in PlanOf(next).groups
    ensures forall name :: name in changes.modified <==>
      && name in PlanOf(current).groups && name in PlanOf(next).groups
      && PlanOf(current).groups[name] != PlanOf(next).groups[name]
  {
    var a := SchedulingPlan(current);
    var b := SchedulingPlan(next);
    var removed, modified := LostAndModified(a, b);
    var added := NewNames(a, b);
    removed := SortedList(removed, RemovedNames(a, b));
    modified := SortedList(modified, ModifiedNames(a, b));
    added := SortedList(added, AddedNames(a, b));
    return Changes(a.enabled != b.enabled, added, removed, modified);
  }
}
