/** `NormalizeManagedNodeGroupTaints` and `ConfigureNewEnvironmentScheduling` of internal/environment/scheduling.go. */
module NewScheduling {
  import opened Options
  import opened Documents
  import opened Ordering
  import opened Decimals

  // ---------------------------------------------------------------- taints

  const ROLE := "workload-class"
  const APPLICATION := "application"
  const PLATFORM := "platform"

  /** The role a node group is labelled with. */
  function RoleOf(group: Value): string {
    StringValue(Get(FieldsOf(Get(FieldsOf(group), "labels")), ROLE))
  }

  /** The one taint of business nodes. */
  function ApplicationTaints(): Value {
    List([Object(map["key" := Text(ROLE), "value" := Text(APPLICATION), "effect" := Text("NO_SCHEDULE")])])
  }

  /** A group under the platform's contract: only business nodes are tainted. */
  function Normalized(group: Value): Value {
    if !group.Object? then group
    else Object(group.fields["taints" := if RoleOf(group) == APPLICATION then ApplicationTaints() else List([])])
  }

  function AllNormalized(groups: Fields): Fields {
    map name | name in groups :: Normalized(groups[name])
  }

  function TaintsNormalized(doc: Fields): Fields {
    if HasNodeGroups(doc) then WithNodeGroups(doc, AllNormalized(NodeGroups(doc))) else doc
  }

  /** The role is the label workload-class. */
  lemma RoleMeans(group: Value)
    ensures RoleOf(group) != "" ==>
      && group.Object? && "labels" in group.fields && group.fields["labels"].Object?
      && "workload-class" in group.fields["labels"].fields && group.fields["labels"].fields["workload-class"].Text?
      && RoleOf(group) == Trim(group.fields["labels"].fields["workload-class"].s)
    ensures forall labels: Fields | group.Object? && Get(group.fields, "labels") == Object(labels) ::
      RoleOf(group) == StringValue(Get(labels, "workload-class"))
  {
  }

  /** A business group carries the one taint, every other group none, and nothing else about a group changes. */
  lemma NormalizedMeans(group: Value, key: string)
    ensures group.Object? ==>
      && Normalized(group).Object?
      && Get(Normalized(group).fields, "taints") == (if RoleOf(group) == "application"
           then List([Object(map["key" := Text("workload-class"), "value" := Text("application"), "effect" := Text("NO_SCHEDULE")])])
           else List([]))
      && (key != "taints" ==> Get(Normalized(group).fields, key) == Get(group.fields, key))
    ensures !group.Object? ==> Normalized(group) == group
  {
  }

  /** Normalizing concerns the node groups only, and all of them. */
  lemma TaintsNormalizedMeans(doc: Fields, key: string, part: string, name: string)
    ensures var after := TaintsNormalized(doc);
      && HasNodeGroups(after) == HasNodeGroups(doc) && NodeGroups(after).Keys == NodeGroups(doc).Keys
      && (name in NodeGroups(doc) ==> NodeGroups(after)[name] == Normalized(NodeGroups(doc)[name]))
      && (key != "eks" ==> Get(after, key) == Get(doc, key))
      && (part != "node_groups" ==> Get(Section(after, "eks"), part) == Get(Section(doc, "eks"), part))
  {
    NodeGroupsAre(doc, AllNormalized(NodeGroups(doc)), key, part);
  }

  /** Normalizing once is enough. */
  lemma NormalizedIsStable(group: Value)
    ensures Normalized(Normalized(group)) == Normalized(group)
  {
    if group.Object? {
      assert Normalized(Normalized(group)).fields == Normalized(group).fields;
    }
  }

  lemma SecondNormalizationChangesNothing(doc: Fields)
    ensures TaintsNormalized(TaintsNormalized(doc)) == TaintsNormalized(doc)
  {
    if HasNodeGroups(doc) {
      var groups := NodeGroups(doc);
      forall name | name in groups ensures AllNormalized(AllNormalized(groups))[name] == AllNormalized(groups)[name] {
        NormalizedIsStable(groups[name]);
      }
      assert AllNormalized(AllNormalized(groups)) == AllNormalized(groups);
      assert NodeGroups(TaintsNormalized(doc)) == AllNormalized(groups);
      assert FieldsOf(TaintsNormalized(doc)["eks"])["node_groups" := Object(AllNormalized(groups))] == FieldsOf(TaintsNormalized(doc)["eks"]);
    }
  }

  method NormalizeGroups(found: Fields) returns (groups: Fields)
    ensures groups == AllNormalized(found)
  {
    groups := found;
    var rest := found.Keys;
    while rest != {}
      invariant rest <= found.Keys == groups.Keys
      invariant forall name | name in rest :: groups[name] == found[name]
      invariant forall name | name in found && name !in rest :: groups[name] == Normalized(found[name])
      decreases rest
    {
      var name :| name in rest;
      groups := groups[name := Normalized(groups[name])];
      rest := rest - {name};
    }
  }

  method NormalizeManagedNodeGroupTaints(doc: Document)
    modifies doc
    ensures doc.fields == TaintsNormalized(old(doc.fields))
  {
    if HasNodeGroups(doc.fields) {
      var groups := NormalizeGroups(NodeGroups(doc.fields));
      doc.fields := WithNodeGroups(doc.fields, groups);
    }
  }

  // ---------------------------------------------------------------- a name nobody has

  const BASE := "platform-ops"

  /** The names that are tried, in order: the base, then the base with 2, 3, … */
  function Candidate(i: nat): string {
    if i == 0 then BASE else BASE + ("-" + Digits(i + 1))
  }

  lemma CandidatesAre(i: nat)
    ensures Candidate(0) == "platform-ops"
    ensures i > 0 ==> Candidate(i) == "platform-ops-" + Digits(i + 1)
  {
    assert "platform-ops" + "-" == "platform-ops-";
    assert BASE + ("-" + Digits(i + 1)) == (BASE + "-") + Digits(i + 1);
  }

  /** All earlier candidates are taken. */
  ghost predicate IsNextName(groups: Fields, name: string, i: nat) {
    name == Candidate(i) && IsFree(groups, name) && forall j: nat | j < i :: !IsFree(groups, Candidate(j))
  }

  lemma CandidatesDiffer(i: nat, j: nat)
    requires Candidate(i) == Candidate(j)
    ensures i == j
  {
    var n := |BASE|;
    if i > 0 && j > 0 {
      assert Candidate(i)[n..] == "-" + Digits(i + 1) && Candidate(j)[n..] == "-" + Digits(j + 1);
      assert (("-" + Digits(i + 1))[1..]) == Digits(i + 1) && (("-" + Digits(j + 1))[1..]) == Digits(j + 1);
      DigitsDiffer(i + 1, j + 1);
    } else {
      assert i > 0 ==> |Candidate(i)| > n;
      assert j > 0 ==> |Candidate(j)| > n;
    }
  }

  /** A name is free if nothing, or null, is stored under it. */
  predicate IsFree(groups: Fields, name: string) { Get(groups, name).Null? }

  /** The first candidate that is free. The loop ends because all candidates tried are different names of the map. */
  method FreshName(groups: Fields) returns (name: string, ghost index: nat)
    ensures name == Candidate(index) && IsFree(groups, name)
    ensures forall i | 0 <= i < index :: !IsFree(groups, Candidate(i))
  {
    name, index := BASE, 0;
    ghost var tried: set<string> := {};
    var suffix := 2;
    while !IsFree(groups, name)
      invariant name == Candidate(index) && suffix == index + 2
      invariant forall i | 0 <= i < index :: !IsFree(groups, Candidate(i)) && Candidate(i) in tried
      invariant tried <= groups.Keys
      invariant forall t | t in tried :: exists i | 0 <= i < index :: Candidate(i) == t
      decreases groups.Keys - tried
    {
      assert name in groups;
      if name in tried {
        var i :| 0 <= i < index && Candidate(i) == name;
        CandidatesDiffer(i, index);
        assert false;
      }
      tried := tried + {name};
      name := BASE + ("-" + Digits(suffix));
      index, suffix := index + 1, suffix + 1;
    }
  }

  // ---------------------------------------------------------------- the application / platform split

  predicate HasRole(groups: Fields, role: string) {
    exists name | name in groups :: RoleOf(groups[name]) == role
  }

  /** The group labelled as a business group. */
  function WithRole(group: Value): Value {
    Object(FieldsOf(group)["labels" := Object(FieldsOf(Get(FieldsOf(group), "labels"))[ROLE := Text(APPLICATION)])])
  }

  lemma WithRoleHasIt(group: Value)
    ensures RoleOf(WithRole(group)) == "application"
    ensures forall key :: key != "labels" ==> Get(FieldsOf(WithRole(group)), key) == Get(FieldsOf(group), key)
    ensures forall tag :: tag != "workload-class" ==>
      Get(Section(FieldsOf(WithRole(group)), "labels"), tag) == Get(Section(FieldsOf(group), "labels"), tag)
  {
    assert Trimmed(APPLICATION) by {
      assert !IsSpace('a') && !IsSpace('n');
    }
  }

  predicate IsFirst(groups: Fields, name: string) {
    name in groups && forall other | other in groups :: AtMost(name, other)
  }

  /** Which group is relabelled, and under which name the platform group is added. */
  ghost predicate Chosen(groups: Fields, first: Option<string>, added: Option<string>) {
    && (first.Some? ==> !HasRole(groups, APPLICATION) && IsFirst(groups, first.value) && groups[first.value].Object?)
    && (first.None? ==> HasRole(groups, APPLICATION) || forall name | IsFirst(groups, name) :: !groups[name].Object?)
    && (added.None? <==> HasRole(groups, PLATFORM))
    && (added.Some? ==> exists i :: IsNextName(groups, added.value, i))
  }

  function Split(groups: Fields, first: Option<string>, added: Option<string>, platform: Fields): Fields
    requires first.Some? ==> first.value in groups
  {
    var relabelled := if first.Some? then groups[first.value := WithRole(groups[first.value])] else groups;
    if added.Some? then relabelled[added.value := Object(platform)] else relabelled
  }

  /** No group is lost or overwritten, and only one may get another label. */
  lemma NoGroupIsLost(groups: Fields, first: Option<string>, added: Option<string>, platform: Fields, name: string)
    requires Chosen(groups, first, added) && name in groups && !groups[name].Null?
    ensures var after := Split(groups, first, added, platform);
      name in after && after[name] == if first == Some(name) then WithRole(groups[name]) else groups[name]
  {
  }

  lemma ApplicationRoleByChoice(groups: Fields, first: Option<string>, added: Option<string>, platform: Fields)
    requires Chosen(groups, first, added) && RoleOf(Object(platform)) == "platform"
    ensures HasRole(Split(groups, first, added, platform), "application") <==> HasRole(groups, "application") || first.Some?
  {
    var after := Split(groups, first, added, platform);
    assert PLATFORM[0] == 'p' && APPLICATION[0] == 'a';
    if first.Some? {
      WithRoleHasIt(groups[first.value]);
      assert RoleOf(after[first.value]) == APPLICATION;
    }
    if HasRole(groups, APPLICATION) {
      var name :| name in groups && RoleOf(groups[name]) == APPLICATION;
      assert RoleOf(after[name]) == APPLICATION;
    }
    assert added.Some? ==> after[added.value] == Object(platform);
  }

  lemma PlatformRoleByChoice(groups: Fields, first: Option<string>, added: Option<string>, platform: Fields)
    requires Chosen(groups, first, added) && RoleOf(Object(platform)) == "platform"
    ensures HasRole(Split(groups, first, added, platform), "platform") <==>
      !HasRole(groups, "platform") || exists name | name in groups :: RoleOf(groups[name]) == "platform" && first != Some(name)
  {
    var after := Split(groups, first, added, platform);
    assert PLATFORM[0] == 'p' && APPLICATION[0] == 'a';
    if first.Some? {
      WithRoleHasIt(groups[first.value]);
    }
    if added.Some? {
      assert RoleOf(after[added.value]) == PLATFORM;
    } else {
      if name :| name in groups && RoleOf(groups[name]) == PLATFORM && first != Some(name) {
        assert after[name] == groups[name];
      }
      if HasRole(after, PLATFORM) {
        var name :| name in after && RoleOf(after[name]) == PLATFORM;
        assert first != Some(name) && after[name] == groups[name];
      }
    }
  }

  /** There is a business group afterwards exactly when there was one, or the group with the least name is an object. */
  lemma ApplicationRoleExactly(groups: Fields, first: Option<string>, added: Option<string>, platform: Fields)
    requires Chosen(groups, first, added) && RoleOf(Object(platform)) == "platform"
    ensures HasRole(Split(groups, first, added, platform), "application") <==>
      HasRole(groups, "application") || exists name | IsFirst(groups, name) :: groups[name].Object?
  {
    ApplicationRoleByChoice(groups, first, added, platform);
    if first.Some? {
      assert IsFirst(groups, first.value);
    }
  }

  /** There is no platform group afterwards exactly when there was no business group and the group with the least name
      was the only platform group. */
  lemma PlatformRoleExactly(groups: Fields, first: Option<string>, added: Option<string>, platform: Fields)
    requires Chosen(groups, first, added) && RoleOf(Object(platform)) == "platform"
    ensures !HasRole(Split(groups, first, added, platform), "platform") <==>
      && !HasRole(groups, "application") && HasRole(groups, "platform")
      && forall name | name in groups && RoleOf(groups[name]) == "platform" :: IsFirst(groups, name)
  {
    PlatformRoleByChoice(groups, first, added, platform);
    forall name, other | IsFirst(groups, name) && IsFirst(groups, other) ensures name == other {
      OnlyOneFirst(groups, name);
    }
    forall name | name in groups && RoleOf(groups[name]) == PLATFORM ensures groups[name].Object? {
      assert PLATFORM != "";
    }
  }

  /** A single platform group named first becomes the business group, and no platform group takes its place. */
  lemma LonePlatformGroupIsLost(name: string, labels: Fields, platform: Fields)
    requires StringValue(Get(labels, "workload-class")) == "platform" && RoleOf(Object(platform)) == "platform"
    ensures var groups := map[name := Object(map["labels" := Object(labels)])];
      && Chosen(groups, Some(name), None)
      && !HasRole(Split(groups, Some(name), None, platform), "platform")
  {
    var groups: Fields := map[name := Object(map["labels" := Object(labels)])];
    assert RoleOf(groups[name]) == PLATFORM;
    assert PLATFORM[0] == 'p' && APPLICATION[0] == 'a';
    TextsAreOrdered();
    assert IsFirst(groups, name) by {
      assert AtMost(name, name);
    }
    PlatformRoleByChoice(groups, Some(name), None, platform);
  }

  // ---------------------------------------------------------------- the code

  /** The loop over the groups: their names, and the roles they have. */
  method CollectGroups(groups: Fields) returns (names: seq<string>, application: bool, platform: bool)
    ensures forall name :: name in names <==> name in groups
    ensures application == HasRole(groups, APPLICATION) && platform == HasRole(groups, PLATFORM)
  {
    names, application, platform := [], false, false;
    var rest := groups.Keys;
    while rest != {}
      invariant rest <= groups.Keys
      invariant forall name :: name in names <==> name in groups && name !in rest
      invariant application <==> exists name | name in groups && name !in rest :: RoleOf(groups[name]) == APPLICATION
      invariant platform <==> exists name | name in groups && name !in rest :: RoleOf(groups[name]) == PLATFORM
      decreases rest
    {
      var name :| name in rest;
      names := names + [name];
      var role := RoleOf(groups[name]);
      if role == APPLICATION {
        application := true;
      }
      if role == PLATFORM {
        platform := true;
      }
      rest := rest - {name};
    }
  }

  method SplitGroups(found: Fields, platform: Fields) returns (groups: Fields, ghost first: Option<string>, ghost added: Option<string>)
    ensures Chosen(found, first, added) && groups == Split(found, first, added, platform)
  {
    var names, hasApplication, hasPlatform := CollectGroups(found);
    var sorted := SortNames(names);
    groups, first, added := found, None, None;
    if sorted != [] {
      OnlyOneFirst(found, sorted[0]);
    }
    if !hasApplication && sorted != [] {
      if found[sorted[0]].Object? {
        groups, first := found[sorted[0] := WithRole(found[sorted[0]])], Some(sorted[0]);
      }
    }
    if !hasPlatform {
      groups, added := AddPlatform(found, groups, first, platform);
    }
  }

  method AddPlatform(ghost found: Fields, relabelled: Fields, ghost first: Option<string>, platform: Fields)
    returns (groups: Fields, ghost added: Option<string>)
    requires first.Some? ==> first.value in found && found[first.value].Object?
    requires relabelled == Split(found, first, None, platform)
    ensures added.Some? && (exists i :: IsNextName(found, added.value, i)) && groups == Split(found, first, added, platform)
  {
    ghost var index;
    var name;
    name, index := FreshName(relabelled);
    assert forall n :: IsFree(relabelled, n) == IsFree(found, n);
    assert IsNextName(found, name, index);
    groups, added := relabelled[name := Object(platform)], Some(name);
  }

  lemma OnlyOneFirst(groups: Fields, name: string)
    requires IsFirst(groups, name)
    ensures forall other | IsFirst(groups, other) :: other == name
  {
    TextsAreOrdered();
  }

  method SortNames(names: seq<string>) returns (sorted: seq<string>)
    ensures |sorted| == |names| && forall name :: name in sorted <==> name in names
    ensures sorted != [] ==> forall name | name in names :: AtMost(sorted[0], name)
  {
    sorted := Sorted(names, AtMost);
    TextsAreOrdered();
    SortedIsAscending(names, AtMost);
    assert |multiset(sorted)| == |multiset(names)|;
    forall name ensures name in sorted <==> name in names {
      assert name in multiset(sorted) <==> name in multiset(names);
    }
    if sorted != [] {
      forall name | name in names ensures AtMost(sorted[0], name) {
        assert name in sorted;
        var i :| 0 <= i < |sorted| && sorted[i] == name;
        assert AtMost(sorted[0], sorted[0]);
      }
    }
  }

  predicate IsExistingEKS(doc: Fields) {
    StringValue(Get(FieldsOf(Get(doc, "deployment_target")), "type")) == "existing_eks"
  }

  function WithScheduling(doc: Fields, enabled: bool): Fields {
    doc["eks" := Object(FieldsOf(Get(doc, "eks"))["workload_scheduling" := Object(map["enabled" := Bool(enabled)])])]
  }

  /** The switch is written, and nothing else. */
  lemma SchedulingMeans(doc: Fields, enabled: bool, key: string, part: string)
    requires Get(doc, "eks").Object?
    ensures Get(Section(WithScheduling(doc, enabled), "eks"), "workload_scheduling") == Object(map["enabled" := Bool(enabled)])
    ensures key != "eks" ==> Get(WithScheduling(doc, enabled), key) == Get(doc, key)
    ensures part != "workload_scheduling" ==> Get(Section(WithScheduling(doc, enabled), "eks"), part) == Get(Section(doc, "eks"), part)
    ensures IsExistingEKS(doc) <==> StringValue(Get(Section(doc, "deployment_target"), "type")) == "existing_eks"
  {
  }

  lemma AddedIsPlatform(groups: Fields, first: Option<string>, added: Option<string>, platform: Fields)
    requires Chosen(groups, first, added) && added.Some?
    ensures Get(Split(groups, first, added, platform), added.value) == Object(platform)
    ensures forall name | name in Split(groups, first, added, platform) :: name in groups || name == added.value
  {
  }

  /** The groups of a document, if it has any, are split and normalized. */
  ghost predicate IsSplit(before: Fields, after: Fields, first: Option<string>, added: Option<string>, platform: Fields) {
    if !HasNodeGroups(before) then after == before
    else
      && Chosen(NodeGroups(before), first, added)
      && after == TaintsNormalized(WithNodeGroups(before, Split(NodeGroups(before), first, added, platform)))
  }

  /** `ConfigureNewEnvironmentScheduling`; `platform` is the platform group of the default document, moved to the
      region of this one. */
  method ConfigureNewEnvironmentScheduling(doc: Document, platform: Fields) returns (ghost first: Option<string>, ghost added: Option<string>)
    modifies doc
    ensures !Get(old(doc.fields), "eks").Object? ==> doc.fields == old(doc.fields)
    ensures Get(old(doc.fields), "eks").Object? && IsExistingEKS(old(doc.fields)) ==>
      doc.fields == TaintsNormalized(WithScheduling(old(doc.fields), false))
    ensures Get(old(doc.fields), "eks").Object? && !IsExistingEKS(old(doc.fields)) ==>
      IsSplit(WithScheduling(old(doc.fields), true), doc.fields, first, added, platform)
  {
    first, added := None, None;
    if !Get(doc.fields, "eks").Object? {
      return;
    }
    if IsExistingEKS(doc.fields) {
      doc.fields := WithScheduling(doc.fields, false);
      NormalizeManagedNodeGroupTaints(doc);
      return;
    }
    doc.fields := WithScheduling(doc.fields, true);
    if !HasNodeGroups(doc.fields) {
      return;
    }
    var groups;
    groups, first, added := SplitGroups(NodeGroups(doc.fields), platform);
    doc.fields := WithNodeGroups(doc.fields, groups);
    NormalizeManagedNodeGroupTaints(doc);
  }
}
