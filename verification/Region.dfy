/** `ConfigureRegion` of internal/environment/region.go: the region of a document and every zone name that depends
    on it move together. */
module Region {
  import opened Options
  import opened Documents
  import opened Cidr
  import opened Network

  predicate IsLower(c: char) { 'a' <= c <= 'z' }

  /** `-[a-z]+-[0-9]` */
  predicate IsRegionTail(t: string) {
    && |t| >= 4 && t[0] == '-' && t[|t| - 2] == '-' && '0' <= t[|t| - 1] <= '9'
    && forall i | 1 <= i < |t| - 2 :: IsLower(t[i])
  }

  /** `^[a-z]{2}(?:-gov)?-[a-z]+-[0-9]$` */
  predicate IsRegion(s: string) {
    && |s| >= 2 && IsLower(s[0]) && IsLower(s[1])
    && (IsRegionTail(s[2..]) || ("-gov" <= s[2..] && IsRegionTail(s[6..])))
  }

  function Zones(region: string): seq<string> { [region + "a", region + "b", region + "c"] }

  function ZoneList(region: string): Value {
    List([Text(region + "a"), Text(region + "b"), Text(region + "c")])
  }

  /** The texts of a list, without the empty ones. */
  function StringList(value: Value): (texts: seq<string>) {
    if value.List? then NonEmpty(value.items) else []
  }

  function NonEmpty(items: seq<Value>): (texts: seq<string>) {
    if items == [] then []
    else if StringValue(items[0]) != "" then [StringValue(items[0])] + NonEmpty(items[1..])
    else NonEmpty(items[1..])
  }

  lemma {:induction false} StringsOneByOne(before: seq<Value>, after: seq<Value>, item: Value)
    ensures NonEmpty(before + after) == NonEmpty(before) + NonEmpty(after)
    ensures NonEmpty([item]) == if item.Text? && Trim(item.s) != "" then [Trim(item.s)] else []
    decreases |before|
  {
    assert [item][1..] == [];
    if before == [] {
      assert before + after == after;
    } else {
      assert (before + after)[1..] == before[1..] + after;
      StringsOneByOne(before[1..], after, item);
    }
  }

  function SubnetValues(zones: seq<string>, subnets: Fields): (values: seq<string>)
    ensures |values| == |zones| && forall i | 0 <= i < |zones| :: values[i] == StringValue(Get(subnets, zones[i]))
  {
    seq(|zones|, i requires 0 <= i < |zones| => StringValue(Get(subnets, zones[i])))
  }

  function ValueOr(values: seq<string>, index: nat, fallback: string): string {
    if index < |values| && values[index] != "" then values[index] else fallback
  }

  const PUBLIC_DEFAULTS := ["10.40.0.0/20", "10.40.16.0/20", "10.40.32.0/20"]
  const PRIVATE_DEFAULTS := ["10.40.64.0/20", "10.40.80.0/20", "10.40.96.0/20"]

  function Subnets(region: string, values: seq<string>, defaults: seq<string>): Value
    requires |defaults| == 3
  {
    Object(map[region + "a" := Text(ValueOr(values, 0, defaults[0])),
               region + "b" := Text(ValueOr(values, 1, defaults[1])),
               region + "c" := Text(ValueOr(values, 2, defaults[2]))])
  }

  function MovedNetwork(network: Fields, region: string): (moved: Fields) {
    var listed := StringList(Get(network, "availability_zones"));
    var publicValues := SubnetValues(listed, FieldsOf(Get(network, "public_subnets")));
    var privateValues := SubnetValues(listed, FieldsOf(Get(network, "private_subnets")));
    network["availability_zones" := ZoneList(region)]
           ["workload_subnet_zones" := ZoneList(region)]
           ["data_subnet_zones" := ZoneList(region)]
           ["public_subnets" := Subnets(region, publicValues, PUBLIC_DEFAULTS)]
           ["private_subnets" := Subnets(region, privateValues, PRIVATE_DEFAULTS)]
  }

  function MovedGroup(group: Value, region: string): Value {
    if group.Object? then Object(group.fields["availability_zones" := ZoneList(region)]) else group
  }

  function MovedGroups(groups: Fields, region: string): Fields {
    map name | name in groups :: MovedGroup(groups[name], region)
  }

  function MovedEks(eks: Value, region: string): Value {
    if eks.Object? && Get(eks.fields, "node_groups").Object?
    then Object(eks.fields["node_groups" := Object(MovedGroups(Get(eks.fields, "node_groups").fields, region))])
    else eks
  }

  /** The document after the call; a document without a network object only learns the region. */
  function Moved(doc: Fields, region: string): Fields {
    var named := doc["region" := Text(region)];
    if !Get(doc, "network").Object? then named
    else
      var networked := named["network" := Object(MovedNetwork(doc["network"].fields, region))];
      if "eks" in networked then networked["eks" := MovedEks(networked["eks"], region)] else networked
  }

  // ---------------------------------------------------------------- the code

  method StringListOf(value: Value) returns (result: seq<string>)
    ensures result == StringList(value)
  {
    result := [];
    var items := if value.List? then value.items else [];
    for i := 0 to |items|
      invariant result + NonEmpty(items[i..]) == NonEmpty(items)
    {
      var text := StringValue(items[i]);
      NextText(items, i, result);
      if text != "" {
        result := result + [text];
      }
    }
  }

  lemma NextText(items: seq<Value>, i: nat, before: seq<string>)
    requires i < |items|
    ensures before + NonEmpty(items[i..]) ==
      (if StringValue(items[i]) != "" then before + [StringValue(items[i])] else before) + NonEmpty(items[i + 1..])
  {
    assert items[i..][0] == items[i] && items[i..][1..] == items[i + 1..];
    Regroup(before, [StringValue(items[i])], NonEmpty(items[i + 1..]));
  }

  lemma Regroup(a: seq<string>, b: seq<string>, c: seq<string>)
    ensures a + (b + c) == a + b + c
  {
  }

  method SubnetValuesOf(zones: seq<string>, subnets: Fields) returns (result: seq<string>)
    ensures result == SubnetValues(zones, subnets)
  {
    result := [];
    for i := 0 to |zones|
      invariant result == SubnetValues(zones[..i], subnets)
    {
      result := result + [StringValue(Get(subnets, zones[i]))];
    }
    assert zones[..|zones|] == zones;
  }

  method MoveGroups(groups: Fields, region: string) returns (moved: Fields)
    ensures moved == MovedGroups(groups, region)
  {
    moved := groups;
    var rest := groups.Keys;
    while rest != {}
      invariant rest <= groups.Keys
      invariant moved == map name | name in groups :: if name in rest then groups[name] else MovedGroup(groups[name], region)
      decreases rest
    {
      var name :| name in rest;
      rest := rest - {name};
      if groups[name].Object? {
        moved := moved[name := Object(groups[name].fields["availability_zones" := ZoneList(region)])];
      }
    }
  }

  method ConfigureRegion(doc: Document, code: string) returns (ok: bool)
    modifies doc
    ensures ok <==> IsRegion(Trim(code)) && Get(old(doc.fields), "network").Object?
    ensures doc.fields == if IsRegion(Trim(code)) then Moved(old(doc.fields), Trim(code)) else old(doc.fields)
  {
    var region := Trim(code);
    if !IsRegion(region) {
      return false;
    }
    doc.fields := doc.fields["region" := Text(region)];
    if !Get(doc.fields, "network").Object? {
      return false;
    }
    var network := Get(doc.fields, "network").fields;
    var oldZones := StringListOf(Get(network, "availability_zones"));
    var publicCidrs := SubnetValuesOf(oldZones, FieldsOf(Get(network, "public_subnets")));
    var privateCidrs := SubnetValuesOf(oldZones, FieldsOf(Get(network, "private_subnets")));
    network := network["availability_zones" := ZoneList(region)];
    network := network["workload_subnet_zones" := ZoneList(region)];
    network := network["data_subnet_zones" := ZoneList(region)];
    network := network["public_subnets" := Subnets(region, publicCidrs, PUBLIC_DEFAULTS)];
    network := network["private_subnets" := Subnets(region, privateCidrs, PRIVATE_DEFAULTS)];
    doc.fields := doc.fields["network" := Object(network)];
    var eks := Get(doc.fields, "eks");
    if eks.Object? && Get(eks.fields, "node_groups").Object? {
      var groups := MoveGroups(Get(eks.fields, "node_groups").fields, region);
      doc.fields := doc.fields["eks" := Object(eks.fields["node_groups" := Object(groups)])];
    }
    return true;
  }

  // ---------------------------------------------------------------- zone names

  lemma RegionHasNoSpace(region: string)
    requires IsRegion(region)
    ensures Trimmed(region + "a") && Trimmed(region + "b") && Trimmed(region + "c")
  {
    assert forall c: char | IsLower(c) :: !IsSpace(c);
  }

  lemma ZoneTextsOfMoved(region: string)
    requires IsRegion(region)
    ensures Texts(ZoneList(region).items) == Zones(region)
    ensures NonEmpty(ZoneList(region).items) == Zones(region)
    ensures StringList(ZoneList(region)) == Zones(region)
    ensures Distinct(Zones(region)) && forall z | z in Zones(region) :: ValidZone(z, region)
  {
    RegionHasNoSpace(region);
    var items := ZoneList(region).items;
    assert StringValue(items[0]) == region + "a" && StringValue(items[1]) == region + "b" && StringValue(items[2]) == region + "c";
    assert items[1..][1..] == items[2..] && items[2..][1..] == [];
    assert NonEmpty(items[2..]) == [region + "c"];
    assert NonEmpty(items[1..]) == [region + "b"] + NonEmpty(items[2..]);
    assert (region + "a")[|region|] == 'a' && (region + "b")[|region|] == 'b' && (region + "c")[|region|] == 'c';
  }

  lemma {:induction false} NonEmptyKeepsAll(items: seq<Value>)
    requires forall i | 0 <= i < |items| :: StringValue(items[i]) != ""
    ensures NonEmpty(items) == Texts(items)
    decreases |items|
  {
    if items != [] {
      NonEmptyKeepsAll(items[1..]);
      assert Texts(items) == [StringValue(items[0])] + Texts(items[1..]);
    }
  }

  /** The zones of an accepted network are all listed, in order. */
  lemma AcceptedZones(network: Fields, region: string, parse: Parser)
    requires Accepts(network, region, parse)
    ensures StringList(Get(network, "availability_zones")) == ZoneTexts(network)
  {
    var items := Get(network, "availability_zones").items;
    forall i | 0 <= i < |items| ensures StringValue(items[i]) != "" {
      assert Texts(items)[i] in Texts(items);
      assert ValidZone(Texts(items)[i], region);
    }
    NonEmptyKeepsAll(items);
  }

  /** A region code, taken apart: two letters, perhaps -gov, a word and a digit. */
  predicate IsCode(s: string, country: string, gov: string, word: string, digit: char) {
    && s == country + gov + "-" + word + "-" + [digit]
    && |country| == 2 && gov in {"", "-gov"} && word != "" && '0' <= digit <= '9'
    && forall c | c in country + word :: 'a' <= c <= 'z'
  }

  lemma RegionIsCode(s: string) returns (country: string, gov: string, word: string, digit: char)
    requires IsRegion(s)
    ensures IsCode(s, country, gov, word, digit)
  {
    country := s[..2];
    if IsRegionTail(s[2..]) {
      gov := "";
      word, digit := TailIsCode(s[2..]);
      assert s == country + s[2..];
    } else {
      gov := "-gov";
      word, digit := TailIsCode(s[6..]);
      assert s[2..6] == s[2..][..4] == gov;
      assert s == country + gov + s[6..];
    }
    assert country == [s[0], s[1]];
    LowerParts(country, word);
    JoinCode(country, gov, word, digit);
  }

  lemma TailIsCode(tail: string) returns (word: string, digit: char)
    requires IsRegionTail(tail)
    ensures tail == "-" + word + "-" + [digit] && word != "" && '0' <= digit <= '9'
    ensures forall i | 0 <= i < |word| :: IsLower(word[i])
  {
    word, digit := tail[1..|tail| - 2], tail[|tail| - 1];
    assert forall i | 0 <= i < |word| :: word[i] == tail[i + 1];
  }

  lemma LowerParts(country: string, word: string)
    requires forall i | 0 <= i < |country| :: IsLower(country[i])
    requires forall i | 0 <= i < |word| :: IsLower(word[i])
    ensures forall c | c in country + word :: IsLower(c)
  {
  }

  lemma JoinCode(country: string, gov: string, word: string, digit: char)
    ensures country + gov + ("-" + word + "-" + [digit]) == country + gov + "-" + word + "-" + [digit]
  {
  }

  lemma CodeIsRegion(s: string, country: string, gov: string, word: string, digit: char)
    requires IsCode(s, country, gov, word, digit)
    ensures IsRegion(s)
  {
    var tail := "-" + word + "-" + [digit];
    assert s == country + (gov + tail) && s[2..] == gov + tail;
    assert forall i | 0 <= i < |country| :: country[i] in country + word;
    assert s[0] == country[0] && s[1] == country[1];
    CodeTail(country, word, digit);
    if gov == "" {
      assert s[2..] == tail;
    } else {
      assert s[6..] == tail && "-gov" <= s[2..];
    }
  }

  lemma CodeTail(country: string, word: string, digit: char)
    requires word != "" && '0' <= digit <= '9' && forall c | c in country + word :: 'a' <= c <= 'z'
    ensures IsRegionTail("-" + word + "-" + [digit])
  {
    var tail := "-" + word + "-" + [digit];
    forall i | 1 <= i < |tail| - 2 ensures IsLower(tail[i]) {
      assert tail[i] == word[i - 1] && word[i - 1] in country + word;
    }
  }

  // ---------------------------------------------------------------- what a move writes and what it leaves

  const MOVED_KEYS := {"availability_zones", "workload_subnet_zones", "data_subnet_zones", "public_subnets", "private_subnets"}

  function SubnetValuesIn(network: Fields, group: string): seq<string> {
    SubnetValues(StringList(Get(network, "availability_zones")), FieldsOf(Get(network, group)))
  }

  lemma MovedReads(network: Fields, region: string)
    ensures var moved := MovedNetwork(network, region);
      && Get(moved, "availability_zones") == ZoneList(region)
      && Get(moved, "workload_subnet_zones") == ZoneList(region)
      && Get(moved, "data_subnet_zones") == ZoneList(region)
      && Get(moved, "public_subnets") == Subnets(region, SubnetValuesIn(network, "public_subnets"), PUBLIC_DEFAULTS)
      && Get(moved, "private_subnets") == Subnets(region, SubnetValuesIn(network, "private_subnets"), PRIVATE_DEFAULTS)
  {
  }

  /** The three zones of the target, and the blocks of the platform where the network had none. */
  lemma MoveWrites(network: Fields, region: string, public: bool, i: nat)
    requires i < 3
    ensures forall key | key in {"availability_zones", "workload_subnet_zones", "data_subnet_zones"} ::
      Get(MovedNetwork(network, region), key) == List([Text(region + "a"), Text(region + "b"), Text(region + "c")])
    ensures var group := if public then "public_subnets" else "private_subnets";
      var zones := StringList(Get(network, "availability_zones"));
      var kept := if i < |zones| then StringValue(Get(FieldsOf(Get(network, group)), zones[i])) else "";
      Get(FieldsOf(Get(MovedNetwork(network, region), group)), region + ["abc"[i]]) == Text(
        if kept != "" then kept
        else if public then ["10.40.0.0/20", "10.40.16.0/20", "10.40.32.0/20"][i]
        else ["10.40.64.0/20", "10.40.80.0/20", "10.40.96.0/20"][i])
  {
    MovedReads(network, region);
    SubnetAt(region, SubnetValuesIn(network, Group(public)), if public then PUBLIC_DEFAULTS else PRIVATE_DEFAULTS, i);
    assert Zones(region)[i] == region + ["abc"[i]];
  }

  /** Whatever else is in the cluster section, and in a node group, stays. */
  lemma MoveLeavesTheRest(doc: Fields, region: string, key: string, name: string, setting: string)
    requires Get(doc, "network").Object? && Get(doc, "eks").Object?
    ensures var eks, moved := Get(doc, "eks").fields, FieldsOf(Get(Moved(doc, region), "eks"));
      && moved.Keys == eks.Keys
      && (key != "node_groups" ==> Get(moved, key) == Get(eks, key))
      && (!Get(eks, "node_groups").Object? ==> moved == eks)
      && (Get(eks, "node_groups").Object? && name in Get(eks, "node_groups").fields && setting != "availability_zones" ==>
            (var group := FieldsOf(Get(FieldsOf(Get(moved, "node_groups")), name));
             Get(group, setting) == Get(FieldsOf(Get(Get(eks, "node_groups").fields, name)), setting)))
  {
    MovedDocReads(doc, region);
    var eks := Get(doc, "eks").fields;
    if Get(eks, "node_groups").Object? {
      var groups := Get(eks, "node_groups").fields;
      assert MovedEks(doc["eks"], region).fields == eks["node_groups" := Object(MovedGroups(groups, region))];
    }
  }

  lemma MovedKeeps(network: Fields, region: string, key: string)
    requires key !in MOVED_KEYS
    ensures Get(MovedNetwork(network, region), key) == Get(network, key)
  {
  }

  lemma MovedKeepsBlockTexts(network: Fields, region: string)
    ensures var moved := MovedNetwork(network, region);
      Mode(moved) == Mode(network) && VpcText(moved) == VpcText(network) && ServiceText(moved) == ServiceText(network)
  {
    MovedKeeps(network, region, "mode");
    MovedKeeps(network, region, "existing_vpc_cidr");
    MovedKeeps(network, region, "vpc_cidr");
    MovedKeeps(network, region, "service_ipv4_cidr");
  }

  lemma MovedKeepsSwitches(network: Fields, region: string)
    ensures SwitchesOk(MovedNetwork(network, region)) == SwitchesOk(network)
  {
    MovedKeeps(network, region, "nat_gateway_mode");
    MovedKeeps(network, region, "workload_subnet_type");
    MovedKeeps(network, region, "data_subnet_type");
  }

  lemma MovedKeepsIds(network: Fields, region: string)
    ensures var moved := MovedNetwork(network, region);
      && Get(moved, "existing_vpc_id") == Get(network, "existing_vpc_id")
      && Get(moved, "existing_workload_subnet_ids") == Get(network, "existing_workload_subnet_ids")
      && Get(moved, "existing_data_subnet_ids") == Get(network, "existing_data_subnet_ids")
  {
    MovedKeeps(network, region, "existing_vpc_id");
    MovedKeeps(network, region, "existing_workload_subnet_ids");
    MovedKeeps(network, region, "existing_data_subnet_ids");
  }

  // ---------------------------------------------------------------- a move keeps the network valid

  function Group(public: bool): string { if public then "public_subnets" else "private_subnets" }

  /** The text of the i-th subnet of a group, counted in the order of the zones. */
  function SubnetText(network: Fields, public: bool, i: nat): string
    requires i < |ZoneTexts(network)|
  {
    SlotText(network, Slot(Group(public), ZoneTexts(network)[i]))
  }

  lemma OldSubnetIsThere(network: Fields, region: string, parse: Parser, public: bool, i: nat)
    requires Accepts(network, region, parse) && Mode(network) == "create" && i < 3
    requires parse("").None?
    ensures |ZoneTexts(network)| == 3 && SubnetText(network, public, i) != ""
    ensures ValidSubnet(network, parse, parse(VpcText(network)).value, Slot(Group(public), ZoneTexts(network)[i]))
  {
    var zones := ToSet(ZoneTexts(network));
    assert ZoneTexts(network)[i] in zones;
    assert Slot(Group(public), ZoneTexts(network)[i]) in Slots(zones);
  }

  /** A create-mode network keeps its six block texts, each under the zone in the same place. */
  lemma MoveKeepsBlocks(network: Fields, region: string, target: string, parse: Parser, public: bool, i: nat)
    requires Accepts(network, region, parse) && Mode(network) == "create" && i < 3
    requires parse("").None? && IsRegion(target)
    ensures ZoneTexts(MovedNetwork(network, target)) == Zones(target)
    ensures |ZoneTexts(network)| == 3
    ensures SubnetText(MovedNetwork(network, target), public, i) == SubnetText(network, public, i)
  {
    ZoneTextsOfMoved(target);
    AcceptedZones(network, region, parse);
    OldSubnetIsThere(network, region, parse, public, i);
    MovedReads(network, target);
    var defaults := if public then PUBLIC_DEFAULTS else PRIVATE_DEFAULTS;
    SubnetAt(target, SubnetValuesIn(network, Group(public)), defaults, i);
  }

  lemma SubnetAt(region: string, values: seq<string>, defaults: seq<string>, i: nat)
    requires |defaults| == 3 && i < 3
    ensures Get(FieldsOf(Subnets(region, values, defaults)), Zones(region)[i]) == Text(ValueOr(values, i, defaults[i]))
  {
    ZonesDiffer(region);
  }

  lemma ZonesDiffer(region: string)
    ensures region + "a" != region + "b" && region + "a" != region + "c" && region + "b" != region + "c"
  {
    assert (region + "a")[|region|] == 'a' && (region + "b")[|region|] == 'b' && (region + "c")[|region|] == 'c';
  }

  lemma MovedGroupHasThree(network: Fields, region: string, group: string)
    requires group in GROUPS
    ensures GroupHasThree(MovedNetwork(network, region), group)
  {
    ZonesDiffer(region);
    var fields := Get(MovedNetwork(network, region), group).fields;
    assert fields.Keys == {region + "a", region + "b", region + "c"};
    assert |fields| == |fields.Keys|;
  }

  lemma MovedSlot(network: Fields, region: string, target: string, parse: Parser, public: bool, i: nat)
    requires Accepts(network, region, parse) && Mode(network) == "create" && i < 3
    requires parse("").None? && IsRegion(target)
    ensures |ZoneTexts(network)| == 3
    ensures var source, moved := Slot(Group(public), ZoneTexts(network)[i]), Slot(Group(public), Zones(target)[i]);
      && source in Slots(ToSet(ZoneTexts(network)))
      && SlotText(MovedNetwork(network, target), moved) == SlotText(network, source)
      && ValidSubnet(MovedNetwork(network, target), parse, parse(VpcText(network)).value, moved)
  {
    MoveKeepsBlocks(network, region, target, parse, public, i);
    OldSubnetIsThere(network, region, parse, public, i);
    assert ZoneTexts(network)[i] in ToSet(ZoneTexts(network));
    ZonesDiffer(target);
  }

  /** The place of a slot of the moved network. */
  lemma SlotPlace(target: string, slot: Slot) returns (public: bool, i: nat)
    requires slot in Slots(ToSet(Zones(target)))
    ensures i < 3 && slot == Slot(Group(public), Zones(target)[i])
  {
    public := slot.group == "public_subnets";
    i :| 0 <= i < 3 && Zones(target)[i] == slot.zone;
  }

  lemma MovedSubnetsAccepted(network: Fields, region: string, target: string, parse: Parser)
    requires Accepts(network, region, parse) && Mode(network) == "create"
    requires parse("").None? && IsRegion(target)
    ensures AcceptsSubnets(MovedNetwork(network, target), parse, parse(VpcText(network)).value, ToSet(Zones(target)))
  {
    var moved, vpc := MovedNetwork(network, target), parse(VpcText(network)).value;
    var slots := Slots(ToSet(Zones(target)));
    forall group | group in GROUPS ensures GroupHasThree(moved, group) {
      MovedGroupHasThree(network, target, group);
    }
    forall slot | slot in slots ensures ValidSubnet(moved, parse, vpc, slot) {
      var public, i := SlotPlace(target, slot);
      MovedSlot(network, region, target, parse, public, i);
    }
    forall a, b | a in slots && b in slots && a != b
      ensures parse(SlotText(moved, a)).Some? && parse(SlotText(moved, b)).Some?
      ensures !Nested(parse(SlotText(moved, a)).value, parse(SlotText(moved, b)).value)
    {
      var publicA, i := SlotPlace(target, a);
      var publicB, j := SlotPlace(target, b);
      MovedSlot(network, region, target, parse, publicA, i);
      MovedSlot(network, region, target, parse, publicB, j);
      var oldA, oldB := Slot(Group(publicA), ZoneTexts(network)[i]), Slot(Group(publicB), ZoneTexts(network)[j]);
      assert oldA != oldB;
    }
  }

  /** Region move: a network that was accepted for its region is accepted for the region it moves to. */
  lemma MoveKeepsValidity(network: Fields, region: string, target: string, parse: Parser)
    requires Accepts(network, region, parse) && IsRegion(target) && parse("").None?
    ensures Accepts(MovedNetwork(network, target), target, parse)
  {
    ZoneTextsOfMoved(target);
    MovedReads(network, target);
    MovedKeepsBlockTexts(network, target);
    MovedKeepsSwitches(network, target);
    MovedKeepsIds(network, target);
    if Mode(network) == "create" {
      MovedSubnetsAccepted(network, region, target, parse);
      assert forall z | z in Zones(target) :: z in ToSet(Zones(target));
    }
  }

  /** Every node group that is an object is left in the zones of the moved network. */
  lemma MovedGroupsAreAvailable(doc: Fields, target: string, name: string)
    requires Get(doc, "network").Object? && IsRegion(target)
    requires name in FieldsOf(Get(FieldsOf(Get(doc, "eks")), "node_groups"))
    ensures var moved := Moved(doc, target);
      var groups, before := FieldsOf(Get(FieldsOf(Get(moved, "eks")), "node_groups")),
                            FieldsOf(Get(FieldsOf(Get(doc, "eks")), "node_groups"));
      && name in groups
      && if before[name].Object? then
           && groups[name].Object?
           && StringList(Get(groups[name].fields, "availability_zones")) == ZoneTexts(FieldsOf(Get(moved, "network")))
         else groups[name] == before[name]
  {
    ZoneTextsOfMoved(target);
  }

  // ---------------------------------------------------------------- a second move changes nothing

  lemma MovedSubnetsSettle(region: string, values: seq<string>, defaults: seq<string>)
    requires IsRegion(region) && |defaults| == 3
    requires forall i | 0 <= i < 3 :: defaults[i] != "" && Trimmed(defaults[i])
    requires forall i | 0 <= i < |values| :: Trimmed(values[i])
    ensures Subnets(region, SubnetValues(Zones(region), FieldsOf(Subnets(region, values, defaults))), defaults)
         == Subnets(region, values, defaults)
  {
    ZonesDiffer(region);
    var fields := Subnets(region, values, defaults).fields;
    var again := SubnetValues(Zones(region), fields);
    forall i | 0 <= i < 3 ensures ValueOr(again, i, defaults[i]) == ValueOr(values, i, defaults[i]) {
      assert Get(fields, Zones(region)[i]) == Text(ValueOr(values, i, defaults[i]));
    }
  }

  /** The block texts a second move starts from. */
  lemma MovedValues(network: Fields, once: Fields, region: string, group: string, defaults: seq<string>)
    requires IsRegion(region) && |defaults| == 3
    requires Get(once, "availability_zones") == ZoneList(region)
    requires Get(once, group) == Subnets(region, SubnetValuesIn(network, group), defaults)
    ensures SubnetValuesIn(once, group) ==
      SubnetValues(Zones(region), FieldsOf(Subnets(region, SubnetValuesIn(network, group), defaults)))
  {
    ZoneTextsOfMoved(region);
  }

  lemma GroupSettles(network: Fields, once: Fields, twice: Fields, region: string, group: string, defaults: seq<string>)
    requires IsRegion(region) && |defaults| == 3 && forall i | 0 <= i < 3 :: defaults[i] != "" && Trimmed(defaults[i])
    requires Get(once, "availability_zones") == ZoneList(region)
    requires Get(once, group) == Subnets(region, SubnetValuesIn(network, group), defaults)
    requires Get(twice, group) == Subnets(region, SubnetValuesIn(once, group), defaults)
    ensures Get(twice, group) == Get(once, group)
  {
    MovedValues(network, once, region, group, defaults);
    MovedSubnetsSettle(region, SubnetValuesIn(network, group), defaults);
  }

  lemma MovedGroupSettles(network: Fields, region: string, public: bool)
    requires IsRegion(region)
    ensures var once := MovedNetwork(network, region);
      Get(MovedNetwork(once, region), Group(public)) == Get(once, Group(public))
  {
    var once := MovedNetwork(network, region);
    MovedReads(network, region);
    MovedReads(once, region);
    DefaultsAreTrimmed();
    GroupSettles(network, once, MovedNetwork(once, region), region, Group(public), if public then PUBLIC_DEFAULTS else PRIVATE_DEFAULTS);
  }

  lemma MovedKeySettles(network: Fields, region: string, key: string)
    requires IsRegion(region)
    ensures var once := MovedNetwork(network, region);
      Get(MovedNetwork(once, region), key) == Get(once, key)
  {
    var once := MovedNetwork(network, region);
    if key == "public_subnets" {
      MovedGroupSettles(network, region, true);
    } else if key == "private_subnets" {
      MovedGroupSettles(network, region, false);
    } else if key in {"availability_zones", "workload_subnet_zones", "data_subnet_zones"} {
      MovedZonesSettle(network, once, region);
    } else {
      MovedKeeps(once, region, key);
    }
  }

  lemma MovedZonesSettle(network: Fields, once: Fields, region: string)
    requires once == MovedNetwork(network, region)
    ensures forall key | key in {"availability_zones", "workload_subnet_zones", "data_subnet_zones"} ::
      Get(MovedNetwork(once, region), key) == Get(once, key)
  {
    MovedReads(network, region);
    MovedReads(once, region);
  }

  lemma MovedNetworkSettles(network: Fields, region: string)
    requires IsRegion(region)
    ensures MovedNetwork(MovedNetwork(network, region), region) == MovedNetwork(network, region)
  {
    var once := MovedNetwork(network, region);
    var twice := MovedNetwork(once, region);
    assert twice.Keys == once.Keys;
    forall key | key in once ensures twice[key] == once[key] {
      MovedKeySettles(network, region, key);
      assert Get(twice, key) == twice[key] && Get(once, key) == once[key];
    }
  }

  lemma DefaultsAreTrimmed()
    ensures forall i | 0 <= i < 3 :: PUBLIC_DEFAULTS[i] != "" && Trimmed(PUBLIC_DEFAULTS[i])
    ensures forall i | 0 <= i < 3 :: PRIVATE_DEFAULTS[i] != "" && Trimmed(PRIVATE_DEFAULTS[i])
  {
  }

  lemma MovedGroupsSettle(groups: Fields, region: string)
    ensures MovedGroups(MovedGroups(groups, region), region) == MovedGroups(groups, region)
  {
    var once := MovedGroups(groups, region);
    forall name | name in once ensures MovedGroup(once[name], region) == once[name] {
      if once[name].Object? {
        assert once[name].fields["availability_zones" := ZoneList(region)] == once[name].fields;
      }
    }
  }

  lemma MovedEksSettles(eks: Value, region: string)
    ensures MovedEks(MovedEks(eks, region), region) == MovedEks(eks, region)
  {
    if eks.Object? && Get(eks.fields, "node_groups").Object? {
      var once := MovedEks(eks, region);
      MovedGroupsSettle(eks.fields["node_groups"].fields, region);
      assert once.fields["node_groups" := once.fields["node_groups"]] == once.fields;
    }
  }

  /** Moving to the same region again changes nothing, whatever the document looked like at first. */
  lemma SecondMoveChangesNothing(doc: Fields, region: string)
    requires IsRegion(region)
    ensures Moved(Moved(doc, region), region) == Moved(doc, region)
  {
    var once := Moved(doc, region);
    var twice := Moved(once, region);
    MovedDocReads(doc, region);
    MovedDocReads(once, region);
    assert twice.Keys == once.Keys;
    forall key | key in once ensures twice[key] == once[key] {
      MovedDocKeySettles(doc, once, region, key);
    }
  }

  lemma MovedDocKeySettles(doc: Fields, once: Fields, region: string, key: string)
    requires IsRegion(region) && once == Moved(doc, region) && key in once
    ensures key in Moved(once, region) && Moved(once, region)[key] == once[key]
  {
    MovedDocReads(doc, region);
    MovedDocReads(once, region);
    if key == "network" && Get(doc, "network").Object? {
      MovedNetworkSettles(doc["network"].fields, region);
    } else if key == "eks" && "eks" in doc {
      MovedEksSettles(doc["eks"], region);
    }
  }

  lemma MovedDocReads(doc: Fields, region: string)
    ensures var moved, whole := Moved(doc, region), Get(doc, "network").Object?;
      && moved.Keys == doc.Keys + {"region"}
      && moved["region"] == Text(region)
      && (whole ==> moved["network"] == Object(MovedNetwork(doc["network"].fields, region)))
      && ("eks" in doc ==> moved["eks"] == if whole then MovedEks(doc["eks"], region) else doc["eks"])
      && forall key | key in doc && key != "region" && (whole ==> key != "network" && key != "eks") :: moved[key] == doc[key]
  {
  }
}
