/** `validateNetwork` of internal/environment/repository.go: the loop over the document, and what acceptance means
    in terms of addresses. The parser of block texts is a parameter: it gives the IPv4 block a text denotes. */
module Network {
  import opened Options
  import opened Documents
  import opened Cidr

  type Parser = string -> Option<Ipv4Block>

  // ---------------------------------------------------------------- readers of the network object

  function Mode(network: Fields): string {
    var mode := StringValue(Get(network, "mode"));
    if mode == "" then "create" else mode
  }

  function NatMode(network: Fields): string {
    var mode := StringValue(Get(network, "nat_gateway_mode"));
    if mode == "" then "when-private" else mode
  }

  function VpcText(network: Fields): string {
    StringValue(Get(network, if Mode(network) == "existing" then "existing_vpc_cidr" else "vpc_cidr"))
  }

  function ServiceText(network: Fields): string {
    StringValue(Get(network, "service_ipv4_cidr"))
  }

  function Texts(items: seq<Value>): (texts: seq<string>)
    ensures |texts| == |items| && forall i | 0 <= i < |items| :: texts[i] == StringValue(items[i])
  {
    seq(|items|, i requires 0 <= i < |items| => StringValue(items[i]))
  }

  predicate Distinct(texts: seq<string>) {
    forall i, j | 0 <= i < j < |texts| :: texts[i] != texts[j]
  }

  function ToSet(texts: seq<string>): set<string> {
    set t | t in texts
  }

  predicate IsHex(c: char) { '0' <= c <= '9' || 'a' <= c <= 'f' }

  /** `^<prefix>[0-9a-f]{8,17}$` */
  predicate IsAwsId(prefix: string, id: string) {
    prefix <= id && 8 <= |id| - |prefix| <= 17 && forall i | |prefix| <= i < |id| :: IsHex(id[i])
  }

  predicate ValidIds(value: Value) {
    && value.List? && 2 <= |value.items| <= 3
    && (forall t | t in Texts(value.items) :: IsAwsId("subnet-", t))
    && Distinct(Texts(value.items))
  }

  predicate ValidZone(zone: string, region: string) {
    |zone| == |region| + 1 && region <= zone && 'a' <= zone[|zone| - 1] <= 'z'
  }

  predicate ValidZones(value: Value, mode: string, region: string) {
    && value.List?
    && (mode == "create" ==> |value.items| == 3)
    && (mode == "existing" ==> 2 <= |value.items| <= 3)
    && (forall t | t in Texts(value.items) :: ValidZone(t, region))
    && Distinct(Texts(value.items))
  }

  predicate ValidSelection(value: Value, zones: set<string>) {
    && value.List? && 2 <= |value.items| <= 3
    && (forall t | t in Texts(value.items) :: t in zones)
    && Distinct(Texts(value.items))
  }

  function ZoneTexts(network: Fields): seq<string> {
    var value := Get(network, "availability_zones");
    if value.List? then Texts(value.items) else []
  }

  // ---------------------------------------------------------------- what is accepted

  predicate CanonicalText(parse: Parser, text: string) {
    parse(text).Some? && Canonical(parse(text).value)
  }

  /** The test of the source for two blocks that overlap. */
  predicate Nested(x: Ipv4Block, y: Ipv4Block) {
    Contains(x, y.ip) || Contains(y, x.ip)
  }

  /** One of the six subnets: its group and its zone. */
  datatype Slot = Slot(group: string, zone: string)

  const GROUPS := ["public_subnets", "private_subnets"]

  function Slots(zones: set<string>): set<Slot> {
    (set z | z in zones :: Slot("public_subnets", z)) + (set z | z in zones :: Slot("private_subnets", z))
  }

  function SlotText(network: Fields, slot: Slot): string {
    StringValue(Get(FieldsOf(Get(network, slot.group)), slot.zone))
  }

  predicate ReadableSubnet(network: Fields, parse: Parser, vpc: Ipv4Block, slot: Slot) {
    && slot.zone in FieldsOf(Get(network, slot.group))
    && CanonicalText(parse, SlotText(network, slot))
    && parse(SlotText(network, slot)).value.bits == vpc.bits
  }

  predicate InsideVpc(vpc: Ipv4Block, subnet: Ipv4Block) {
    Contains(vpc, subnet.ip) && subnet.prefix >= vpc.prefix
  }

  predicate ValidSubnet(network: Fields, parse: Parser, vpc: Ipv4Block, slot: Slot) {
    ReadableSubnet(network, parse, vpc, slot) && InsideVpc(vpc, parse(SlotText(network, slot)).value)
  }

  predicate GroupHasThree(network: Fields, group: string) {
    Get(network, group).Object? && |Get(network, group).fields| == 3
  }

  ghost predicate Apart(network: Fields, parse: Parser, slots: set<Slot>) {
    forall a, b | a in slots && b in slots && a != b
        && parse(SlotText(network, a)).Some? && parse(SlotText(network, b)).Some? ::
      !Nested(parse(SlotText(network, a)).value, parse(SlotText(network, b)).value)
  }

  predicate SwitchesOk(network: Fields) {
    && NatMode(network) in {"when-private", "always", "disabled"}
    && StringValue(Get(network, "workload_subnet_type")) in {"public", "private"}
    && StringValue(Get(network, "data_subnet_type")) in {"public", "private"}
  }

  ghost predicate AcceptsSubnets(network: Fields, parse: Parser, vpc: Ipv4Block, zones: set<string>) {
    && (forall group | group in GROUPS :: GroupHasThree(network, group))
    && (forall slot | slot in Slots(zones) :: ValidSubnet(network, parse, vpc, slot))
    && Apart(network, parse, Slots(zones))
  }

  ghost predicate AcceptsCreate(network: Fields, parse: Parser, vpc: Ipv4Block, zones: set<string>) {
    && SwitchesOk(network)
    && ValidSelection(Get(network, "workload_subnet_zones"), zones)
    && ValidSelection(Get(network, "data_subnet_zones"), zones)
    && AcceptsSubnets(network, parse, vpc, zones)
  }

  ghost predicate AcceptsBlocks(network: Fields, parse: Parser) {
    && CanonicalText(parse, VpcText(network))
    && CanonicalText(parse, ServiceText(network))
    && !Nested(parse(VpcText(network)).value, parse(ServiceText(network)).value)
  }

  /** Acceptance, without the order in which the code looks at things. */
  ghost predicate Accepts(network: Fields, region: string, parse: Parser) {
    && Mode(network) in {"create", "existing"}
    && (Mode(network) == "existing" ==>
          && IsAwsId("vpc-", StringValue(Get(network, "existing_vpc_id")))
          && ValidIds(Get(network, "existing_workload_subnet_ids"))
          && ValidIds(Get(network, "existing_data_subnet_ids")))
    && AcceptsBlocks(network, parse)
    && ValidZones(Get(network, "availability_zones"), Mode(network), region)
    && (Mode(network) == "create" ==>
          AcceptsCreate(network, parse, parse(VpcText(network)).value, ToSet(ZoneTexts(network))))
  }

  // ---------------------------------------------------------------- what is accepted, in terms of the document

  /** An identifier is its prefix and 8 to 17 hexadecimal digits. */
  lemma IdMeans(prefix: string, tail: string, id: string)
    ensures IsAwsId(prefix, prefix + tail) <==>
      8 <= |tail| <= 17 && forall i | 0 <= i < |tail| :: '0' <= tail[i] <= '9' || 'a' <= tail[i] <= 'f'
    ensures IsAwsId(prefix, id) ==> prefix <= id
  {
    var whole := prefix + tail;
    assert forall i | 0 <= i < |tail| :: whole[i + |prefix|] == tail[i];
    assert forall i | |prefix| <= i < |whole| :: whole[i] == tail[i - |prefix|];
  }

  /** A zone is its region and one lower-case letter. */
  lemma ZoneMeans(zone: string, region: string)
    ensures ValidZone(zone, region) <==> exists c | 'a' <= c <= 'z' :: zone == region + [c]
  {
    if ValidZone(zone, region) {
      assert zone == region + [zone[|zone| - 1]];
    }
  }

  lemma BlocksAreNamed(network: Fields, parse: Parser)
    ensures var mode := StringValue(Get(network, "mode"));
      && (Mode(network) == "existing" <==> mode == "existing") && (Mode(network) == "create" <==> mode in {"", "create"})
      && VpcText(network) == StringValue(Get(network, if mode == "existing" then "existing_vpc_cidr" else "vpc_cidr"))
    ensures AcceptsBlocks(network, parse) <==>
      var vpc, service := parse(VpcText(network)), parse(StringValue(Get(network, "service_ipv4_cidr")));
      vpc.Some? && service.Some? && Canonical(vpc.value) && Canonical(service.value)
        && Addresses(vpc.value) * Addresses(service.value) == {}
  {
    var vpc, service := parse(VpcText(network)), parse(ServiceText(network));
    if vpc.Some? && service.Some? && Canonical(vpc.value) && Canonical(service.value) {
      OverlapIsBaseContainment(vpc.value, service.value);
    }
  }

  /** Two or three different texts. */
  predicate TwoOrThree(value: Value) {
    && value.List? && |value.items| in {2, 3}
    && forall i, j | 0 <= i < j < |value.items| :: StringValue(value.items[i]) != StringValue(value.items[j])
  }

  lemma DistinctMeans(value: Value)
    ensures value.List? ==> (Distinct(Texts(value.items)) <==>
      forall i, j | 0 <= i < j < |value.items| :: StringValue(value.items[i]) != StringValue(value.items[j]))
  {
    if value.List? {
      assert forall i | 0 <= i < |value.items| :: Texts(value.items)[i] == StringValue(value.items[i]);
    }
  }

  lemma {:induction false} TextsMean(items: seq<Value>, text: string)
    ensures text in Texts(items) <==> exists i :: 0 <= i < |items| && StringValue(items[i]) == text
  {
  }

  lemma IdsMean(value: Value)
    ensures ValidIds(value) <==>
      TwoOrThree(value) && forall i | 0 <= i < |value.items| :: IsAwsId("subnet-", StringValue(value.items[i]))
  {
    DistinctMeans(value);
  }

  lemma SelectionMeans(value: Value, zones: set<string>)
    ensures ValidSelection(value, zones) <==>
      TwoOrThree(value) && forall i | 0 <= i < |value.items| :: StringValue(value.items[i]) in zones
  {
    DistinctMeans(value);
  }

  lemma ZonesMean(value: Value, mode: string, region: string)
    requires mode in {"create", "existing"}
    ensures ValidZones(value, mode, region) <==>
      && TwoOrThree(value) && (mode == "create" ==> |value.items| == 3)
      && forall i | 0 <= i < |value.items| :: ValidZone(StringValue(value.items[i]), region)
  {
    DistinctMeans(value);
  }

  /** A network on a VPC that exists is accepted exactly if its identifiers, its two blocks and its zones are good. */
  lemma ExistingIsAcceptedExactly(network: Fields, region: string, parse: Parser)
    requires StringValue(Get(network, "mode")) == "existing"
    ensures Accepts(network, region, parse) <==>
      && IsAwsId("vpc-", StringValue(Get(network, "existing_vpc_id")))
      && ValidIds(Get(network, "existing_workload_subnet_ids")) && ValidIds(Get(network, "existing_data_subnet_ids"))
      && AcceptsBlocks(network, parse) && ValidZones(Get(network, "availability_zones"), "existing", region)
  {
  }

  /** A network with a VPC of its own is accepted exactly if its blocks, three zones, switches, selections and subnets
      are good. */
  lemma CreateIsAcceptedExactly(network: Fields, region: string, parse: Parser)
    requires StringValue(Get(network, "mode")) in {"", "create"}
    ensures Accepts(network, region, parse) <==>
      && AcceptsBlocks(network, parse) && ValidZones(Get(network, "availability_zones"), "create", region)
      && StringValue(Get(network, "nat_gateway_mode")) in {"", "when-private", "always", "disabled"}
      && StringValue(Get(network, "workload_subnet_type")) in {"public", "private"}
      && StringValue(Get(network, "data_subnet_type")) in {"public", "private"}
      && ValidSelection(Get(network, "workload_subnet_zones"), ToSet(ZoneTexts(network)))
      && ValidSelection(Get(network, "data_subnet_zones"), ToSet(ZoneTexts(network)))
      && AcceptsSubnets(network, parse, parse(VpcText(network)).value, ToSet(ZoneTexts(network)))
  {
  }

  /** One of the three subnets of a group. */
  ghost predicate GoodSubnet(group: Value, parse: Parser, vpc: Ipv4Block, zone: string) {
    && group.Object? && zone in group.fields
    && var block := parse(StringValue(group.fields[zone]));
       block.Some? && Canonical(block.value) && block.value.bits == vpc.bits && Addresses(block.value) <= Addresses(vpc)
  }

  /** Both groups have exactly three subnets, one in each zone, readable, inside the VPC and apart from each other. */
  lemma SubnetsAreAcceptedExactly(network: Fields, parse: Parser, vpc: Ipv4Block, zones: set<string>)
    requires Canonical(vpc)
    ensures AcceptsSubnets(network, parse, vpc, zones) <==>
      && GroupHasThree(network, "public_subnets") && GroupHasThree(network, "private_subnets")
      && (forall zone | zone in zones :: GoodSubnet(Get(network, "public_subnets"), parse, vpc, zone))
      && (forall zone | zone in zones :: GoodSubnet(Get(network, "private_subnets"), parse, vpc, zone))
      && Apart(network, parse, Slots(zones))
  {
    var public, private := "public_subnets", "private_subnets";
    assert GROUPS[0] == public && GROUPS[1] == private;
    forall zone | zone in zones
      ensures Slot(public, zone) in Slots(zones) && Slot(private, zone) in Slots(zones)
      ensures GroupHasThree(network, public) ==>
        (GoodSubnet(Get(network, public), parse, vpc, zone) <==> ValidSubnet(network, parse, vpc, Slot(public, zone)))
      ensures GroupHasThree(network, private) ==>
        (GoodSubnet(Get(network, private), parse, vpc, zone) <==> ValidSubnet(network, parse, vpc, Slot(private, zone)))
    {
      SubnetMeans(network, parse, vpc, public, zone);
      SubnetMeans(network, parse, vpc, private, zone);
    }
    assert forall slot | slot in Slots(zones) :: slot.zone in zones && (slot == Slot(public, slot.zone) || slot == Slot(private, slot.zone));
  }

  lemma SubnetMeans(network: Fields, parse: Parser, vpc: Ipv4Block, group: string, zone: string)
    requires Canonical(vpc)
    ensures GroupHasThree(network, group) ==>
      (GoodSubnet(Get(network, group), parse, vpc, zone) <==> ValidSubnet(network, parse, vpc, Slot(group, zone)))
    ensures GroupHasThree(network, group) <==> Get(network, group).Object? && |Get(network, group).fields| == 3
  {
    var block := parse(SlotText(network, Slot(group, zone)));
    if block.Some? && Canonical(block.value) {
      InsideIsBaseAndPrefix(vpc, block.value);
    }
  }

  // ---------------------------------------------------------------- the loops

  /** The first `i` texts are different, and `seen` holds just them. */
  ghost predicate AreSeen(texts: seq<string>, i: nat, seen: set<string>)
    requires i <= |texts|
  {
    && (forall k | 0 <= k < i :: texts[k] in seen)
    && (forall t | t in seen :: exists k :: 0 <= k < i && texts[k] == t)
    && (forall j, k | 0 <= j < k < i :: texts[j] != texts[k])
  }

  lemma OneMoreSeen(texts: seq<string>, i: nat, seen: set<string>)
    requires i < |texts| && AreSeen(texts, i, seen)
    ensures texts[i] !in seen ==> AreSeen(texts, i + 1, seen + {texts[i]})
    ensures texts[i] in seen ==> !Distinct(texts)
  {
    if texts[i] !in seen {
      forall t | t in seen + {texts[i]} ensures exists k :: 0 <= k < i + 1 && texts[k] == t {
        if t in seen {
          var k :| 0 <= k < i && texts[k] == t;
        }
      }
    }
  }

  lemma AllSeen(texts: seq<string>, seen: set<string>)
    requires AreSeen(texts, |texts|, seen)
    ensures Distinct(texts) && seen == ToSet(texts)
  {
  }

  /** The loop that all lists of identifiers go through: each text is good and none comes twice. */
  method CheckTexts(items: seq<Value>, good: string -> bool) returns (ok: bool, seen: set<string>)
    ensures ok == ((forall t | t in Texts(items) :: good(t)) && Distinct(Texts(items)))
    ensures ok ==> seen == ToSet(Texts(items))
  {
    ok, seen := CheckEach(items, Texts(items), good);
  }

  method CheckEach(items: seq<Value>, ghost texts: seq<string>, good: string -> bool) returns (ok: bool, seen: set<string>)
    requires |texts| == |items| && forall i | 0 <= i < |items| :: texts[i] == StringValue(items[i])
    ensures ok == ((forall t | t in texts :: good(t)) && Distinct(texts))
    ensures ok ==> seen == ToSet(texts)
  {
    seen := {};
    for i := 0 to |items|
      invariant AreSeen(texts, i, seen)
      invariant forall k | 0 <= k < i :: good(texts[k])
    {
      var text := StringValue(items[i]);
      OneMoreSeen(texts, i, seen);
      if !good(text) {
        assert texts[i] in texts;
        return false, seen;
      }
      if text in seen {
        return false, seen;
      }
      seen := seen + {text};
    }
    AllSeen(texts, seen);
    return true, seen;
  }

  method CheckIds(value: Value) returns (ok: bool)
    ensures ok == ValidIds(value)
  {
    if !value.List? || |value.items| < 2 || |value.items| > 3 {
      return false;
    }
    var fine, seen := CheckTexts(value.items, id => IsAwsId("subnet-", id));
    return fine;
  }

  method CheckSelection(value: Value, zones: set<string>) returns (ok: bool)
    ensures ok == ValidSelection(value, zones)
  {
    if !value.List? || |value.items| < 2 || |value.items| > 3 {
      return false;
    }
    var fine, selected := CheckTexts(value.items, zone => zone in zones);
    return fine;
  }

  /** The loop state: the blocks of `done`, in the order they were met. */
  ghost predicate Collected(network: Fields, parse: Parser, vpc: Ipv4Block, done: set<Slot>, subnets: seq<Ipv4Block>) {
    && (forall slot | slot in done :: ValidSubnet(network, parse, vpc, slot))
    && (forall slot | slot in done :: parse(SlotText(network, slot)).value in subnets)
    && (forall b | b in subnets :: exists slot :: slot in done && parse(SlotText(network, slot)) == Some(b))
    && Apart(network, parse, done)
  }

  method CheckOneSubnet(network: Fields, parse: Parser, vpc: Ipv4Block, ghost done: set<Slot>,
                        subnets: seq<Ipv4Block>, slot: Slot) returns (ok: bool, block: Ipv4Block)
    requires Collected(network, parse, vpc, done, subnets) && slot !in done
    ensures ok ==> Collected(network, parse, vpc, done + {slot}, subnets + [block])
    ensures !ok ==> !ValidSubnet(network, parse, vpc, slot) || !Apart(network, parse, done + {slot})
  {
    block := vpc;
    if !ValidSubnet(network, parse, vpc, slot) {
      return false, block;
    }
    block := parse(SlotText(network, slot)).value;
    for i := 0 to |subnets|
      invariant forall k | 0 <= k < i :: !Nested(subnets[k], block)
    {
      if Nested(subnets[i], block) {
        ghost var other :| other in done && parse(SlotText(network, other)) == Some(subnets[i]);
        assert other in done + {slot} && slot in done + {slot} && other != slot;
        return false, block;
      }
    }
    CollectOne(network, parse, vpc, done, subnets, slot, block);
    ok := true;
  }

  lemma CollectOne(network: Fields, parse: Parser, vpc: Ipv4Block, done: set<Slot>, subnets: seq<Ipv4Block>,
                   slot: Slot, block: Ipv4Block)
    requires Collected(network, parse, vpc, done, subnets)
    requires ValidSubnet(network, parse, vpc, slot) && parse(SlotText(network, slot)) == Some(block)
    requires forall k | 0 <= k < |subnets| :: !Nested(subnets[k], block)
    ensures Collected(network, parse, vpc, done + {slot}, subnets + [block])
  {
    var all := subnets + [block];
    assert block == all[|subnets|] && block in all;
    forall s | s in done ensures parse(SlotText(network, s)).value in all {
      var k :| 0 <= k < |subnets| && subnets[k] == parse(SlotText(network, s)).value;
      assert all[k] == subnets[k];
    }
    forall b | b in all ensures exists s :: s in done + {slot} && parse(SlotText(network, s)) == Some(b) {
      if b in subnets {
        var s :| s in done && parse(SlotText(network, s)) == Some(b);
        assert s in done + {slot};
      } else {
        assert slot in done + {slot};
      }
    }
    ApartExtends(network, parse, done, subnets, slot, block);
  }

  lemma ApartExtends(network: Fields, parse: Parser, done: set<Slot>, subnets: seq<Ipv4Block>, slot: Slot, block: Ipv4Block)
    requires Apart(network, parse, done)
    requires forall s | s in done :: parse(SlotText(network, s)).Some? && parse(SlotText(network, s)).value in subnets
    requires parse(SlotText(network, slot)) == Some(block)
    requires forall k | 0 <= k < |subnets| :: !Nested(subnets[k], block)
    ensures Apart(network, parse, done + {slot})
  {
    forall s | s in done ensures !Nested(parse(SlotText(network, s)).value, block) {
      var k :| 0 <= k < |subnets| && subnets[k] == parse(SlotText(network, s)).value;
    }
  }

  lemma ApartShrinks(network: Fields, parse: Parser, few: set<Slot>, many: set<Slot>)
    requires few <= many
    ensures Apart(network, parse, many) ==> Apart(network, parse, few)
  {
  }

  /** The slots of one group. */
  function GroupSlots(group: string, zones: set<string>): set<Slot> {
    set z | z in zones :: Slot(group, z)
  }

  /** The slots of the first groups. */
  function SlotsUpTo(g: nat, zones: set<string>): set<Slot>
    requires g <= |GROUPS|
  {
    if g == 0 then {} else if g == 1 then GroupSlots(GROUPS[0], zones) else Slots(zones)
  }

  lemma NextSlots(g: nat, zones: set<string>)
    requires g < |GROUPS|
    ensures SlotsUpTo(g + 1, zones) == SlotsUpTo(g, zones) + GroupSlots(GROUPS[g], zones)
    ensures SlotsUpTo(g, zones) <= Slots(zones)
    ensures forall slot | slot in SlotsUpTo(g, zones) :: slot.group != GROUPS[g]
  {
    assert "public_subnets"[1] != "private_subnets"[1];
  }

  lemma OneMoreSlot(group: string, zones: set<string>, rest: set<string>, zone: string, before: set<Slot>)
    requires group in GROUPS && zone in rest && rest <= zones && before <= Slots(zones)
    requires forall slot | slot in before :: slot.group != group
    ensures var done, slot := before + GroupSlots(group, zones - rest), Slot(group, zone);
      && slot !in done && done + {slot} <= Slots(zones)
      && done + {slot} == before + GroupSlots(group, zones - (rest - {zone}))
  {
  }

  lemma OneSlotIsRefused(network: Fields, parse: Parser, vpc: Ipv4Block, zones: set<string>, done: set<Slot>, slot: Slot)
    requires done + {slot} <= Slots(zones)
    requires !ValidSubnet(network, parse, vpc, slot) || !Apart(network, parse, done + {slot})
    ensures !AcceptsSubnets(network, parse, vpc, zones)
  {
    ApartShrinks(network, parse, done + {slot}, Slots(zones));
    assert slot in Slots(zones);
  }

  /** The loop over the zones of one group. */
  method CheckGroup(network: Fields, parse: Parser, vpc: Ipv4Block, zones: set<string>, group: string,
                    ghost before: set<Slot>, known: seq<Ipv4Block>)
    returns (ok: bool, ghost done: set<Slot>, subnets: seq<Ipv4Block>)
    requires group in GROUPS && before <= Slots(zones) && (forall slot | slot in before :: slot.group != group)
    requires Collected(network, parse, vpc, before, known)
    ensures ok ==> Collected(network, parse, vpc, done, subnets) && done == before + GroupSlots(group, zones)
    ensures !ok ==> !AcceptsSubnets(network, parse, vpc, zones)
  {
    done, subnets := before, known;
    var rest := zones;
    while rest != {}
      invariant rest <= zones
      invariant Collected(network, parse, vpc, done, subnets)
      invariant done == before + GroupSlots(group, zones - rest)
      decreases rest
    {
      var zone :| zone in rest;
      var slot := Slot(group, zone);
      OneMoreSlot(group, zones, rest, zone, before);
      rest := rest - {zone};
      var fine, block := CheckOneSubnet(network, parse, vpc, done, subnets, slot);
      if !fine {
        OneSlotIsRefused(network, parse, vpc, zones, done, slot);
        return false, done, subnets;
      }
      done, subnets := done + {slot}, subnets + [block];
    }
    assert zones - rest == zones;
    ok := true;
  }

  method CheckSubnets(network: Fields, parse: Parser, vpc: Ipv4Block, zones: set<string>) returns (ok: bool)
    ensures ok == AcceptsSubnets(network, parse, vpc, zones)
  {
    var subnets: seq<Ipv4Block> := [];
    ghost var done: set<Slot> := {};
    for g := 0 to |GROUPS|
      invariant Collected(network, parse, vpc, done, subnets)
      invariant done == SlotsUpTo(g, zones)
      invariant forall k | 0 <= k < g :: GroupHasThree(network, GROUPS[k])
    {
      var group := GROUPS[g];
      var fields := Get(network, group);
      if !fields.Object? || |fields.fields| != 3 {
        assert group in GROUPS && !GroupHasThree(network, group);
        return false;
      }
      NextSlots(g, zones);
      ok, done, subnets := CheckGroup(network, parse, vpc, zones, group, done, subnets);
      if !ok {
        return;
      }
    }
    return true;
  }

  method ValidateNetwork(network: Fields, region: string, parse: Parser) returns (ok: bool)
    ensures ok == Accepts(network, region, parse)
  {
    var mode := Mode(network);
    if mode != "create" && mode != "existing" {
      return false;
    }
    if mode == "existing" {
      if !IsAwsId("vpc-", StringValue(Get(network, "existing_vpc_id"))) {
        return false;
      }
      var workload := CheckIds(Get(network, "existing_workload_subnet_ids"));
      if !workload {
        return false;
      }
      var data := CheckIds(Get(network, "existing_data_subnet_ids"));
      if !data {
        return false;
      }
    }
    if !CanonicalText(parse, VpcText(network)) || !CanonicalText(parse, ServiceText(network)) {
      return false;
    }
    var vpc, service := parse(VpcText(network)).value, parse(ServiceText(network)).value;
    if Contains(vpc, service.ip) || Contains(service, vpc.ip) {
      return false;
    }
    var zones := Get(network, "availability_zones");
    if !zones.List? || (mode == "create" && |zones.items| != 3)
       || (mode == "existing" && (|zones.items| < 2 || |zones.items| > 3)) {
      return false;
    }
    var zonesOk, zoneSet := CheckTexts(zones.items, zone => ValidZone(zone, region));
    if !zonesOk || mode == "existing" {
      return zonesOk;
    }
    if !SwitchesOk(network) {
      return false;
    }
    var workload := CheckSelection(Get(network, "workload_subnet_zones"), zoneSet);
    if !workload {
      return false;
    }
    var data := CheckSelection(Get(network, "data_subnet_zones"), zoneSet);
    if !data {
      return false;
    }
    ok := CheckSubnets(network, parse, vpc, zoneSet);
  }

  // ---------------------------------------------------------------- acceptance in terms of addresses

  /** Everything a create-mode network must have before its addresses are compared. */
  ghost predicate Shaped(network: Fields, region: string, parse: Parser) {
    && Mode(network) == "create"
    && CanonicalText(parse, VpcText(network)) && CanonicalText(parse, ServiceText(network))
    && ValidZones(Get(network, "availability_zones"), "create", region)
    && var zones := ToSet(ZoneTexts(network));
       && SwitchesOk(network)
       && ValidSelection(Get(network, "workload_subnet_zones"), zones)
       && ValidSelection(Get(network, "data_subnet_zones"), zones)
       && (forall group | group in GROUPS :: GroupHasThree(network, group))
       && (forall slot | slot in Slots(zones) ::
             ReadableSubnet(network, parse, parse(VpcText(network)).value, slot))
  }

  ghost function SlotAddresses(network: Fields, parse: Parser, slot: Slot): set<nat> {
    var block := parse(SlotText(network, slot));
    if block.Some? then Addresses(block.value) else {}
  }

  /** A well-shaped create-mode network is accepted exactly when the six subnets are pairwise disjoint sets of
      addresses inside the VPC and the VPC shares no address with the service range. */
  lemma AcceptanceIsDisjointness(network: Fields, region: string, parse: Parser)
    requires Shaped(network, region, parse)
    ensures var vpc, service := parse(VpcText(network)).value, parse(ServiceText(network)).value;
      var slots := Slots(ToSet(ZoneTexts(network)));
      Accepts(network, region, parse) <==>
        && Addresses(vpc) * Addresses(service) == {}
        && (forall slot | slot in slots :: SlotAddresses(network, parse, slot) <= Addresses(vpc))
        && (forall a, b | a in slots && b in slots && a != b ::
              SlotAddresses(network, parse, a) * SlotAddresses(network, parse, b) == {})
  {
    var vpc, service := parse(VpcText(network)).value, parse(ServiceText(network)).value;
    var slots := Slots(ToSet(ZoneTexts(network)));
    OverlapIsBaseContainment(vpc, service);
    forall slot | slot in slots
      ensures ValidSubnet(network, parse, vpc, slot) <==> SlotAddresses(network, parse, slot) <= Addresses(vpc)
    {
      InsideIsBaseAndPrefix(vpc, parse(SlotText(network, slot)).value);
    }
    forall a, b | a in slots && b in slots
      ensures Nested(parse(SlotText(network, a)).value, parse(SlotText(network, b)).value)
         <==> SlotAddresses(network, parse, a) * SlotAddresses(network, parse, b) != {}
    {
      OverlapIsBaseContainment(parse(SlotText(network, a)).value, parse(SlotText(network, b)).value);
    }
  }

  /** The six subnet blocks, public ones first, in the order of the zones. */
  function SixBlocks(network: Fields, parse: Parser): (blocks: seq<Ipv4Block>) {
    var zones := ZoneTexts(network);
    var texts := seq(|zones|, i requires 0 <= i < |zones| => SlotText(network, Slot("public_subnets", zones[i])))
      + seq(|zones|, i requires 0 <= i < |zones| => SlotText(network, Slot("private_subnets", zones[i])));
    seq(|texts|, i requires 0 <= i < |texts| =>
      if parse(texts[i]).Some? then parse(texts[i]).value else Block(0, 0, 32))
  }

  function SlotOf(network: Fields, i: nat): Slot
    requires i < 2 * |ZoneTexts(network)|
  {
    var zones := ZoneTexts(network);
    if i < |zones| then Slot("public_subnets", zones[i]) else Slot("private_subnets", zones[i - |zones|])
  }

  lemma SlotsAreDistinct(network: Fields, i: nat, j: nat)
    requires Distinct(ZoneTexts(network)) && i < j < 2 * |ZoneTexts(network)|
    ensures SlotOf(network, i) in Slots(ToSet(ZoneTexts(network))) && SlotOf(network, i) != SlotOf(network, j)
  {
  }

  /** An accepted create-mode network has six pairwise disjoint subnets inside the VPC, all of them clear of the
      service range, and together no larger than the VPC. */
  lemma AcceptedNetworkIsSound(network: Fields, region: string, parse: Parser)
    requires Accepts(network, region, parse) && Mode(network) == "create"
    ensures var vpc, service := parse(VpcText(network)).value, parse(ServiceText(network)).value;
      var blocks := SixBlocks(network, parse);
      && |blocks| == 6
      && PairwiseDisjoint(blocks)
      && (forall b | b in blocks :: Canonical(b) && Addresses(b) <= Addresses(vpc)
                                 && Addresses(b) * Addresses(service) == {})
      && TotalSize(blocks) <= Size(vpc)
  {
    AcceptanceIsDisjointness(network, region, parse);
    var vpc, service := parse(VpcText(network)).value, parse(ServiceText(network)).value;
    var blocks := SixBlocks(network, parse);
    forall i | 0 <= i < 6
      ensures SlotOf(network, i) in Slots(ToSet(ZoneTexts(network)))
      ensures Canonical(blocks[i]) && SlotAddresses(network, parse, SlotOf(network, i)) == Addresses(blocks[i])
    {
      BlockOfSlot(network, parse, vpc, i);
    }
    forall i, j | 0 <= i < j < 6 ensures Addresses(blocks[i]) * Addresses(blocks[j]) == {} {
      SlotsAreDistinct(network, i, j);
    }
    forall i | 0 <= i < 6 ensures Addresses(blocks[i]) <= Addresses(vpc) && Addresses(blocks[i]) * Addresses(service) == {} {
      assert SlotAddresses(network, parse, SlotOf(network, i)) <= Addresses(vpc);
      InsideIsClear(Addresses(blocks[i]), Addresses(vpc), Addresses(service));
    }
    DisjointBlocksFit(vpc, blocks);
  }

  lemma InsideIsClear(a: set<nat>, b: set<nat>, c: set<nat>)
    requires a <= b && b * c == {}
    ensures a * c == {}
  {
    assert forall x | x in a * c :: x in b * c;
  }

  lemma BlockOfSlot(network: Fields, parse: Parser, vpc: Ipv4Block, i: nat)
    requires |ZoneTexts(network)| == 3 && i < 6
    requires forall slot | slot in Slots(ToSet(ZoneTexts(network))) :: ValidSubnet(network, parse, vpc, slot)
    ensures SlotOf(network, i) in Slots(ToSet(ZoneTexts(network)))
    ensures |SixBlocks(network, parse)| == 6
    ensures parse(SlotText(network, SlotOf(network, i))) == Some(SixBlocks(network, parse)[i])
    ensures Canonical(SixBlocks(network, parse)[i])
  {
    var zones := ZoneTexts(network);
    assert zones[if i < 3 then i else i - 3] in ToSet(zones);
    assert ValidSubnet(network, parse, vpc, SlotOf(network, i));
  }
}
