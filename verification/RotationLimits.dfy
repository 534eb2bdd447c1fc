/** What the rotation promise rests on: when a rotation may start, exactly, and runs that break each other hypothesis. */
module RotationLimits {
  import opened RotationModel

  // ---------------------------------------------------------------- runs of calls

  lemma {:induction false} AfterBoth(scheme: Scheme, w: World, first: seq<Step>, second: seq<Step>)
    ensures After(scheme, w, first + second) == After(scheme, After(scheme, w, first), second)
    decreases |first|
  {
    if first == [] {
      assert first + second == second;
    } else {
      assert (first + second)[0] == first[0] && (first + second)[1..] == first[1..] + second;
      AfterBoth(scheme, Apply(scheme, w, first[0]), first[1..], second);
    }
  }

  lemma {:induction false} FreeRunIsAllowed(scheme: Scheme, w: World, steps: seq<Step>)
    requires forall s | s in steps :: Free(s)
    ensures AllowedRun(scheme, w, steps)
    decreases |steps|
  {
    if steps != [] {
      assert Free(steps[0]);
      FreeRunIsAllowed(scheme, Apply(scheme, w, steps[0]), steps[1..]);
    }
  }

  function Begun(scheme: Scheme, w: World, op: OperationId, slot: Slot, listed: set<TokenId>): World {
    Apply(scheme, w, BeginRotation(op, slot, listed))
  }

  /** A rotation that meets no failure, up to the point where the old tokens are deleted. */
  function Installing(op: OperationId, id: TokenId): seq<Step> {
    [CreateToken(op, id, true), SaveRecord(op), ReadRecord(op), Push(op, true)]
  }

  lemma InstallingIs(scheme: Scheme, w: World, op: OperationId, id: TokenId)
    ensures After(scheme, w, Installing(op, id))
         == Apply(scheme, Apply(scheme, Apply(scheme, Apply(scheme, w, CreateToken(op, id, true)), SaveRecord(op)), ReadRecord(op)), Push(op, true))
  {
    var s := Installing(op, id);
    assert s == [s[0]] + [s[1]] + [s[2]] + [s[3]];
    AfterBoth(scheme, w, [s[0]] + [s[1]] + [s[2]], [s[3]]);
    AfterBoth(scheme, w, [s[0]] + [s[1]], [s[2]]);
    AfterBoth(scheme, w, [s[0]], [s[1]]);
  }

  /** The first two calls of a rotation. */
  lemma BegunOutcome(scheme: Scheme, w: World, op: OperationId, slot: Slot, listed: set<TokenId>, id: TokenId)
    requires op !in w.ops && id !in w.live && id !in w.revoked
    ensures Apply(scheme, Begun(scheme, w, op, slot, listed), CreateToken(op, id, true))
         == w.(live := w.live[id := scheme.name(slot)], ops := w.ops[op :=
              Rotating(scheme.name(slot), Home(scheme, w, slot), Made(listed * Named(w, scheme.name(slot)), id))])
  {
    var name, home, older := scheme.name(slot), Home(scheme, w, slot), listed * Named(w, scheme.name(slot));
    var begun := Begun(scheme, w, op, slot, listed);
    assert begun == w.(ops := w.ops[op := Rotating(name, home, Listed(older))]);
    assert begun.ops[op := Rotating(name, home, Made(older, id))] == w.ops[op := Rotating(name, home, Made(older, id))];
  }

  lemma InstallOutcome(scheme: Scheme, made: World, op: OperationId, name: TokenName, place: Place, older: set<TokenId>, id: TokenId)
    requires op in made.ops && made.ops[op] == Rotating(name, place, Made(older, id))
    ensures Apply(scheme, Apply(scheme, Apply(scheme, made, SaveRecord(op)), ReadRecord(op)), Push(op, true))
         == made.(stored := made.stored[place := DeployToken(id)], jenkins := made.jenkins[place := DeployToken(id)],
                  ops := made.ops[op := Rotating(name, place, Clearing(older, id))])
  {
    var kept := Apply(scheme, made, SaveRecord(op));
    assert kept.ops[op] == Rotating(name, place, Kept(older, id)) && kept.stored == made.stored[place := DeployToken(id)];
    var read := Apply(scheme, kept, ReadRecord(op));
    assert read.ops[op] == Rotating(name, place, Carrying(older, id, DeployToken(id))) && read.stored == kept.stored;
    assert Apply(scheme, read, Push(op, true)).ops == made.ops[op := Rotating(name, place, Clearing(older, id))];
  }

  lemma RotatedOutcome(scheme: Scheme, w: World, op: OperationId, slot: Slot, listed: set<TokenId>, id: TokenId)
    requires op !in w.ops && id !in w.live && id !in w.revoked
    ensures var name, home := scheme.name(slot), Home(scheme, w, slot);
      After(scheme, Begun(scheme, w, op, slot, listed), Installing(op, id))
        == w.(live := w.live[id := name], stored := w.stored[home := DeployToken(id)],
              jenkins := w.jenkins[home := DeployToken(id)],
              ops := w.ops[op := Rotating(name, home, Clearing(listed * Named(w, name), id))])
  {
    var name, home, older := scheme.name(slot), Home(scheme, w, slot), listed * Named(w, scheme.name(slot));
    InstallingIs(scheme, Begun(scheme, w, op, slot, listed), op, id);
    BegunOutcome(scheme, w, op, slot, listed, id);
    InstallOutcome(scheme, w.(live := w.live[id := name], ops := w.ops[op := Rotating(name, home, Made(older, id))]),
                   op, name, home, older, id);
    assert w.ops[op := Rotating(name, home, Made(older, id))][op := Rotating(name, home, Clearing(older, id))]
        == w.ops[op := Rotating(name, home, Clearing(older, id))];
  }

  // ---------------------------------------------------------------- when a rotation is safe

  lemma {:induction false} FreshToken(used: set<TokenId>) returns (id: TokenId)
    ensures id !in used && forall u | u in used :: u < id
    decreases |used|
  {
    if used == {} {
      id := 0;
    } else {
      var u :| u in used;
      var above := FreshToken(used - {u});
      id := if above > u then above else u + 1;
      forall v | v in used ensures v < id {
        assert v == u || v in used - {u};
      }
    }
  }

  lemma LastStep(scheme: Scheme, w: World, first: seq<Step>, s: Step)
    ensures After(scheme, w, first + [s]) == Apply(scheme, After(scheme, w, first), s)
  {
    AfterBoth(scheme, w, first, [s]);
    var before := After(scheme, w, first);
    assert [s][1..] == [] && After(scheme, before, [s]) == Apply(scheme, before, s);
  }

  /** A rotation without failures deletes a listed token of its name. */
  lemma ClearedOutcome(scheme: Scheme, w: World, op: OperationId, slot: Slot, id: TokenId, made: TokenId)
    requires op !in w.ops && made !in w.live && made !in w.revoked
    requires id in w.live && w.live[id] == scheme.name(slot)
    ensures var home := Home(scheme, w, slot);
      var cleared := After(scheme, Begun(scheme, w, op, slot, {id}), Installing(op, made) + [DeleteOlder(op, id, true)]);
      && id in cleared.revoked && (forall o | o in w.ops :: o in cleared.ops && cleared.ops[o] == w.ops[o])
      && cleared.stored == w.stored[home := DeployToken(made)] && cleared.jenkins == w.jenkins[home := DeployToken(made)]
  {
    var begun := Begun(scheme, w, op, slot, {id});
    RotatedOutcome(scheme, w, op, slot, {id}, made);
    LastStep(scheme, begun, Installing(op, made), DeleteOlder(op, id, true));
    assert id in {id} * Named(w, scheme.name(slot));
  }

  /** A place the rotation does not reach keeps its token, and the rotation deletes that token. */
  lemma HeldTokenIsDeleted(scheme: Scheme, w: World, op: OperationId, slot: Slot, id: TokenId, made: TokenId, place: Place)
    requires op !in w.ops && made !in w.live && made !in w.revoked && place != Home(scheme, w, slot)
    requires id in w.live && w.live[id] == scheme.name(slot)
    requires (place in w.stored && w.stored[place] == DeployToken(id)) || (place in w.jenkins && w.jenkins[place] == DeployToken(id))
    ensures !Safe(After(scheme, Begun(scheme, w, op, slot, {id}), Installing(op, made) + [DeleteOlder(op, id, true)]))
  {
    ClearedOutcome(scheme, w, op, slot, id, made);
    var cleared := After(scheme, Begun(scheme, w, op, slot, {id}), Installing(op, made) + [DeleteOlder(op, id, true)]);
    if place in w.stored && w.stored[place] == DeployToken(id) {
      assert place in cleared.stored && cleared.stored[place] == DeployToken(id);
    } else {
      assert place in cleared.jenkins && cleared.jenkins[place] == DeployToken(id);
    }
  }

  /** A push that is on its way to another place arrives after the rotation has deleted its token. */
  lemma CarriedTokenIsDeleted(scheme: Scheme, w: World, op: OperationId, slot: Slot, id: TokenId, made: TokenId, other: OperationId)
    requires op !in w.ops && made !in w.live && made !in w.revoked
    requires id in w.live && w.live[id] == scheme.name(slot)
    requires other in w.ops && w.ops[other].Syncing? && w.ops[other].secret == DeployToken(id)
    ensures !Safe(After(scheme, Begun(scheme, w, op, slot, {id}), Installing(op, made) + [DeleteOlder(op, id, true), Push(other, true)]))
  {
    var begun, first := Begun(scheme, w, op, slot, {id}), Installing(op, made) + [DeleteOlder(op, id, true)];
    ClearedOutcome(scheme, w, op, slot, id, made);
    LastStep(scheme, begun, first, Push(other, true));
    assert first + [Push(other, true)] == Installing(op, made) + [DeleteOlder(op, id, true), Push(other, true)];
    var pushed := Apply(scheme, After(scheme, begun, first), Push(other, true));
    assert pushed.jenkins[w.ops[other].place] == DeployToken(id) && id in pushed.revoked;
  }

  /** A rotation that starts while the name is held elsewhere can end with a revoked token in use. */
  lemma UnsafeEnd(scheme: Scheme, w: World, op: OperationId, slot: Slot) returns (listed: set<TokenId>, steps: seq<Step>)
    requires op !in w.ops && HeldElsewhere(w, scheme.name(slot), Home(scheme, w, slot))
    ensures (forall s | s in steps :: Free(s)) && !Safe(After(scheme, Begun(scheme, w, op, slot, listed), steps))
  {
    var name, home := scheme.name(slot), Home(scheme, w, slot);
    var made := FreshToken(w.live.Keys + w.revoked);
    if p :| p in w.stored && p != home && IsNamed(w, w.stored[p], name) {
      var id := w.stored[p].id;
      HeldTokenIsDeleted(scheme, w, op, slot, id, made, p);
      listed, steps := {id}, Installing(op, made) + [DeleteOlder(op, id, true)];
    } else if p :| p in w.jenkins && p != home && IsNamed(w, w.jenkins[p], name) {
      var id := w.jenkins[p].id;
      HeldTokenIsDeleted(scheme, w, op, slot, id, made, p);
      listed, steps := {id}, Installing(op, made) + [DeleteOlder(op, id, true)];
    } else {
      var o :| o in w.ops && w.ops[o].Syncing? && w.ops[o].place != home && IsNamed(w, w.ops[o].secret, name);
      var id := w.ops[o].secret.id;
      CarriedTokenIsDeleted(scheme, w, op, slot, id, made, o);
      listed, steps := {id}, Installing(op, made) + [DeleteOlder(op, id, true), Push(o, true)];
    }
  }

  /** In a state that rotations have kept in order, a rotation may start exactly if no other place holds a token of its
      name: then every way to go on is safe, and otherwise one is not. */
  lemma RotationIsSafeExactly(scheme: Scheme, w: World, op: OperationId, slot: Slot)
    requires Inv(w) && op !in w.ops && !PlaceBusy(w, Home(scheme, w, slot)) && !NameBusy(w, scheme.name(slot))
    ensures !HeldElsewhere(w, scheme.name(slot), Home(scheme, w, slot)) <==>
      forall listed, steps | AllowedRun(scheme, Begun(scheme, w, op, slot, listed), steps) ::
        Safe(After(scheme, Begun(scheme, w, op, slot, listed), steps))
  {
    if HeldElsewhere(w, scheme.name(slot), Home(scheme, w, slot)) {
      var listed, steps := UnsafeEnd(scheme, w, op, slot);
      FreeRunIsAllowed(scheme, Begun(scheme, w, op, slot, listed), steps);
    } else {
      forall listed, steps | AllowedRun(scheme, Begun(scheme, w, op, slot, listed), steps)
        ensures Safe(After(scheme, Begun(scheme, w, op, slot, listed), steps))
      {
        StepKeepsInv(scheme, w, BeginRotation(op, slot, listed));
        RunKeepsInv(scheme, Begun(scheme, w, op, slot, listed), steps);
        InvIsSafe(After(scheme, Begun(scheme, w, op, slot, listed), steps));
      }
    }
  }

  // ---------------------------------------------------------------- a primary root group that changes

  /** The settings of a project name another primary root group while the token of the first one is in use. The next
      synchronization of the first root finds no record at its new place, makes a token there and deletes the one that
      the old record and the old Jenkins entry still hold. No call fails and nothing runs at the same time. */
  lemma MovedPrimaryIsUnsafe(scheme: Scheme, slot: Slot, first: string, second: string)
    requires scheme.place(slot, first) != scheme.place(slot, second)
    ensures var primary, moved := map[slot.project := first], ChangePrimary(slot.project, second);
      var used := After(scheme, Begun(scheme, Start(primary), 0, slot, {}), Installing(0, 1) + [Stop(0)] + [moved]);
      var cleared := After(scheme, Begun(scheme, used, 1, slot, {1}), Installing(1, 2) + [DeleteOlder(1, 1, true)]);
      var former := scheme.place(slot, first);
      && used.ops == map[] && 1 in cleared.revoked
      && former in cleared.stored && cleared.stored[former] == DeployToken(1)
      && former in cleared.jenkins && cleared.jenkins[former] == DeployToken(1)
  {
    var primary, moved := map[slot.project := first], ChangePrimary(slot.project, second);
    MovedState(scheme, slot, first, second);
    var used := After(scheme, Begun(scheme, Start(primary), 0, slot, {}), Installing(0, 1) + [Stop(0)] + [moved]);
    ClearedOutcome(scheme, used, 1, slot, 1, 2);
  }

  lemma MovedState(scheme: Scheme, slot: Slot, first: string, second: string)
    ensures var primary, moved := map[slot.project := first], ChangePrimary(slot.project, second);
      After(scheme, Begun(scheme, Start(primary), 0, slot, {}), Installing(0, 1) + [Stop(0)] + [moved])
        == World(map[1 := scheme.name(slot)], {}, map[scheme.place(slot, first) := DeployToken(1)],
                 map[scheme.place(slot, first) := DeployToken(1)], map[], map[slot.project := second])
  {
    var primary, moved := map[slot.project := first], ChangePrimary(slot.project, second);
    var begun := Begun(scheme, Start(primary), 0, slot, {});
    FirstRotation(scheme, primary, slot);
    LastStep(scheme, begun, Installing(0, 1), Stop(0));
    LastStep(scheme, begun, Installing(0, 1) + [Stop(0)], moved);
    StoppedAndMoved(scheme, After(scheme, begun, Installing(0, 1)), 0, slot.project, second);
  }

  lemma StoppedAndMoved(scheme: Scheme, w: World, op: OperationId, project: string, root: string)
    requires w.ops.Keys == {op} && w.primary.Keys == {project}
    ensures Apply(scheme, Apply(scheme, w, Stop(op)), ChangePrimary(project, root))
         == World(w.live, w.revoked, w.stored, w.jenkins, map[], map[project := root])
  {
  }

  /** The first rotation of all. */
  lemma FirstRotation(scheme: Scheme, primary: map<string, string>, slot: Slot)
    ensures var name, home := scheme.name(slot), HomeIn(scheme, primary, slot);
      After(scheme, Begun(scheme, Start(primary), 0, slot, {}), Installing(0, 1))
        == World(map[1 := name], {}, map[home := DeployToken(1)], map[home := DeployToken(1)],
                 map[0 := Rotating(name, home, Clearing({}, 1))], primary)
  {
    var start := Start(primary);
    RotatedOutcome(scheme, start, 0, slot, {}, 1);
    assert {} * Named(start, scheme.name(slot)) == {};
  }

  // ---------------------------------------------------------------- the other hypotheses

  /** A save that took effect but reported a failure (the record was written, reading it back failed): the platform
      revokes the token it has stored, and the next synchronization hands it to Jenkins. */
  lemma UnconfirmedSaveIsUnsafe(scheme: Scheme, slot: Slot)
    ensures var home := Home(scheme, Start(map[]), slot);
      var made := Apply(scheme, Begun(scheme, Start(map[]), 0, slot, {}), CreateToken(0, 1, true));
      var discarded := Apply(scheme, Apply(scheme, made, SaveUnconfirmed(0)), DiscardToken(0, true));
      var synced := Apply(scheme, Apply(scheme, discarded, BeginSync(0, home)), Push(0, true));
      && !Safe(discarded)
      && home in synced.jenkins && synced.jenkins[home] == DeployToken(1) && 1 in synced.revoked
  {
    BegunOutcome(scheme, Start(map[]), 0, slot, {}, 1);
  }

  /** Two rotations of one slot at a time: the second lists the first one's token as an old one, and the last save
      decides what Jenkins gets. */
  lemma ConcurrentRotationsAreUnsafe(scheme: Scheme, slot: Slot)
    ensures var home := Home(scheme, Start(map[]), slot);
      var first := Apply(scheme, Begun(scheme, Start(map[]), 0, slot, {}), CreateToken(0, 1, true));
      var both := Apply(scheme, Begun(scheme, first, 1, slot, {1}), CreateToken(1, 2, true));
      var saved := Apply(scheme, Apply(scheme, both, SaveRecord(1)), SaveRecord(0));
      var pushed := Apply(scheme, Apply(scheme, saved, ReadRecord(1)), Push(1, true));
      var cleared := Apply(scheme, pushed, DeleteOlder(1, 1, true));
      home in cleared.jenkins && cleared.jenkins[home] == DeployToken(1) && 1 in cleared.revoked
  {
    var start := Start(map[]);
    var name, home := scheme.name(slot), Home(scheme, start, slot);
    var first := start.(live := map[1 := name], ops := map[0 := Rotating(name, home, Made({}, 1))]);
    BegunOutcome(scheme, start, 0, slot, {}, 1);
    assert {} * Named(start, name) == {};
    assert start.live[1 := name] == first.live && start.ops[0 := Rotating(name, home, Made({}, 1))] == first.ops;
    BegunOutcome(scheme, first, 1, slot, {1}, 2);
    assert {1} * Named(first, name) == {1};
    OverlappingTail(scheme, first.(live := first.live[2 := name], ops := first.ops[1 := Rotating(name, home, Made({1}, 2))]),
                    name, home);
  }

  lemma OverlappingSaves(scheme: Scheme, both: World, name: TokenName, home: Place)
    requires both.ops == map[0 := Rotating(name, home, Made({}, 1)), 1 := Rotating(name, home, Made({1}, 2))] && 1 in both.live
    ensures var carrying := Apply(scheme, Apply(scheme, Apply(scheme, both, SaveRecord(1)), SaveRecord(0)), ReadRecord(1));
      1 in carrying.ops && carrying.ops[1] == Rotating(name, home, Carrying({1}, 2, DeployToken(1))) && carrying.live == both.live
  {
    var saved := Apply(scheme, Apply(scheme, both, SaveRecord(1)), SaveRecord(0));
    assert saved.stored[home] == DeployToken(1) && saved.ops[1] == Rotating(name, home, Kept({1}, 2)) && saved.live == both.live;
  }

  lemma OverlappingTail(scheme: Scheme, both: World, name: TokenName, home: Place)
    requires both.ops == map[0 := Rotating(name, home, Made({}, 1)), 1 := Rotating(name, home, Made({1}, 2))] && 1 in both.live
    ensures var saved := Apply(scheme, Apply(scheme, both, SaveRecord(1)), SaveRecord(0));
      var pushed := Apply(scheme, Apply(scheme, saved, ReadRecord(1)), Push(1, true));
      var cleared := Apply(scheme, pushed, DeleteOlder(1, 1, true));
      home in cleared.jenkins && cleared.jenkins[home] == DeployToken(1) && 1 in cleared.revoked
  {
    OverlappingSaves(scheme, both, name, home);
    var saved := Apply(scheme, Apply(scheme, both, SaveRecord(1)), SaveRecord(0));
    PushThenDelete(scheme, Apply(scheme, saved, ReadRecord(1)), name, home);
  }

  lemma PushThenDelete(scheme: Scheme, carrying: World, name: TokenName, home: Place)
    requires 1 in carrying.ops && carrying.ops[1] == Rotating(name, home, Carrying({1}, 2, DeployToken(1))) && 1 in carrying.live
    ensures var cleared := Apply(scheme, Apply(scheme, carrying, Push(1, true)), DeleteOlder(1, 1, true));
      home in cleared.jenkins && cleared.jenkins[home] == DeployToken(1) && 1 in cleared.revoked
  {
    var pushed := Apply(scheme, carrying, Push(1, true));
    assert pushed.ops[1] == Rotating(name, home, Clearing({1}, 2)) && pushed.jenkins[home] == DeployToken(1);
  }

  /** Two slots with one token name: a complete, undisturbed rotation of `b` revokes the token `a` works with. */
  lemma SharedNamesAreUnsafe(scheme: Scheme, primary: map<string, string>, a: Slot, b: Slot)
    requires scheme.name(a) == scheme.name(b) && HomeIn(scheme, primary, a) != HomeIn(scheme, primary, b)
    ensures var used := After(scheme, Begun(scheme, Start(primary), 0, a, {}), Installing(0, 1));
      var cleared := After(scheme, Begun(scheme, used, 1, b, {1}), Installing(1, 2) + [DeleteOlder(1, 1, true)]);
      var home := HomeIn(scheme, primary, a);
      home in cleared.jenkins && cleared.jenkins[home] == DeployToken(1) && 1 in cleared.revoked
  {
    FirstRotation(scheme, primary, a);
    ClearedOutcome(scheme, After(scheme, Begun(scheme, Start(primary), 0, a, {}), Installing(0, 1)), 1, b, 1, 2);
  }
}
