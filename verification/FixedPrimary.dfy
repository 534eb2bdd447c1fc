/** Rotations in a project whose primary root group never changes: with distinct token names and distinct places, one
    operation a slot at a time is all that safety takes. */
module FixedPrimary {
  import opened RotationModel

  type Primary = map<string, string>

  predicate Distinct(scheme: Scheme, primary: Primary, slots: set<Slot>) {
    forall a, b | a in slots && b in slots && a != b ::
      scheme.name(a) != scheme.name(b) && HomeIn(scheme, primary, a) != HomeIn(scheme, primary, b)
  }

  /** One operation a slot at a time, saves that are all or nothing, and the primary root group stays. */
  predicate OneAtATime(scheme: Scheme, w: World, s: Step, slots: set<Slot>) {
    match s
    case BeginRotation(_, slot, _) => slot in slots && !PlaceBusy(w, Home(scheme, w, slot))
    case BeginSync(_, place) => !PlaceBusy(w, place)
    case SaveUnconfirmed(_) => false
    case SaveSecret(_, secret) => !secret.DeployToken?
    case ChangePrimary(_, _) => false
    case _ => true
  }

  /** Nothing else is asked of a step: every remote call may fail and end in any order. */
  lemma OneAtATimeMeans(scheme: Scheme, w: World, s: Step, slots: set<Slot>)
    ensures OneAtATime(scheme, w, s, slots) <==>
      && (s.BeginRotation? ==> s.slot in slots && !PlaceBusy(w, Home(scheme, w, s.slot)))
      && (s.BeginSync? ==> !PlaceBusy(w, s.place))
      && (s.SaveSecret? ==> !s.secret.DeployToken?)
      && !s.SaveUnconfirmed? && !s.ChangePrimary?
  {
  }

  predicate OneAtATimeRun(scheme: Scheme, w: World, steps: seq<Step>, slots: set<Slot>)
    decreases |steps|
  {
    steps == [] || (OneAtATime(scheme, w, steps[0], slots) && OneAtATimeRun(scheme, Apply(scheme, w, steps[0]), steps[1..], slots))
  }

  /** Some slot keeps its secret at this place and gives its tokens this name. */
  predicate Owned(scheme: Scheme, primary: Primary, slots: set<Slot>, place: Place, name: TokenName) {
    exists slot | slot in slots :: HomeIn(scheme, primary, slot) == place && scheme.name(slot) == name
  }

  predicate SecretOwned(scheme: Scheme, w: World, slots: set<Slot>, place: Place, secret: Secret) {
    secret.DeployToken? && secret.id in w.live ==> Owned(scheme, w.primary, slots, place, w.live[secret.id])
  }

  predicate OpOwned(scheme: Scheme, w: World, slots: set<Slot>, o: Operation) {
    match o
    case Rotating(name, place, _) => Owned(scheme, w.primary, slots, place, name)
    case Syncing(place, secret) => SecretOwned(scheme, w, slots, place, secret)
  }

  /** Every token in use is at the place of the slot that it is named for. */
  predicate AtHome(scheme: Scheme, w: World, slots: set<Slot>) {
    && (forall p | p in w.stored :: SecretOwned(scheme, w, slots, p, w.stored[p]))
    && (forall p | p in w.jenkins :: SecretOwned(scheme, w, slots, p, w.jenkins[p]))
    && (forall o | o in w.ops :: OpOwned(scheme, w, slots, w.ops[o]))
  }

  /** A name belongs to one slot, so to one place. */
  lemma OwnerIsUnique(scheme: Scheme, primary: Primary, slots: set<Slot>, slot: Slot, place: Place)
    requires Distinct(scheme, primary, slots) && slot in slots && Owned(scheme, primary, slots, place, scheme.name(slot))
    ensures place == HomeIn(scheme, primary, slot)
  {
  }

  lemma HomeIsFree(scheme: Scheme, w: World, slots: set<Slot>, slot: Slot)
    requires Distinct(scheme, w.primary, slots) && AtHome(scheme, w, slots) && slot in slots
    requires !PlaceBusy(w, Home(scheme, w, slot))
    ensures !NameBusy(w, scheme.name(slot)) && !HeldElsewhere(w, scheme.name(slot), Home(scheme, w, slot))
  {
    var name, home := scheme.name(slot), Home(scheme, w, slot);
    forall o | o in w.ops && w.ops[o].Rotating? ensures w.ops[o].name != name {
      assert OpOwned(scheme, w, slots, w.ops[o]);
      if w.ops[o].name == name { OwnerIsUnique(scheme, w.primary, slots, slot, w.ops[o].place); }
    }
    forall p | p in w.stored && p != home ensures !IsNamed(w, w.stored[p], name) {
      if IsNamed(w, w.stored[p], name) { OwnerIsUnique(scheme, w.primary, slots, slot, p); }
    }
    forall p | p in w.jenkins && p != home ensures !IsNamed(w, w.jenkins[p], name) {
      if IsNamed(w, w.jenkins[p], name) { OwnerIsUnique(scheme, w.primary, slots, slot, p); }
    }
    forall o | o in w.ops && w.ops[o].Syncing? && w.ops[o].place != home ensures !IsNamed(w, w.ops[o].secret, name) {
      assert OpOwned(scheme, w, slots, w.ops[o]);
      if IsNamed(w, w.ops[o].secret, name) { OwnerIsUnique(scheme, w.primary, slots, slot, w.ops[o].place); }
    }
  }

  // ---------------------------------------------------------------- every step keeps tokens at home

  /** A token that is live afterwards was live before. */
  predicate Known(w: World, w': World, secret: Secret) {
    secret.DeployToken? && secret.id in w'.live ==> secret.id in w.live
  }

  predicate SameOwner(w: World, w': World, o: Operation, o': Operation) {
    if o.Syncing? then o' == o && Known(w, w', o.secret) else o'.Rotating? && o'.name == o.name && o'.place == o.place
  }

  predicate Fewer(w: World, w': World, before: map<Place, Secret>, after: map<Place, Secret>) {
    forall p | p in after :: p in before && after[p] == before[p] && Known(w, w', before[p])
  }

  /** Live tokens may go and unheld ones may come; secrets only go, and operations move on or end. */
  predicate Less(w: World, w': World) {
    && w'.primary == w.primary
    && (forall id | id in w'.live && id in w.live :: w'.live[id] == w.live[id])
    && Fewer(w, w', w.stored, w'.stored) && Fewer(w, w', w.jenkins, w'.jenkins)
    && (forall o | o in w'.ops :: o in w.ops && SameOwner(w, w', w.ops[o], w'.ops[o]))
  }

  lemma LessIsAtHome(scheme: Scheme, w: World, w': World, slots: set<Slot>)
    requires AtHome(scheme, w, slots) && Less(w, w')
    ensures AtHome(scheme, w', slots)
  {
    forall o | o in w'.ops ensures OpOwned(scheme, w', slots, w'.ops[o]) {
      assert OpOwned(scheme, w, slots, w.ops[o]);
    }
    forall p | p in w'.stored ensures SecretOwned(scheme, w', slots, p, w'.stored[p]) {
      assert SecretOwned(scheme, w, slots, p, w.stored[p]);
    }
    forall p | p in w'.jenkins ensures SecretOwned(scheme, w', slots, p, w'.jenkins[p]) {
      assert SecretOwned(scheme, w, slots, p, w.jenkins[p]);
    }
  }

  /** What the invariant says of the secrets in flight. */
  predicate FlightOk(w: World) {
    forall o | o in w.ops ::
      match w.ops[o]
      case Syncing(_, secret) => Works(w, secret)
      case Rotating(name, _, stage) =>
        && (stage.Made? ==> IsNamed(w, DeployToken(stage.id), name))
        && (stage.Carrying? && stage.secret.DeployToken? ==> IsNamed(w, stage.secret, name))
  }

  lemma InvInFlight(w: World)
    requires Inv(w)
    ensures FlightOk(w) && UsedOk(w)
  {
    forall o | o in w.ops ensures OpOk(w, w.ops[o]) {
    }
  }

  /** Whatever is in use was live before the new token was made. */
  lemma CreateIsLess(scheme: Scheme, w: World, op: OperationId, id: TokenId, answered: bool)
    requires FlightOk(w) && UsedOk(w)
    ensures Less(w, Apply(scheme, w, CreateToken(op, id, answered)))
  {
    var w' := Apply(scheme, w, CreateToken(op, id, answered));
    forall o | o in w'.ops ensures o in w.ops && SameOwner(w, w', w.ops[o], w'.ops[o]) {
    }
  }

  lemma DiscardIsLess(scheme: Scheme, w: World, op: OperationId, done: bool)
    ensures Less(w, Apply(scheme, w, DiscardToken(op, done)))
  {
  }

  lemma DeleteIsLess(scheme: Scheme, w: World, op: OperationId, id: TokenId, done: bool)
    ensures Less(w, Apply(scheme, w, DeleteOlder(op, id, done)))
  {
  }

  lemma RejectIsLess(scheme: Scheme, w: World, op: OperationId)
    ensures Less(w, Apply(scheme, w, RejectToken(op)))
  {
  }

  lemma ReadIsLess(scheme: Scheme, w: World, op: OperationId)
    ensures Less(w, Apply(scheme, w, ReadRecord(op)))
  {
  }

  lemma DropIsLess(scheme: Scheme, w: World, op: OperationId, place: Place)
    ensures Less(w, Apply(scheme, w, Stop(op))) && Less(w, Apply(scheme, w, DropRecord(place)))
  {
  }

  lemma SaveStaysHome(scheme: Scheme, w: World, op: OperationId, slots: set<Slot>)
    requires FlightOk(w) && AtHome(scheme, w, slots)
    ensures AtHome(scheme, Apply(scheme, w, SaveRecord(op)), slots)
  {
    if Rotates(w, op) && w.ops[op].stage.Made? {
      var o, w' := w.ops[op], Apply(scheme, w, SaveRecord(op));
      assert OpOwned(scheme, w, slots, o);
      SavedIsAtHome(scheme, w, w', slots, o.place, DeployToken(o.stage.id));
    }
  }

  lemma SavedIsAtHome(scheme: Scheme, w: World, w': World, slots: set<Slot>, place: Place, secret: Secret)
    requires AtHome(scheme, w, slots) && SecretOwned(scheme, w, slots, place, secret)
    requires w' == Stored(w, place, secret).(ops := w'.ops)
    requires forall o | o in w'.ops :: o in w.ops && SameOwner(w, w', w.ops[o], w'.ops[o])
    ensures AtHome(scheme, w', slots)
  {
    LessIsAtHome(scheme, w, w.(ops := w'.ops), slots);
    forall o | o in w'.ops ensures OpOwned(scheme, w', slots, w'.ops[o]) {
      assert OpOwned(scheme, w.(ops := w'.ops), slots, w'.ops[o]);
    }
  }

  /** A secret of its own slot reached a place. */
  lemma PushedIsAtHome(scheme: Scheme, w: World, w': World, slots: set<Slot>, place: Place, secret: Secret)
    requires AtHome(scheme, w, slots) && SecretOwned(scheme, w, slots, place, secret)
    requires w' == Pushed(w, place, secret).(ops := w'.ops)
    requires forall o | o in w'.ops :: o in w.ops && SameOwner(w, w', w.ops[o], w'.ops[o])
    ensures AtHome(scheme, w', slots)
  {
    LessIsAtHome(scheme, w, w.(ops := w'.ops), slots);
    forall o | o in w'.ops ensures OpOwned(scheme, w', slots, w'.ops[o]) {
      assert OpOwned(scheme, w.(ops := w'.ops), slots, w'.ops[o]);
    }
  }

  lemma PushStaysHome(scheme: Scheme, w: World, op: OperationId, recorded: bool, slots: set<Slot>)
    requires FlightOk(w) && AtHome(scheme, w, slots)
    ensures AtHome(scheme, Apply(scheme, w, Push(op, recorded)), slots)
  {
    var w' := Apply(scheme, w, Push(op, recorded));
    if Rotates(w, op) && w.ops[op].stage.Carrying? {
      assert OpOwned(scheme, w, slots, w.ops[op]);
      PushedIsAtHome(scheme, w, w', slots, w.ops[op].place, w.ops[op].stage.secret);
    } else if op in w.ops && w.ops[op].Syncing? {
      assert OpOwned(scheme, w, slots, w.ops[op]);
      PushedIsAtHome(scheme, w, w', slots, w.ops[op].place, w.ops[op].secret);
    }
  }

  lemma BeginStaysHome(scheme: Scheme, w: World, s: Step, slots: set<Slot>)
    requires AtHome(scheme, w, slots) && OneAtATime(scheme, w, s, slots) && (s.BeginRotation? || s.BeginSync? || s.SaveSecret?)
    ensures AtHome(scheme, Apply(scheme, w, s), slots)
  {
    var w' := Apply(scheme, w, s);
    forall p | p in w'.stored ensures SecretOwned(scheme, w', slots, p, w'.stored[p]) {
      assert p in w.stored ==> SecretOwned(scheme, w, slots, p, w.stored[p]);
    }
    forall p | p in w'.jenkins ensures SecretOwned(scheme, w', slots, p, w'.jenkins[p]) {
      assert SecretOwned(scheme, w, slots, p, w.jenkins[p]);
    }
    forall o | o in w'.ops ensures OpOwned(scheme, w', slots, w'.ops[o]) {
      if o in w.ops {
        assert OpOwned(scheme, w, slots, w.ops[o]);
      }
    }
  }

  lemma PrimaryStays(scheme: Scheme, w: World, s: Step)
    requires !s.ChangePrimary?
    ensures Apply(scheme, w, s).primary == w.primary
  {
  }

  lemma LessStaysHome(scheme: Scheme, w: World, s: Step, slots: set<Slot>)
    requires Inv(w) && AtHome(scheme, w, slots)
    requires s.CreateToken? || s.DiscardToken? || s.DeleteOlder? || s.RejectToken? || s.ReadRecord? || s.Stop? || s.DropRecord?
    ensures AtHome(scheme, Apply(scheme, w, s), slots)
  {
    assert Less(w, Apply(scheme, w, s)) by {
      match s
      case CreateToken(op, id, answered) =>
        InvInFlight(w);
        CreateIsLess(scheme, w, op, id, answered);
      case DiscardToken(op, done) => DiscardIsLess(scheme, w, op, done);
      case DeleteOlder(op, id, done) => DeleteIsLess(scheme, w, op, id, done);
      case RejectToken(op) => RejectIsLess(scheme, w, op);
      case ReadRecord(op) => ReadIsLess(scheme, w, op);
      case Stop(op) => DropIsLess(scheme, w, op, Place("", "", "", ""));
      case DropRecord(place) => DropIsLess(scheme, w, 0, place);
    }
    LessIsAtHome(scheme, w, Apply(scheme, w, s), slots);
  }

  lemma StepStaysHome(scheme: Scheme, w: World, s: Step, slots: set<Slot>)
    requires Inv(w) && AtHome(scheme, w, slots) && OneAtATime(scheme, w, s, slots)
    ensures AtHome(scheme, Apply(scheme, w, s), slots)
  {
    InvInFlight(w);
    match s
    case SaveRecord(op) => SaveStaysHome(scheme, w, op, slots);
    case Push(op, recorded) => PushStaysHome(scheme, w, op, recorded, slots);
    case BeginRotation(_, _, _) => BeginStaysHome(scheme, w, s, slots);
    case BeginSync(_, _) => BeginStaysHome(scheme, w, s, slots);
    case SaveSecret(_, _) => BeginStaysHome(scheme, w, s, slots);
    case _ => LessStaysHome(scheme, w, s, slots);
  }

  lemma {:induction false} RunIsAllowed(scheme: Scheme, w: World, steps: seq<Step>, slots: set<Slot>)
    requires Inv(w) && AtHome(scheme, w, slots) && Distinct(scheme, w.primary, slots)
    requires OneAtATimeRun(scheme, w, steps, slots)
    ensures AllowedRun(scheme, w, steps)
    decreases |steps|
  {
    if steps != [] {
      if steps[0].BeginRotation? {
        HomeIsFree(scheme, w, slots, steps[0].slot);
      }
      StepKeepsInv(scheme, w, steps[0]);
      StepStaysHome(scheme, w, steps[0], slots);
      PrimaryStays(scheme, w, steps[0]);
      RunIsAllowed(scheme, Apply(scheme, w, steps[0]), steps[1..], slots);
    }
  }

  /** While no primary root group changes, distinct token names and places, one operation a slot at a time and saves that
      are all or nothing are enough: no run leaves Jenkins or the store with a revoked token. */
  lemma FixedPrimaryIsSafe(scheme: Scheme, primary: Primary, steps: seq<Step>, slots: set<Slot>)
    requires Distinct(scheme, primary, slots) && OneAtATimeRun(scheme, Start(primary), steps, slots)
    ensures Safe(After(scheme, Start(primary), steps))
  {
    RunIsAllowed(scheme, Start(primary), steps, slots);
    RotationIsSafe(scheme, primary, steps);
  }
}
