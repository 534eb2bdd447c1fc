/** Rotation of read-only GitLab deploy tokens (internal/gitlab/source_repository.go) as a state machine whose
    steps are single calls to GitLab, to the credential store and to Jenkins. Any call may fail, an operation may
    stop after any call, and operations interleave. */
module RotationModel {
  type TokenId = nat
  type OperationId = nat

  /** What a credential is for: the repositories of one source root group, or the delivery repositories, as one Jenkins
      connection reads them. */
  datatype Slot = Slot(project: string, connection: string, root: string, delivery: bool)

  /** A token name is looked up within one GitLab group. */
  datatype TokenName = TokenName(group: string, name: string)

  /** Where a secret is kept: a record of the credential store, and an entry of one Jenkins. */
  datatype Place = Place(project: string, connection: string, key: string, externalId: string)

  /** The token name of a slot depends on the slot alone. The place of its secret also depends on which root group is
      the primary one of the project. */
  datatype Scheme = Scheme(name: Slot -> TokenName, place: (Slot, string) -> Place)

  datatype Secret = DeployToken(id: TokenId) | ApiToken | OperatorSecret

  /** How far a rotation has come. `older` are the same-named tokens seen before the new one was made. */
  datatype Stage =
    | Listed(older: set<TokenId>)
    | Made(older: set<TokenId>, id: TokenId)
    | Discarding(id: TokenId)
    | Kept(older: set<TokenId>, id: TokenId)
    | Carrying(older: set<TokenId>, id: TokenId, secret: Secret)
    | Clearing(older: set<TokenId>, id: TokenId)

  /** A rotation, or a push of a stored secret on its own. */
  datatype Operation = Rotating(name: TokenName, place: Place, stage: Stage) | Syncing(place: Place, secret: Secret)

  /** `live` are the tokens GitLab honours, `revoked` those the platform deleted, `stored` the secrets in the credential
      store, `jenkins` the secrets Jenkins uses, `ops` the operations in flight, `primary` the primary root groups. */
  datatype World = World(live: map<TokenId, TokenName>, revoked: set<TokenId>, stored: map<Place, Secret>,
                         jenkins: map<Place, Secret>, ops: map<OperationId, Operation>, primary: map<string, string>)

  function Start(primary: map<string, string>): World {
    World(map[], {}, map[], map[], map[], primary)
  }

  datatype Step =
    | BeginRotation(op: OperationId, slot: Slot, listed: set<TokenId>)
    | CreateToken(op: OperationId, id: TokenId, answered: bool)
    | RejectToken(op: OperationId)
    | SaveRecord(op: OperationId)
    | SaveUnconfirmed(op: OperationId)
    | DiscardToken(op: OperationId, done: bool)
    | ReadRecord(op: OperationId)
    | BeginSync(op: OperationId, place: Place)
    | Push(op: OperationId, recorded: bool)
    | DeleteOlder(op: OperationId, id: TokenId, done: bool)
    | Stop(op: OperationId)
    | SaveSecret(place: Place, secret: Secret)
    | DropRecord(place: Place)
    | ChangePrimary(project: string, root: string)

  function Named(w: World, name: TokenName): (ids: set<TokenId>) {
    set id | id in w.live && w.live[id] == name
  }

  /** Where the secret of a slot is kept at the moment. */
  function Home(scheme: Scheme, w: World, slot: Slot): Place { HomeIn(scheme, w.primary, slot) }

  function HomeIn(scheme: Scheme, primary: map<string, string>, slot: Slot): Place {
    scheme.place(slot, if slot.project in primary then primary[slot.project] else "")
  }

  predicate Rotates(w: World, op: OperationId) { op in w.ops && w.ops[op].Rotating? }

  function At(w: World, op: OperationId, stage: Stage): World
    requires Rotates(w, op)
  {
    w.(ops := w.ops[op := w.ops[op].(stage := stage)])
  }

  function Done(w: World, op: OperationId): World { w.(ops := w.ops - {op}) }

  function Revoke(w: World, id: TokenId): World {
    w.(live := w.live - {id}, revoked := w.revoked + {id})
  }

  function Stored(w: World, place: Place, secret: Secret): World { w.(stored := w.stored[place := secret]) }

  function Pushed(w: World, place: Place, secret: Secret): World { w.(jenkins := w.jenkins[place := secret]) }

  /** One call. A step that does not fit the stage of its operation changes nothing. */
  function Apply(scheme: Scheme, w: World, s: Step): (after: World) {
    match s
    case BeginRotation(op, slot, listed) =>
      if op in w.ops then w
      else w.(ops := w.ops[op :=
        Rotating(scheme.name(slot), Home(scheme, w, slot), Listed(listed * Named(w, scheme.name(slot))))])
    case CreateToken(op, id, answered) =>
      if Rotates(w, op) && w.ops[op].stage.Listed? && id !in w.live && id !in w.revoked then
        var made := w.(live := w.live[id := w.ops[op].name]);
        if answered then At(made, op, Made(w.ops[op].stage.older, id)) else Done(made, op)
      else w
    case RejectToken(op) =>
      if Rotates(w, op) && w.ops[op].stage.Made? then At(w, op, Discarding(w.ops[op].stage.id)) else w
    case SaveRecord(op) =>
      if Rotates(w, op) && w.ops[op].stage.Made? then
        At(Stored(w, w.ops[op].place, DeployToken(w.ops[op].stage.id)), op,
           Kept(w.ops[op].stage.older, w.ops[op].stage.id))
      else w
    case SaveUnconfirmed(op) =>
      if Rotates(w, op) && w.ops[op].stage.Made? then
        At(Stored(w, w.ops[op].place, DeployToken(w.ops[op].stage.id)), op, Discarding(w.ops[op].stage.id))
      else w
    case DiscardToken(op, done) =>
      if Rotates(w, op) && w.ops[op].stage.Discarding? then
        Done(if done then Revoke(w, w.ops[op].stage.id) else w, op)
      else w
    case ReadRecord(op) =>
      if Rotates(w, op) && w.ops[op].stage.Kept? then
        if w.ops[op].place in w.stored then
          At(w, op, Carrying(w.ops[op].stage.older, w.ops[op].stage.id, w.stored[w.ops[op].place]))
        else Done(w, op)
      else w
    case BeginSync(op, place) =>
      if op !in w.ops && place in w.stored then w.(ops := w.ops[op := Syncing(place, w.stored[place])]) else w
    case Push(op, recorded) =>
      if Rotates(w, op) && w.ops[op].stage.Carrying? then
        var pushed := Pushed(w, w.ops[op].place, w.ops[op].stage.secret);
        if recorded then At(pushed, op, Clearing(w.ops[op].stage.older, w.ops[op].stage.id)) else Done(pushed, op)
      else if op in w.ops && w.ops[op].Syncing? then Done(Pushed(w, w.ops[op].place, w.ops[op].secret), op)
      else w
    case DeleteOlder(op, id, done) =>
      if Rotates(w, op) && w.ops[op].stage.Clearing? && id in w.ops[op].stage.older && id != w.ops[op].stage.id then
        At(if done && id in w.live then Revoke(w, id) else w, op,
           Clearing(w.ops[op].stage.older - {id}, w.ops[op].stage.id))
      else w
    case Stop(op) => Done(w, op)
    case SaveSecret(place, secret) => Stored(w, place, secret)
    case DropRecord(place) => w.(stored := w.stored - {place})
    case ChangePrimary(project, root) => w.(primary := w.primary[project := root])
  }

  function After(scheme: Scheme, w: World, steps: seq<Step>): (after: World)
    decreases |steps|
  {
    if steps == [] then w else After(scheme, Apply(scheme, w, steps[0]), steps[1..])
  }

  // ---------------------------------------------------------------- which runs are promised to be safe

  predicate IsNamed(w: World, secret: Secret, name: TokenName) {
    secret.DeployToken? && secret.id in w.live && w.live[secret.id] == name
  }

  /** Some place but this one holds a token of this name, or a push of one is on its way there. */
  predicate HeldElsewhere(w: World, name: TokenName, place: Place) {
    || (exists p | p in w.stored && p != place :: IsNamed(w, w.stored[p], name))
    || (exists p | p in w.jenkins && p != place :: IsNamed(w, w.jenkins[p], name))
    || (exists o | o in w.ops && w.ops[o].Syncing? && w.ops[o].place != place :: IsNamed(w, w.ops[o].secret, name))
  }

  predicate PlaceBusy(w: World, place: Place) {
    exists o | o in w.ops :: w.ops[o].place == place
  }

  predicate NameBusy(w: World, name: TokenName) {
    exists o | o in w.ops && w.ops[o].Rotating? :: w.ops[o].name == name
  }

  /** One operation a place at a time, one rotation a name at a time and only while no other place holds a token of that
      name; a save that reports failure saved nothing; operators do not hand out the platform's own deploy tokens. */
  predicate Allowed(scheme: Scheme, w: World, s: Step) {
    match s
    case BeginRotation(_, slot, _) =>
      && !PlaceBusy(w, Home(scheme, w, slot)) && !NameBusy(w, scheme.name(slot))
      && !HeldElsewhere(w, scheme.name(slot), Home(scheme, w, slot))
    case BeginSync(_, place) => !PlaceBusy(w, place)
    case SaveUnconfirmed(_) => false
    case SaveSecret(_, secret) => !secret.DeployToken?
    case _ => true
  }

  /** Steps that need no leave. */
  predicate Free(s: Step) { !s.BeginRotation? && !s.BeginSync? && !s.SaveUnconfirmed? && !s.SaveSecret? }

  predicate AllowedRun(scheme: Scheme, w: World, steps: seq<Step>)
    decreases |steps|
  {
    steps == [] || (Allowed(scheme, w, steps[0]) && AllowedRun(scheme, Apply(scheme, w, steps[0]), steps[1..]))
  }

  /** No secret that Jenkins uses, or that the next synchronization would give it, has been revoked. */
  predicate Safe(w: World) {
    && (forall place | place in w.jenkins && w.jenkins[place].DeployToken? :: w.jenkins[place].id !in w.revoked)
    && (forall place | place in w.stored && w.stored[place].DeployToken? :: w.stored[place].id !in w.revoked)
  }

  // ---------------------------------------------------------------- the invariant

  predicate Works(w: World, secret: Secret) { secret.DeployToken? ==> secret.id in w.live }

  /** If the store (or Jenkins) has a deploy token at `place`, it is `id`. */
  predicate Only(secrets: map<Place, Secret>, place: Place, id: TokenId) {
    place in secrets && secrets[place].DeployToken? ==> secrets[place].id == id
  }

  predicate Unused(secrets: map<Place, Secret>, place: Place, id: TokenId) {
    place in secrets ==> secrets[place] != DeployToken(id)
  }

  predicate OlderOk(w: World, name: TokenName, older: set<TokenId>) {
    forall id | id in older :: (id in w.live && w.live[id] == name) || id in w.revoked
  }

  predicate StageOk(w: World, name: TokenName, place: Place, stage: Stage) {
    match stage
    case Listed(older) => OlderOk(w, name, older)
    case Made(older, id) =>
      && OlderOk(w, name, older) && id !in older && IsNamed(w, DeployToken(id), name)
      && Unused(w.stored, place, id) && Unused(w.jenkins, place, id)
    case Discarding(id) =>
      IsNamed(w, DeployToken(id), name) && Unused(w.stored, place, id) && Unused(w.jenkins, place, id)
    case Kept(older, id) =>
      OlderOk(w, name, older) && id !in older && IsNamed(w, DeployToken(id), name) && Only(w.stored, place, id)
    case Carrying(older, id, secret) =>
      && OlderOk(w, name, older) && id !in older && IsNamed(w, DeployToken(id), name)
      && Only(w.stored, place, id) && (secret.DeployToken? ==> secret.id == id)
    case Clearing(older, id) =>
      && OlderOk(w, name, older) && id !in older && IsNamed(w, DeployToken(id), name)
      && Only(w.stored, place, id) && Only(w.jenkins, place, id)
  }

  predicate OpOk(w: World, o: Operation) {
    match o
    case Rotating(name, place, stage) => StageOk(w, name, place, stage) && !HeldElsewhere(w, name, place)
    case Syncing(_, secret) => Works(w, secret)
  }

  predicate UsedOk(w: World) {
    && w.live.Keys !! w.revoked
    && (forall place | place in w.stored :: Works(w, w.stored[place]))
    && (forall place | place in w.jenkins :: Works(w, w.jenkins[place]))
  }

  predicate Apart(a: Operation, b: Operation) {
    a.place != b.place && (a.Rotating? && b.Rotating? ==> a.name != b.name)
  }

  predicate OpsOk(w: World) {
    && (forall o | o in w.ops :: OpOk(w, w.ops[o]))
    && (forall a, b | a in w.ops && b in w.ops && a != b :: Apart(w.ops[a], w.ops[b]))
  }

  predicate Inv(w: World) { UsedOk(w) && OpsOk(w) }

  // ---------------------------------------------------------------- what one step leaves alone

  /** Only the entry of `op` changed, and its operation stayed where it was or ended. */
  predicate OnlyOp(w: World, w': World, op: OperationId) {
    && op in w.ops
    && (w'.ops == w.ops - {op} || (op in w'.ops && w'.ops == w.ops[op := w'.ops[op]]))
    && (op in w'.ops ==>
          && w'.ops[op].place == w.ops[op].place && (w'.ops[op].Rotating? <==> w.ops[op].Rotating?)
          && (w.ops[op].Rotating? ==> w'.ops[op].name == w.ops[op].name))
  }

  lemma OneOpChanged(w: World, w': World, op: OperationId)
    requires OpsOk(w) && OnlyOp(w, w', op)
    requires forall other | other in w.ops && other != op :: OpOk(w', w.ops[other])
    requires op in w'.ops ==> OpOk(w', w'.ops[op])
    ensures OpsOk(w')
  {
  }

  /** Pushes on their way are the ones there were before. */
  predicate NoNewSync(w: World, w': World) {
    forall o | o in w'.ops && w'.ops[o].Syncing? :: o in w.ops && w.ops[o] == w'.ops[o]
  }

  /** Each step is of one of these kinds, as far as another operation is concerned. */
  predicate AtMostDropped(w: World, w': World) {
    w'.live == w.live && w'.revoked == w.revoked && w'.stored == w.stored && w'.jenkins == w.jenkins && NoNewSync(w, w')
  }

  lemma SameKeepsOp(w: World, w': World, o: Operation)
    requires AtMostDropped(w, w') && OpOk(w, o)
    ensures OpOk(w', o)
  {
  }

  /** A secret of another name, or none at all, arrived at another place. */
  predicate ArrivesAt(w: World, w': World, place: Place, name: TokenName) {
    && w'.live == w.live && w'.revoked == w.revoked && NoNewSync(w, w')
    && w'.stored.Keys - {place} == w.stored.Keys - {place} && w'.jenkins.Keys - {place} == w.jenkins.Keys - {place}
    && (forall p | p != place && p in w.stored && p in w'.stored :: w'.stored[p] == w.stored[p])
    && (forall p | p != place && p in w.jenkins && p in w'.jenkins :: w'.jenkins[p] == w.jenkins[p])
    && (place in w'.stored ==> !IsNamed(w, w'.stored[place], name))
    && (place in w'.jenkins ==> !IsNamed(w, w'.jenkins[place], name))
  }

  lemma ArrivalKeepsOp(w: World, w': World, place: Place, o: Operation)
    requires OpOk(w, o) && o.place != place
    requires o.Rotating? ==> ArrivesAt(w, w', place, o.name)
    requires o.Syncing? ==> w'.live == w.live
    ensures OpOk(w', o)
  {
    if o.Rotating? {
      ArrivalIsElsewhere(w, w', place, o.name, o.place);
      assert o.place in w.stored.Keys - {place} <==> o.place in w'.stored.Keys - {place};
      assert o.place in w.jenkins.Keys - {place} <==> o.place in w'.jenkins.Keys - {place};
    }
  }

  lemma ArrivalIsElsewhere(w: World, w': World, place: Place, name: TokenName, home: Place)
    requires ArrivesAt(w, w', place, name) && !HeldElsewhere(w, name, home)
    ensures !HeldElsewhere(w', name, home)
  {
    forall p | p in w'.stored && p != home ensures !IsNamed(w', w'.stored[p], name) {
      assert p != place ==> p in w.stored.Keys - {place};
    }
    forall p | p in w'.jenkins && p != home ensures !IsNamed(w', w'.jenkins[p], name) {
      assert p != place ==> p in w.jenkins.Keys - {place};
    }
  }

  lemma RevokeKeepsUsed(w: World, id: TokenId, name: TokenName, place: Place)
    requires UsedOk(w) && IsNamed(w, DeployToken(id), name) && !HeldElsewhere(w, name, place)
    requires Unused(w.stored, place, id) && Unused(w.jenkins, place, id)
    ensures UsedOk(Revoke(w, id))
  {
    var w' := Revoke(w, id);
    forall p | p in w.stored ensures Works(w', w.stored[p]) {
      assert p != place ==> !IsNamed(w, w.stored[p], name);
    }
    forall p | p in w.jenkins ensures Works(w', w.jenkins[p]) {
      assert p != place ==> !IsNamed(w, w.jenkins[p], name);
    }
  }

  /** Revoking a token hurts no operation of another name at another place. */
  lemma RevokeKeepsOp(w: World, w': World, id: TokenId, name: TokenName, place: Place, o: Operation)
    requires IsNamed(w, DeployToken(id), name) && !HeldElsewhere(w, name, place)
    requires w' == Revoke(w, id).(ops := w'.ops) && NoNewSync(w, w')
    requires OpOk(w, o) && o.place != place && (o.Rotating? ==> o.name != name)
    requires o.Syncing? ==> exists op :: op in w.ops && w.ops[op] == o
    ensures OpOk(w', o)
  {
    if o.Syncing? {
      var op :| op in w.ops && w.ops[op] == o;
      assert !IsNamed(w, w.ops[op].secret, name);
    } else {
      RevokeKeepsElsewhere(w, w', id, o.name, o.place);
    }
  }

  lemma RevokeKeepsElsewhere(w: World, w': World, id: TokenId, name: TokenName, place: Place)
    requires w' == Revoke(w, id).(ops := w'.ops) && NoNewSync(w, w') && !HeldElsewhere(w, name, place)
    ensures !HeldElsewhere(w', name, place)
  {
  }

  /** A token nobody holds yet changes nothing for any operation. */
  lemma NewTokenKeepsOp(w: World, w': World, id: TokenId, name: TokenName, o: Operation)
    requires UsedOk(w) && OpsOk(w) && id !in w.live && id !in w.revoked
    requires w' == w.(live := w.live[id := name], ops := w'.ops) && NoNewSync(w, w')
    requires OpOk(w, o)
    ensures OpOk(w', o)
  {
    if o.Rotating? {
      NewTokenKeepsElsewhere(w, w', id, name, o.name, o.place);
    }
  }

  lemma NewTokenKeepsElsewhere(w: World, w': World, id: TokenId, made: TokenName, name: TokenName, place: Place)
    requires UsedOk(w) && OpsOk(w) && id !in w.live
    requires w' == w.(live := w.live[id := made], ops := w'.ops) && NoNewSync(w, w') && !HeldElsewhere(w, name, place)
    ensures !HeldElsewhere(w', name, place)
  {
    forall p | p in w'.stored && p != place ensures !IsNamed(w', w'.stored[p], name) {
      assert Works(w, w.stored[p]) && !IsNamed(w, w.stored[p], name);
    }
    forall p | p in w'.jenkins && p != place ensures !IsNamed(w', w'.jenkins[p], name) {
      assert Works(w, w.jenkins[p]) && !IsNamed(w, w.jenkins[p], name);
    }
    forall o | o in w'.ops && w'.ops[o].Syncing? && w'.ops[o].place != place ensures !IsNamed(w', w'.ops[o].secret, name) {
      assert OpOk(w, w.ops[o]) && !IsNamed(w, w.ops[o].secret, name);
    }
  }

  // ---------------------------------------------------------------- every step keeps the invariant

  lemma CreateKeepsInv(scheme: Scheme, w: World, op: OperationId, id: TokenId, answered: bool)
    requires Inv(w)
    ensures Inv(Apply(scheme, w, CreateToken(op, id, answered)))
  {
    var w' := Apply(scheme, w, CreateToken(op, id, answered));
    if Rotates(w, op) && w.ops[op].stage.Listed? && id !in w.live && id !in w.revoked {
      var o := w.ops[op];
      assert OpOk(w, o);
      forall other | other in w.ops ensures OpOk(w', w.ops[other]) {
        NewTokenKeepsOp(w, w', id, o.name, w.ops[other]);
      }
      assert UsedOk(w') && Unused(w.stored, o.place, id) && Unused(w.jenkins, o.place, id);
      OneOpChanged(w, w', op);
    }
  }

  /** A rotation revokes a token of its name that its own place does not hold. */
  lemma RevocationKeepsInv(w: World, w': World, op: OperationId, id: TokenId)
    requires Inv(w) && Rotates(w, op) && IsNamed(w, DeployToken(id), w.ops[op].name)
    requires Unused(w.stored, w.ops[op].place, id) && Unused(w.jenkins, w.ops[op].place, id)
    requires w' == Revoke(w, id).(ops := w'.ops) && OnlyOp(w, w', op)
    requires op in w'.ops ==> StageOk(w', w.ops[op].name, w.ops[op].place, w'.ops[op].stage)
    ensures Inv(w')
  {
    var o := w.ops[op];
    assert OpOk(w, o);
    RevokeKeepsUsed(w, id, o.name, o.place);
    assert NoNewSync(w, w');
    forall other | other in w.ops && other != op ensures OpOk(w', w.ops[other]) {
      assert Apart(w.ops[op], w.ops[other]);
      RevokeKeepsOp(w, w', id, o.name, o.place, w.ops[other]);
    }
    RevokeKeepsElsewhere(w, w', id, o.name, o.place);
    OneOpChanged(w, w', op);
  }

  lemma DiscardKeepsInv(scheme: Scheme, w: World, op: OperationId, done: bool)
    requires Inv(w)
    ensures Inv(Apply(scheme, w, DiscardToken(op, done)))
  {
    var w' := Apply(scheme, w, DiscardToken(op, done));
    if Rotates(w, op) && w.ops[op].stage.Discarding? {
      assert OpOk(w, w.ops[op]);
      if done {
        RevocationKeepsInv(w, w', op, w.ops[op].stage.id);
      } else {
        OnlyOpsChanged(w, w', op);
      }
    }
  }

  lemma DeleteKeepsInv(scheme: Scheme, w: World, op: OperationId, id: TokenId, done: bool)
    requires Inv(w)
    ensures Inv(Apply(scheme, w, DeleteOlder(op, id, done)))
  {
    var w' := Apply(scheme, w, DeleteOlder(op, id, done));
    if Rotates(w, op) && w.ops[op].stage.Clearing? && id in w.ops[op].stage.older && id != w.ops[op].stage.id {
      assert OpOk(w, w.ops[op]);
      if done && id in w.live {
        RevocationKeepsInv(w, w', op, id);
      } else {
        OnlyOpsChanged(w, w', op);
      }
    }
  }

  /** Only the operation moved on, to a stage that is as it should be, or it ended. */
  predicate OpMoved(w: World, w': World, op: OperationId) {
    && OnlyOp(w, w', op) && w' == w.(ops := w'.ops)
    && (op in w'.ops && w.ops[op].Rotating? ==> StageOk(w', w.ops[op].name, w.ops[op].place, w'.ops[op].stage))
    && (op in w'.ops && w.ops[op].Syncing? ==> w'.ops[op] == w.ops[op])
  }

  lemma OnlyOpsChanged(w: World, w': World, op: OperationId)
    requires Inv(w) && OpMoved(w, w', op)
    ensures Inv(w')
  {
    assert NoNewSync(w, w');
    forall other | other in w.ops ensures OpOk(w', w.ops[other]) {
      SameKeepsOp(w, w', w.ops[other]);
    }
    OneOpChanged(w, w', op);
  }

  lemma SaveKeepsInv(scheme: Scheme, w: World, op: OperationId)
    requires Inv(w)
    ensures Inv(Apply(scheme, w, SaveRecord(op)))
  {
    if Rotates(w, op) && w.ops[op].stage.Made? {
      assert OpOk(w, w.ops[op]);
      SaveArrives(w, Apply(scheme, w, SaveRecord(op)), op, w.ops[op].stage.id);
    }
  }

  lemma SaveArrives(w: World, w': World, op: OperationId, id: TokenId)
    requires Inv(w) && Rotates(w, op) && IsNamed(w, DeployToken(id), w.ops[op].name)
    requires w' == Stored(w, w.ops[op].place, DeployToken(id)).(ops := w'.ops) && OnlyOp(w, w', op)
    requires op in w'.ops ==> StageOk(w', w.ops[op].name, w.ops[op].place, w'.ops[op].stage)
    ensures Inv(w')
  {
    assert NoNewSync(w, w');
    forall other | other in w.ops && other != op && w.ops[other].Rotating?
      ensures ArrivesAt(w, w', w.ops[op].place, w.ops[other].name)
    {
      assert OpOk(w, w.ops[other]) && Apart(w.ops[op], w.ops[other]);
      HeldElsewhereHas(w, w.ops[other].name, w.ops[other].place, w.ops[op].place);
    }
    SecretArrives(w, w', op);
  }

  /** The secret of `op` arrived at its place. */
  lemma SecretArrives(w: World, w': World, op: OperationId)
    requires Inv(w) && OnlyOp(w, w', op) && w'.live == w.live && w'.revoked == w.revoked && UsedOk(w')
    requires w.ops[op].Syncing? ==> op !in w'.ops
    requires op in w'.ops ==> StageOk(w', w.ops[op].name, w.ops[op].place, w'.ops[op].stage)
    requires forall other | other in w.ops && other != op && w.ops[other].Rotating? ::
      ArrivesAt(w, w', w.ops[op].place, w.ops[other].name)
    requires w.ops[op].Rotating? ==>
      forall p | p != w.ops[op].place ::
        && (p in w'.stored ==> p in w.stored && w'.stored[p] == w.stored[p])
        && (p in w'.jenkins ==> p in w.jenkins && w'.jenkins[p] == w.jenkins[p])
    ensures Inv(w')
  {
    assert OpOk(w, w.ops[op]);
    forall other | other in w.ops && other != op ensures OpOk(w', w.ops[other]) {
      assert Apart(w.ops[op], w.ops[other]);
      ArrivalKeepsOp(w, w', w.ops[op].place, w.ops[other]);
    }
    assert NoNewSync(w, w');
    OneOpChanged(w, w', op);
  }

  lemma PushArrives(w: World, w': World, op: OperationId, secret: Secret)
    requires Inv(w) && op in w.ops && w' == Pushed(w, w.ops[op].place, secret).(ops := w'.ops) && OnlyOp(w, w', op)
    requires Works(w, secret) && (w.ops[op].Syncing? ==> op !in w'.ops)
    requires op in w'.ops ==> StageOk(w', w.ops[op].name, w.ops[op].place, w'.ops[op].stage)
    requires forall other | other in w.ops && other != op && w.ops[other].Rotating? :: !IsNamed(w, secret, w.ops[other].name)
    ensures Inv(w')
  {
    assert NoNewSync(w, w');
    forall other | other in w.ops && other != op && w.ops[other].Rotating?
      ensures ArrivesAt(w, w', w.ops[op].place, w.ops[other].name)
    {
      assert OpOk(w, w.ops[other]) && Apart(w.ops[op], w.ops[other]);
      HeldElsewhereHas(w, w.ops[other].name, w.ops[other].place, w.ops[op].place);
    }
    SecretArrives(w, w', op);
  }

  lemma PushKeepsInv(scheme: Scheme, w: World, op: OperationId, recorded: bool)
    requires Inv(w)
    ensures Inv(Apply(scheme, w, Push(op, recorded)))
  {
    var w' := Apply(scheme, w, Push(op, recorded));
    if Rotates(w, op) && w.ops[op].stage.Carrying? {
      assert OpOk(w, w.ops[op]);
      forall other | other in w.ops && other != op && w.ops[other].Rotating?
        ensures !IsNamed(w, w.ops[op].stage.secret, w.ops[other].name)
      {
        assert Apart(w.ops[op], w.ops[other]);
      }
      PushArrives(w, w', op, w.ops[op].stage.secret);
    } else if op in w.ops && w.ops[op].Syncing? {
      assert OpOk(w, w.ops[op]);
      forall other | other in w.ops && other != op && w.ops[other].Rotating?
        ensures !IsNamed(w, w.ops[op].secret, w.ops[other].name)
      {
        assert OpOk(w, w.ops[other]) && Apart(w.ops[op], w.ops[other]);
      }
      PushArrives(w, w', op, w.ops[op].secret);
    }
  }

  /** The record at a place became no deploy token. */
  lemma OperatorKeepsOp(w: World, w': World, place: Place, o: Operation)
    requires OpOk(w, o) && w' == w.(stored := w'.stored)
    requires w'.stored == w.stored - {place} || (exists secret: Secret :: !secret.DeployToken? && w'.stored == w.stored[place := secret])
    ensures OpOk(w', o)
  {
    assert place in w'.stored ==> !w'.stored[place].DeployToken?;
    assert w'.stored.Keys - {place} == w.stored.Keys - {place};
    if o.place != place {
      if o.Rotating? {
        HeldElsewhereHas(w, o.name, o.place, place);
      }
      ArrivalKeepsOp(w, w', place, o);
    } else if o.Rotating? {
      assert !HeldElsewhere(w', o.name, o.place);
    }
  }

  lemma HeldElsewhereHas(w: World, name: TokenName, home: Place, place: Place)
    requires !HeldElsewhere(w, name, home) && place != home
    ensures place in w.stored ==> !IsNamed(w, w.stored[place], name)
    ensures place in w.jenkins ==> !IsNamed(w, w.jenkins[place], name)
  {
  }

  lemma OperatorStepKeepsInv(scheme: Scheme, w: World, s: Step)
    requires Inv(w) && Allowed(scheme, w, s) && (s.SaveSecret? || s.DropRecord?)
    ensures Inv(Apply(scheme, w, s))
  {
    var w' := Apply(scheme, w, s);
    forall o | o in w.ops ensures OpOk(w', w.ops[o]) {
      OperatorKeepsOp(w, w', s.place, w.ops[o]);
    }
  }

  lemma BeginRotationKeepsInv(scheme: Scheme, w: World, op: OperationId, slot: Slot, listed: set<TokenId>)
    requires Inv(w) && Allowed(scheme, w, BeginRotation(op, slot, listed))
    ensures Inv(Apply(scheme, w, BeginRotation(op, slot, listed)))
  {
    var w' := Apply(scheme, w, BeginRotation(op, slot, listed));
    if op !in w.ops {
      forall o | o in w'.ops ensures OpOk(w', w'.ops[o]) {
        if o == op {
          assert AtMostDropped(w, w');
        } else {
          SameKeepsOp(w, w', w.ops[o]);
        }
      }
    }
  }

  lemma BeginSyncKeepsInv(scheme: Scheme, w: World, op: OperationId, place: Place)
    requires Inv(w) && Allowed(scheme, w, BeginSync(op, place))
    ensures Inv(Apply(scheme, w, BeginSync(op, place)))
  {
    var w' := Apply(scheme, w, BeginSync(op, place));
    if op !in w.ops && place in w.stored {
      forall o | o in w.ops ensures OpOk(w', w.ops[o]) {
        assert OpOk(w, w.ops[o]) && w.ops[o].place != place;
        if w.ops[o].Rotating? {
          assert !IsNamed(w, w.stored[place], w.ops[o].name);
        }
      }
      assert OpOk(w', w'.ops[op]);
    }
  }

  lemma RejectKeepsInv(scheme: Scheme, w: World, op: OperationId)
    requires Inv(w)
    ensures Inv(Apply(scheme, w, RejectToken(op)))
  {
    if Rotates(w, op) && w.ops[op].stage.Made? {
      assert OpOk(w, w.ops[op]);
      OnlyOpsChanged(w, Apply(scheme, w, RejectToken(op)), op);
    }
  }

  lemma ReadKeepsInv(scheme: Scheme, w: World, op: OperationId)
    requires Inv(w)
    ensures Inv(Apply(scheme, w, ReadRecord(op)))
  {
    if Rotates(w, op) && w.ops[op].stage.Kept? {
      assert OpOk(w, w.ops[op]);
      OnlyOpsChanged(w, Apply(scheme, w, ReadRecord(op)), op);
    }
  }

  lemma StopKeepsInv(w: World, op: OperationId)
    requires Inv(w)
    ensures Inv(Done(w, op))
  {
    if op in w.ops {
      OnlyOpsChanged(w, Done(w, op), op);
    } else {
      assert Done(w, op) == w;
    }
  }

  lemma PrimaryDoesNotMatter(w: World, primary: map<string, string>)
    requires Inv(w)
    ensures Inv(w.(primary := primary))
  {
    var w' := w.(primary := primary);
    forall o | o in w.ops ensures OpOk(w', w.ops[o]) {
      SameKeepsOp(w, w', w.ops[o]);
    }
  }

  lemma StepKeepsInv(scheme: Scheme, w: World, s: Step)
    requires Inv(w) && Allowed(scheme, w, s)
    ensures Inv(Apply(scheme, w, s))
  {
    match s
    case CreateToken(op, id, answered) => CreateKeepsInv(scheme, w, op, id, answered);
    case DiscardToken(op, done) => DiscardKeepsInv(scheme, w, op, done);
    case DeleteOlder(op, id, done) => DeleteKeepsInv(scheme, w, op, id, done);
    case SaveRecord(op) => SaveKeepsInv(scheme, w, op);
    case Push(op, recorded) => PushKeepsInv(scheme, w, op, recorded);
    case SaveSecret(_, _) => OperatorStepKeepsInv(scheme, w, s);
    case DropRecord(_) => OperatorStepKeepsInv(scheme, w, s);
    case BeginRotation(op, slot, listed) => BeginRotationKeepsInv(scheme, w, op, slot, listed);
    case BeginSync(op, place) => BeginSyncKeepsInv(scheme, w, op, place);
    case ChangePrimary(project, root) => PrimaryDoesNotMatter(w, w.primary[project := root]);
    case RejectToken(op) => RejectKeepsInv(scheme, w, op);
    case ReadRecord(op) => ReadKeepsInv(scheme, w, op);
    case Stop(op) => StopKeepsInv(w, op);
  }

  lemma {:induction false} RunKeepsInv(scheme: Scheme, w: World, steps: seq<Step>)
    requires Inv(w) && AllowedRun(scheme, w, steps)
    ensures Inv(After(scheme, w, steps))
    decreases |steps|
  {
    if steps != [] {
      StepKeepsInv(scheme, w, steps[0]);
      RunKeepsInv(scheme, Apply(scheme, w, steps[0]), steps[1..]);
    }
  }

  lemma InvIsSafe(w: World)
    requires Inv(w)
    ensures Safe(w)
  {
  }

  /** Rotation safety: no interleaving, no failure and no change of a primary root group ever leaves Jenkins, or the
      store, with a token the platform has revoked, as long as no rotation starts while another place holds a token of
      its name. */
  lemma RotationIsSafe(scheme: Scheme, primary: map<string, string>, steps: seq<Step>)
    requires AllowedRun(scheme, Start(primary), steps)
    ensures Safe(After(scheme, Start(primary), steps))
  {
    RunKeepsInv(scheme, Start(primary), steps);
    InvIsSafe(After(scheme, Start(primary), steps));
  }

  lemma UsedIsNotRevoked(w: World, id: TokenId)
    requires Inv(w) && id in w.revoked
    ensures forall place | place in w.jenkins :: w.jenkins[place] != DeployToken(id)
    ensures forall place | place in w.stored :: w.stored[place] != DeployToken(id)
  {
  }

  /** A step revokes only what neither Jenkins nor the store uses, and an older token only once Jenkins has
      accepted the secret that replaces it. */
  lemma RevokesOnlyReplaced(scheme: Scheme, w: World, s: Step, id: TokenId)
    requires Inv(w) && Allowed(scheme, w, s)
    requires id !in w.revoked && id in Apply(scheme, w, s).revoked
    ensures forall place | place in w.jenkins :: w.jenkins[place] != DeployToken(id)
    ensures forall place | place in w.stored :: w.stored[place] != DeployToken(id)
    ensures s.DiscardToken? || (s.DeleteOlder? && Rotates(w, s.op) && w.ops[s.op].stage.Clearing? && id != w.ops[s.op].stage.id)
  {
    StepKeepsInv(scheme, w, s);
    var w' := Apply(scheme, w, s);
    assert s.DiscardToken? || s.DeleteOlder?;
    assert w'.jenkins == w.jenkins && w'.stored == w.stored;
    UsedIsNotRevoked(w', id);
  }
}
