/** `SyncSourceCredential` and `SyncDeliveryCredential` of internal/gitlab/source_repository.go, call by call. Each
    remote call is a step of RotationModel; what the remote side answers is a parameter. */
module CredentialSync {
  import opened RotationModel

  datatype Creation =
    | NewToken(id: TokenId)          // GitLab made the token and said so
    | LostToken(id: TokenId)         // GitLab made the token, the answer was lost
    | Refused(insufficientScope: bool)

  /** What the remote calls of one synchronization answer, in the order they are made. */
  datatype Answers = Answers(
    groupFound: bool,
    listed: set<TokenId>,            // {} when listing the deploy tokens failed
    creation: Creation,
    readable: seq<bool>,             // can the new token read the i-th selected repository?
    platformReads: seq<bool>,        // can the platform's own token?
    saved: bool,                     // did SaveCredential succeed?
    fetched: bool,                   // could SyncCredential read the record it saved?
    pushed: bool,                    // did Jenkins take the secret?
    recorded: bool,                  // was the synchronization status saved?
    discarded: bool,                 // did deleting the new token succeed?
    deletes: set<TokenId>)           // the old tokens GitLab agrees to delete

  /** The credential record found under the slot's key. */
  datatype Existing = NoRecord | Foreign | Managed(compatibility: bool, readable: seq<bool>)

  datatype Outcome = Synchronized | Conflict | Failed

  function AllTrue(answers: seq<bool>): bool {
    forall i | 0 <= i < |answers| :: answers[i]
  }

  /** The record under the slot's key belongs to the platform, and its secret reads every repository. */
  predicate StillWorks(existing: Existing) {
    existing.Managed? && forall k | 0 <= k < |existing.readable| :: existing.readable[k]
  }

  /** The synchronization of a source root gets as far as asking GitLab for a token. */
  predicate AsksForToken(existing: Existing, a: Answers) {
    !existing.Foreign? && a.groupFound && !(StillWorks(existing) && !existing.compatibility)
  }

  /** A new token was made, reads every selected repository and was saved. */
  predicate TokenIsSaved(a: Answers) {
    a.creation.NewToken? && a.saved && forall k | 0 <= k < |a.readable| :: a.readable[k]
  }

  /** The platform's own token may stand in: GitLab refused for lack of scope and for nothing else, and the own token
      reads every selected repository. */
  predicate OwnTokenIsSaved(a: Answers) {
    a.creation == Refused(true) && a.saved && forall k | 0 <= k < |a.platformReads| :: a.platformReads[k]
  }

  /** How a rotation ends once GitLab has made the token. */
  ghost predicate Rotated(scheme: Scheme, before: World, after: World, slot: Slot, a: Answers, outcome: Outcome)
    requires a.creation.NewToken?
  {
    var home, name, secret := Home(scheme, before, slot), scheme.name(slot), DeployToken(a.creation.id);
    && (outcome == Synchronized <==> TokenIsSaved(a) && a.fetched && a.pushed && a.recorded)
    && after.stored == (if TokenIsSaved(a) then before.stored[home := secret] else before.stored)
    && after.jenkins == (if TokenIsSaved(a) && a.fetched && a.pushed then before.jenkins[home := secret] else before.jenkins)
    && after.live == (
         if outcome == Synchronized then before.live[secret.id := name] - (a.listed * Named(before, name) * a.deletes)
         else if !TokenIsSaved(a) && a.discarded then before.live
         else before.live[secret.id := name])
    && (outcome == Synchronized && Named(before, name) <= a.listed * a.deletes ==> Named(after, name) == {secret.id})
  }

  /** How a push of the stored secret ends. */
  ghost predicate Resynced(scheme: Scheme, before: World, after: World, slot: Slot, a: Answers, outcome: Outcome) {
    var home := Home(scheme, before, slot);
    && (outcome == Synchronized <==> home in before.stored && a.fetched && a.pushed && a.recorded)
    && after.stored == before.stored
    && after.jenkins == (if home in before.stored && a.fetched && a.pushed
         then before.jenkins[home := before.stored[home]] else before.jenkins)
  }

  /** How a synchronization ends that has neither a new token nor a secret that works. */
  ghost predicate FellBack(scheme: Scheme, before: World, after: World, slot: Slot, a: Answers, outcome: Outcome) {
    var home := Home(scheme, before, slot);
    && (outcome == Synchronized <==> OwnTokenIsSaved(a) && a.fetched && a.pushed && a.recorded)
    && after.stored == (if OwnTokenIsSaved(a) then before.stored[home := ApiToken] else before.stored)
    && after.jenkins == (if OwnTokenIsSaved(a) && a.fetched && a.pushed
         then before.jenkins[home := ApiToken] else before.jenkins)
  }

  /** The tokens after a creation that brought no token. */
  ghost predicate OnlyLost(scheme: Scheme, before: World, after: World, slot: Slot, a: Answers) {
    after.live == if a.creation.LostToken? then before.live[a.creation.id := scheme.name(slot)] else before.live
  }

  class Synchronizer {
    const scheme: Scheme
    const primary: map<string, string>
    var world: World

    /** Every call made so far. */
    ghost var trace: seq<Step>

    ghost predicate Valid()
      reads this
    {
      world == After(scheme, Start(primary), trace)
    }

    /** Every rotation started while no other place held a token of its name. */
    ghost predicate Guarded()
      reads this
    {
      AllowedRun(scheme, Start(primary), trace)
    }

    ghost predicate MayRotate(slot: Slot)
      reads this
    {
      && !PlaceBusy(world, Home(scheme, world, slot)) && !NameBusy(world, scheme.name(slot))
      && !HeldElsewhere(world, scheme.name(slot), Home(scheme, world, slot))
    }

    /** Whatever calls were made and however they ended, no revoked token is in use, if rotations were guarded. */
    lemma GuardedIsSafe()
      requires Valid() && Guarded()
      ensures Safe(world)
    {
      RotationIsSafe(scheme, primary, trace);
    }

    constructor (scheme: Scheme, primary: map<string, string>)
      ensures Valid() && Guarded() && world == Start(primary) && this.scheme == scheme
    {
      this.scheme, this.primary := scheme, primary;
      world := Start(primary);
      trace := [];
    }

    /** Jenkins has at this place what the store has. */
    ghost predicate Agree(place: Place)
      reads this
    {
      place in world.stored && place in world.jenkins && world.jenkins[place] == world.stored[place]
    }

    /** One remote call. */
    method Do(s: Step)
      requires Valid()
      modifies this
      ensures Valid()
      ensures world == Apply(scheme, old(world), s)
      ensures old(Guarded()) && Allowed(scheme, old(world), s) ==> Guarded()
    {
      AppendStep(scheme, Start(primary), trace, s);
      world := Apply(scheme, world, s);
      trace := trace + [s];
    }

    /** A call inside an operation. */
    method Go(s: Step)
      requires Valid() && Free(s)
      modifies this
      ensures Valid() && (old(Guarded()) ==> Guarded())
      ensures world == Apply(scheme, old(world), s)
    {
      Do(s);
    }

    /** The settings of a project name another primary root group. */
    method ChangePrimaryRoot(project: string, root: string)
      requires Valid()
      modifies this
      ensures Valid() && (old(Guarded()) ==> Guarded())
      ensures world == old(world).(primary := old(world).primary[project := root])
    {
      Go(ChangePrimary(project, root));
    }

    /** Gives the new token back to GitLab. */
    method Discard(op: OperationId, done: bool)
      requires Valid() && Rotates(world, op) && world.ops[op].stage.Made?
      modifies this
      ensures Valid() && (old(Guarded()) ==> Guarded())
      ensures world.ops == old(world).ops - {op}
      ensures world.stored == old(world).stored && world.jenkins == old(world).jenkins && world.primary == old(world).primary
      ensures world.live == if done then old(world).live - {old(world).ops[op].stage.id} else old(world).live
      ensures world.revoked == if done then old(world).revoked + {old(world).ops[op].stage.id} else old(world).revoked
    {
      Go(RejectToken(op));
      Go(DiscardToken(op, done));
    }

    /** `SaveCredential` and `SyncCredential` for the new token, as far as the answers let them get. */
    method SaveAndPush(op: OperationId, place: Place, a: Answers) returns (ok: bool)
      requires Valid() && Rotates(world, op) && world.ops[op].place == place && world.ops[op].stage.Made?
      modifies this
      ensures Valid() && (old(Guarded()) ==> Guarded())
      ensures world.live == old(world).live && world.revoked == old(world).revoked && world.primary == old(world).primary
      ensures ok <==> a.fetched && a.pushed && a.recorded
      ensures world.stored == old(world).stored[place := DeployToken(old(world).ops[op].stage.id)]
      ensures world.jenkins == if a.fetched && a.pushed
        then old(world).jenkins[place := DeployToken(old(world).ops[op].stage.id)] else old(world).jenkins
      ensures ok ==> world.ops == old(world).ops[op :=
        Rotating(old(world).ops[op].name, place, Clearing(old(world).ops[op].stage.older, old(world).ops[op].stage.id))]
      ensures !ok ==> world.ops == old(world).ops - {op}
    {
      Go(SaveRecord(op));
      if !a.fetched {
        Go(Stop(op));
        return false;
      }
      ok := PushSaved(op, place, a);
    }

    /** `SyncCredential` inside a rotation. */
    method PushSaved(op: OperationId, place: Place, a: Answers) returns (ok: bool)
      requires Valid() && Rotates(world, op) && world.ops[op].place == place && world.ops[op].stage.Kept? && place in world.stored
      modifies this
      ensures Valid() && (old(Guarded()) ==> Guarded())
      ensures world.live == old(world).live && world.revoked == old(world).revoked && world.primary == old(world).primary && world.stored == old(world).stored
      ensures ok <==> a.pushed && a.recorded
      ensures world.jenkins == if a.pushed then old(world).jenkins[place := old(world).stored[place]] else old(world).jenkins
      ensures ok ==> world.ops == old(world).ops[op :=
        Rotating(old(world).ops[op].name, place, Clearing(old(world).ops[op].stage.older, old(world).ops[op].stage.id))]
      ensures !ok ==> world.ops == old(world).ops - {op}
    {
      Go(ReadRecord(op));
      if !a.pushed {
        Go(Stop(op));
        return false;
      }
      Go(Push(op, a.recorded));
      return a.recorded;
    }

    /** One turn of the loop over the old tokens. */
    method DeleteOne(op: OperationId, id: TokenId, done: bool)
      requires Valid() && Rotates(world, op) && world.ops[op].stage.Clearing?
      requires id in world.ops[op].stage.older && id != world.ops[op].stage.id
      modifies this
      ensures Valid() && (old(Guarded()) ==> Guarded())
      ensures Rotates(world, op)
      ensures world.ops[op].stage == Clearing(old(world).ops[op].stage.older - {id}, old(world).ops[op].stage.id)
      ensures world.ops - {op} == old(world).ops - {op}
      ensures world.stored == old(world).stored && world.jenkins == old(world).jenkins && world.primary == old(world).primary
      ensures world.live == if done then old(world).live - {id} else old(world).live
    {
      Go(DeleteOlder(op, id, done));
    }

    /** The loop over the old tokens; a token that cannot be deleted stays. */
    method ClearOlder(op: OperationId, deletes: set<TokenId>)
      requires Valid() && Rotates(world, op) && world.ops[op].stage.Clearing?
      requires world.ops[op].stage.id !in world.ops[op].stage.older
      modifies this
      ensures Valid() && (old(Guarded()) ==> Guarded())
      ensures op in world.ops && world.ops - {op} == old(world).ops - {op}
      ensures world.stored == old(world).stored && world.jenkins == old(world).jenkins && world.primary == old(world).primary
      ensures world.live == old(world).live - (old(world).ops[op].stage.older * deletes)
    {
      var rest := world.ops[op].stage.older;
      ghost var older := rest;
      assert older - rest == {};
      while rest != {}
        invariant Valid() && rest <= older && (old(Guarded()) ==> Guarded())
        invariant Rotates(world, op) && world.ops[op].stage == Clearing(rest, old(world).ops[op].stage.id)
        invariant world.ops - {op} == old(world).ops - {op}
        invariant world.stored == old(world).stored && world.jenkins == old(world).jenkins && world.primary == old(world).primary
        invariant world.live == old(world).live - ((older - rest) * deletes)
        decreases rest
      {
        var t :| t in rest;
        DeleteOne(op, t, t in deletes);
        assert (older - (rest - {t})) * deletes == (older - rest) * deletes + if t in deletes then {t} else {};
        rest := rest - {t};
      }
      assert older - rest == older;
    }

    /** The common part of both operations once a token has been made: check, save, push, clear. A failure before
        the save is complete gives the new token back; a failure after it revokes nothing. */
    method InstallToken(op: OperationId, place: Place, a: Answers) returns (ok: bool)
      requires Valid() && Rotates(world, op) && world.ops[op].place == place && world.ops[op].stage.Made?
      requires world.ops[op].stage.id !in world.ops[op].stage.older
      modifies this
      ensures Valid() && (old(Guarded()) ==> Guarded())
      ensures world.ops == old(world).ops - {op} && world.primary == old(world).primary
      ensures ok <==> AllTrue(a.readable) && a.saved && a.fetched && a.pushed && a.recorded
      ensures ok ==> var id := old(world).ops[op].stage.id;
        && world.stored == old(world).stored[place := DeployToken(id)]
        && world.jenkins == old(world).jenkins[place := DeployToken(id)]
        && world.live == old(world).live - (old(world).ops[op].stage.older * a.deletes)
      ensures !(AllTrue(a.readable) && a.saved) ==>
        && world.stored == old(world).stored && world.jenkins == old(world).jenkins
        && world.live == if a.discarded then old(world).live - {old(world).ops[op].stage.id} else old(world).live
      ensures AllTrue(a.readable) && a.saved ==> var id := old(world).ops[op].stage.id;
        && world.stored == old(world).stored[place := DeployToken(id)]
        && world.jenkins == if a.fetched && a.pushed then old(world).jenkins[place := DeployToken(id)] else old(world).jenkins
      ensures !ok && AllTrue(a.readable) && a.saved ==> world.live == old(world).live && world.revoked == old(world).revoked
    {
      var i := 0;
      while i < |a.readable|
        invariant 0 <= i <= |a.readable| && forall k | 0 <= k < i :: a.readable[k]
      {
        if !a.readable[i] {
          Discard(op, a.discarded);
          return false;
        }
        i := i + 1;
      }
      if !a.saved {
        Discard(op, a.discarded);
        return false;
      }
      ok := SaveAndPush(op, place, a);
      if ok {
        ghost var kept := world.ops - {op};
        ClearOlder(op, a.deletes);
        Go(Stop(op));
        assert old(world).ops - {op} == kept;
      }
    }

    /** GitLab made a token and the answer never arrived: the token lives on until a later rotation finds it. */
    method LoseToken(op: OperationId, slot: Slot, listed: set<TokenId>, id: TokenId)
      requires Valid() && op !in world.ops
      requires id !in world.live && id !in world.revoked
      modifies this
      ensures Valid() && (old(Guarded() && MayRotate(slot)) ==> Guarded())
      ensures world == old(world).(live := old(world).live[id := scheme.name(slot)])
    {
      Do(BeginRotation(op, slot, listed));
      Go(CreateToken(op, id, false));
      assert world.ops == old(world).ops;
    }

    /** A full rotation: list, create, install. */
    method Rotate(op: OperationId, slot: Slot, id: TokenId, a: Answers) returns (ok: bool)
      requires Valid() && op !in world.ops
      requires id !in world.live && id !in world.revoked
      modifies this
      ensures Valid() && (old(Guarded() && MayRotate(slot)) ==> Guarded())
      ensures world.ops == old(world).ops && world.primary == old(world).primary
      ensures ok <==> AllTrue(a.readable) && a.saved && a.fetched && a.pushed && a.recorded
      ensures ok ==>
        && world.stored == old(world).stored[Home(scheme, old(world), slot) := DeployToken(id)]
        && world.jenkins == old(world).jenkins[Home(scheme, old(world), slot) := DeployToken(id)]
        && world.live == old(world).live[id := scheme.name(slot)] - (a.listed * Named(old(world), scheme.name(slot)) * a.deletes)
      ensures !(AllTrue(a.readable) && a.saved) ==>
        && world.stored == old(world).stored && world.jenkins == old(world).jenkins
        && world.live == if a.discarded then old(world).live else old(world).live[id := scheme.name(slot)]
      ensures AllTrue(a.readable) && a.saved ==>
        && world.stored == old(world).stored[Home(scheme, old(world), slot) := DeployToken(id)]
        && world.jenkins == if a.fetched && a.pushed
          then old(world).jenkins[Home(scheme, old(world), slot) := DeployToken(id)] else old(world).jenkins
      ensures AllTrue(a.readable) && a.saved && !ok ==> world.live == old(world).live[id := scheme.name(slot)]
    {
      Do(BeginRotation(op, slot, a.listed));
      Go(CreateToken(op, id, true));
      assert world.ops - {op} == old(world).ops;
      ghost var made := world.live;
      ok := InstallToken(op, Home(scheme, world, slot), a);
      assert made - {id} == old(world).live;
    }

    /** A full rotation whose token GitLab did make. */
    method RotateNow(op: OperationId, slot: Slot, a: Answers) returns (outcome: Outcome)
      requires Valid() && op !in world.ops
      requires a.creation.NewToken? && a.creation.id !in world.live && a.creation.id !in world.revoked
      modifies this
      ensures Valid() && (old(Guarded() && MayRotate(slot)) ==> Guarded())
      ensures world.ops == old(world).ops && world.primary == old(world).primary
      ensures outcome != Conflict && Rotated(scheme, old(world), world, slot, a, outcome)
      ensures outcome == Synchronized ==> Agree(Home(scheme, world, slot))
    {
      var ok := Rotate(op, slot, a.creation.id, a);
      if ok {
        OnlyTheNewToken(scheme, old(world), world, slot, a.creation.id, a.listed, a.deletes);
      }
      return if ok then Synchronized else Failed;
    }

    /** `SyncCredential` on its own. */
    method Resync(op: OperationId, slot: Slot, a: Answers) returns (ok: bool)
      requires Valid() && op !in world.ops
      modifies this
      ensures Valid() && (old(Guarded() && !PlaceBusy(world, Home(scheme, world, slot))) ==> Guarded())
      ensures world.ops == old(world).ops && world.primary == old(world).primary
      ensures ok <==> Home(scheme, old(world), slot) in old(world).stored && a.fetched && a.pushed && a.recorded
      ensures world.stored == old(world).stored && world.live == old(world).live && world.revoked == old(world).revoked
      ensures world.jenkins == if Home(scheme, old(world), slot) in old(world).stored && a.fetched && a.pushed
        then old(world).jenkins[Home(scheme, old(world), slot) := old(world).stored[Home(scheme, old(world), slot)]] else old(world).jenkins
    {
      var place := Home(scheme, world, slot);
      if place !in world.stored || !a.fetched {
        return false;
      }
      ok := SyncAt(op, place, a);
    }

    /** The record has been read. */
    method SyncAt(op: OperationId, place: Place, a: Answers) returns (ok: bool)
      requires Valid() && op !in world.ops && place in world.stored
      modifies this
      ensures Valid() && (old(Guarded() && !PlaceBusy(world, place)) ==> Guarded())
      ensures ok <==> a.pushed && a.recorded
      ensures world == if a.pushed then Pushed(old(world), place, old(world).stored[place]) else old(world)
    {
      Do(BeginSync(op, place));
      assert world.ops - {op} == old(world).ops;
      if !a.pushed {
        Go(Stop(op));
        return false;
      }
      Go(Push(op, a.recorded));
      return a.recorded;
    }

    /** The token of a creation whose answer was lost. */
    method LoseIfLost(op: OperationId, slot: Slot, a: Answers)
      requires Valid() && op !in world.ops && !a.creation.NewToken?
      requires !a.creation.Refused? ==> a.creation.id !in world.live && a.creation.id !in world.revoked
      modifies this
      ensures Valid() && (old(Guarded() && MayRotate(slot)) ==> Guarded())
      ensures world == old(world).(live := world.live) && OnlyLost(scheme, old(world), world, slot, a)
    {
      if a.creation.LostToken? {
        LoseToken(op, slot, a.listed, a.creation.id);
      }
    }

    /** `SyncCredential` as an outcome. */
    method PushAgain(op: OperationId, slot: Slot, a: Answers) returns (outcome: Outcome)
      requires Valid() && op !in world.ops
      modifies this
      ensures Valid() && (old(Guarded() && !PlaceBusy(world, Home(scheme, world, slot))) ==> Guarded())
      ensures world == old(world).(jenkins := world.jenkins)
      ensures outcome != Conflict && Resynced(scheme, old(world), world, slot, a, outcome)
      ensures outcome == Synchronized ==> Agree(Home(scheme, world, slot))
    {
      var ok := Resync(op, slot, a);
      return if ok then Synchronized else Failed;
    }

    /** The platform's own token in place of a new one. */
    method FallBack(op: OperationId, slot: Slot, a: Answers) returns (outcome: Outcome)
      requires Valid() && op !in world.ops
      modifies this
      ensures Valid() && (old(Guarded() && !PlaceBusy(world, Home(scheme, world, slot))) ==> Guarded())
      ensures world == old(world).(jenkins := world.jenkins, stored := world.stored)
      ensures outcome != Conflict && FellBack(scheme, old(world), world, slot, a, outcome)
      ensures outcome == Synchronized ==> Agree(Home(scheme, world, slot))
    {
      if !a.creation.Refused? || !a.creation.insufficientScope || !AllTrue(a.platformReads) || !a.saved {
        return Failed;
      }
      Do(SaveSecret(Home(scheme, world, slot), ApiToken));
      outcome := PushAgain(op, slot, a);
    }

    /** What `syncSourceRootCredential` does when GitLab made no token, or when its answer was lost. */
    method WithoutNewToken(op: OperationId, slot: Slot, stillValid: bool, a: Answers) returns (outcome: Outcome)
      requires Valid() && op !in world.ops && !a.creation.NewToken?
      requires !a.creation.Refused? ==> a.creation.id !in world.live && a.creation.id !in world.revoked
      modifies this
      ensures Valid() && (old(Guarded() && MayRotate(slot)) ==> Guarded())
      ensures world.ops == old(world).ops && world.primary == old(world).primary && world.revoked == old(world).revoked
      ensures outcome != Conflict && OnlyLost(scheme, old(world), world, slot, a)
      ensures stillValid ==> Resynced(scheme, old(world), world, slot, a, outcome)
      ensures !stillValid ==> FellBack(scheme, old(world), world, slot, a, outcome)
      ensures outcome == Synchronized ==> Agree(Home(scheme, world, slot))
    {
      LoseIfLost(op, slot, a);
      if stillValid {
        outcome := PushAgain(op, slot, a);
      } else {
        outcome := FallBack(op, slot, a);
      }
    }

    /** `syncSourceRootCredential`. A refusal for lack of scope falls back to the platform's own token, if that
        token reads every selected repository; any other refusal falls back to a credential that still works. */
    method SyncSourceRoot(op: OperationId, slot: Slot, existing: Existing, a: Answers) returns (outcome: Outcome)
      requires Valid() && op !in world.ops
      requires !a.creation.Refused? ==> a.creation.id !in world.live && a.creation.id !in world.revoked
      modifies this
      ensures Valid() && (old(Guarded() && MayRotate(slot)) ==> Guarded())
      ensures world.ops == old(world).ops && world.primary == old(world).primary
      ensures existing.Foreign? <==> outcome == Conflict
      ensures existing.Foreign? ==> world == old(world)
      ensures outcome == Synchronized ==> Agree(Home(scheme, world, slot))
      ensures AsksForToken(existing, a) && a.creation.NewToken? ==> Rotated(scheme, old(world), world, slot, a, outcome)
      ensures AsksForToken(existing, a) && !a.creation.NewToken? ==>
        && OnlyLost(scheme, old(world), world, slot, a)
        && (if StillWorks(existing) then Resynced(scheme, old(world), world, slot, a, outcome)
            else FellBack(scheme, old(world), world, slot, a, outcome))
      ensures !AsksForToken(existing, a) ==> world.live == old(world).live
      ensures StillWorks(existing) && !existing.compatibility ==> Resynced(scheme, old(world), world, slot, a, outcome)
      ensures !StillWorks(existing) && !a.groupFound ==> outcome != Synchronized && world == old(world)
    {
      if existing.Foreign? {
        return Conflict;
      }
      var stillValid := existing.Managed? && AllTrue(existing.readable);
      if stillValid && !existing.compatibility {
        outcome := PushAgain(op, slot, a);
        return;
      }
      if !a.groupFound {
        return Failed;
      }
      outcome := AskForToken(op, slot, stillValid, a);
    }

    /** The part of `syncSourceRootCredential` from the creation of a token on. */
    method AskForToken(op: OperationId, slot: Slot, stillValid: bool, a: Answers) returns (outcome: Outcome)
      requires Valid() && op !in world.ops
      requires !a.creation.Refused? ==> a.creation.id !in world.live && a.creation.id !in world.revoked
      modifies this
      ensures Valid() && (old(Guarded() && MayRotate(slot)) ==> Guarded())
      ensures world.ops == old(world).ops && world.primary == old(world).primary && outcome != Conflict
      ensures a.creation.NewToken? ==> Rotated(scheme, old(world), world, slot, a, outcome)
      ensures !a.creation.NewToken? ==>
        && OnlyLost(scheme, old(world), world, slot, a)
        && (if stillValid then Resynced(scheme, old(world), world, slot, a, outcome)
            else FellBack(scheme, old(world), world, slot, a, outcome))
      ensures outcome == Synchronized ==> Agree(Home(scheme, world, slot))
    {
      if a.creation.NewToken? {
        outcome := RotateNow(op, slot, a);
      } else {
        outcome := WithoutNewToken(op, slot, stillValid, a);
      }
    }

    /** `SyncDeliveryCredential`: a credential that still works is only pushed again, otherwise it is rotated. */
    method SyncDelivery(op: OperationId, slot: Slot, existing: Existing, a: Answers) returns (outcome: Outcome)
      requires Valid() && op !in world.ops
      requires !a.creation.Refused? ==> a.creation.id !in world.live && a.creation.id !in world.revoked
      modifies this
      ensures Valid() && (old(Guarded() && MayRotate(slot)) ==> Guarded())
      ensures world.ops == old(world).ops && world.primary == old(world).primary
      ensures existing.Foreign? <==> outcome == Conflict
      ensures existing.Foreign? ==> world == old(world)
      ensures outcome == Synchronized ==> Agree(Home(scheme, world, slot))
      ensures StillWorks(existing) ==> Resynced(scheme, old(world), world, slot, a, outcome) && world.live == old(world).live
      ensures !StillWorks(existing) && !existing.Foreign? && a.groupFound && a.creation.NewToken? ==>
        Rotated(scheme, old(world), world, slot, a, outcome)
      ensures !StillWorks(existing) && !existing.Foreign? && !(a.groupFound && a.creation.NewToken?) ==>
        && outcome == Failed && world.stored == old(world).stored && world.jenkins == old(world).jenkins
        && (if a.groupFound then OnlyLost(scheme, old(world), world, slot, a) else world.live == old(world).live)
    {
      if existing.Foreign? {
        return Conflict;
      }
      if existing.Managed? && AllTrue(existing.readable) {
        outcome := PushAgain(op, slot, a);
        return;
      }
      if !a.groupFound || !a.creation.NewToken? {
        if a.groupFound && a.creation.LostToken? {
          LoseToken(op, slot, a.listed, a.creation.id);
        }
        return Failed;
      }
      outcome := RotateNow(op, slot, a);
    }
  }

  lemma OnlyTheNewToken(scheme: Scheme, before: World, after: World, slot: Slot, id: TokenId,
                        listed: set<TokenId>, deletes: set<TokenId>)
    requires id !in before.live
    requires after.live == before.live[id := scheme.name(slot)] - (listed * Named(before, scheme.name(slot)) * deletes)
    ensures listed >= Named(before, scheme.name(slot)) && deletes >= Named(before, scheme.name(slot)) ==>
      Named(after, scheme.name(slot)) == {id}
  {
  }

  lemma {:induction false} AppendStep(scheme: Scheme, w: World, steps: seq<Step>, s: Step)
    ensures AllowedRun(scheme, w, steps) && Allowed(scheme, After(scheme, w, steps), s) ==> AllowedRun(scheme, w, steps + [s])
    ensures After(scheme, w, steps + [s]) == Apply(scheme, After(scheme, w, steps), s)
    decreases |steps|
  {
    if steps == [] {
      assert steps + [s] == [s] && [s][1..] == [];
    } else {
      assert (steps + [s])[0] == steps[0] && (steps + [s])[1..] == steps[1..] + [s];
      AppendStep(scheme, Apply(scheme, w, steps[0]), steps[1..], s);
    }
  }
}
