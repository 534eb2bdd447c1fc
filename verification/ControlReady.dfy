/** A job that is stored as ready is deployed: the Jenkins job it names has the settings of the record. */
module ControlReady {
  import opened Options
  import opened Documents
  import opened ControlModel
  import opened ControlSafety

  /** The remote job on this server has every setting the record has. */
  predicate DeployedAt(w: World, job: Job, endpoint: string) {
    var at := RemoteKey(endpoint, job.jenkinsName);
    at in w.remote && Agrees(job, ExternalId(w, job.credential), w.remote[at])
  }

  predicate IsDeployed(w: World, job: Job) {
    job.connection in w.connections && DeployedAt(w, job, w.connections[job.connection].endpoint)
  }

  ghost predicate ReadyMeansDeployed(w: World) {
    forall j | j in w.jobs && w.jobs[j].status == Ready :: IsDeployed(w, w.jobs[j])
  }

  /** The Jenkins job a record leads to. */
  function PlaceOf(w: World, job: Job): RemoteKey
    requires job.connection in w.connections
  {
    RemoteKey(w.connections[job.connection].endpoint, job.jenkinsName)
  }

  // ---------------------------------------------------------------- the operations that can break the promise

  /** Every ready job on this connection is also deployed on the server the connection moves to. */
  ghost predicate MoveIsHarmless(w: World, connection: Key, endpoint: string) {
    forall j | j in w.jobs && w.jobs[j].status == Ready && w.jobs[j].connection == connection ::
      DeployedAt(w, w.jobs[j], endpoint)
  }

  /** `SaveConnection` gets as far as writing the connection. */
  predicate ConnectionIsSaved(w: World, key: Key, environment: Environment, complete: bool, token: bool, stored: bool) {
    && Deployable(environment) && complete && stored && key in w.connections
    && (token || w.connections[key].hasToken)
    && (if w.connections[key].environment.Blank?
        then forall j | j in w.jobs && w.jobs[j].connection == key :: w.jobs[j].environment in {Blank, environment}
        else w.connections[key].environment == environment)
  }

  predicate ManagedIsSaved(w: World, key: Key, environment: Environment, complete: bool, stored: bool) {
    && !environment.Blank? && complete && stored && key in w.connections
    && w.connections[key].environment in {Blank, environment}
  }

  predicate ReachesDeletion(w: World, key: Key, reachable: bool, removal: Removal) {
    && key in w.jobs && !HasActiveBuild(w, key)
    && EndpointFor(w, w.jobs[key], w.jobs[key].environment).Some? && reachable && !removal.Refused?
  }

  /** The synchronization gets as far as sending the job to Jenkins. */
  predicate ReachesPost(w: World, key: Key, a: SyncAnswers) {
    && key in w.jobs
    && EndpointFor(w, w.jobs[key], w.jobs[key].environment).Some? && a.reachable
    && CredentialReady(w, w.jobs[key], w.jobs[key].credential) && CredentialReady(w, w.jobs[key], w.jobs[key].manifestCredential)
  }

  /** Another ready record leads to this Jenkins job too, through a connection of its own to the same server. */
  predicate SharesPlace(w: World, key: Key, at: RemoteKey, j: Key) {
    && j in w.jobs && j != key && w.jobs[j].status == Ready
    && w.jobs[j].connection in w.connections && PlaceOf(w, w.jobs[j]) == at
  }

  /** No other ready record leads to this Jenkins job with other settings. */
  ghost predicate OthersAgree(w: World, key: Key, at: RemoteKey, settings: RemoteJob) {
    forall j | SharesPlace(w, key, at, j) :: Agrees(w.jobs[j], ExternalId(w, w.jobs[j].credential), settings)
  }

  ghost predicate NobodyElse(w: World, key: Key, at: RemoteKey) {
    forall j :: !SharesPlace(w, key, at, j)
  }

  /** What Jenkins stored fits every other ready record of that Jenkins job, and the record itself if that stays ready
      because its new status could not be saved. */
  ghost predicate PostIsHarmless(w: World, key: Key, a: SyncAnswers, stored: bool) {
    ReachesPost(w, key, a) && a.posted.Some? ==>
      && OthersAgree(w, key, PlaceOf(w, w.jobs[key]), a.posted.value)
      && (stored || w.jobs[key].status != Ready || Agrees(w.jobs[key], ExternalId(w, w.jobs[key].credential), a.posted.value))
  }

  ghost predicate SyncIsHarmless(w: World, key: Key, prepared: bool, a: SyncAnswers, stored: bool) {
    key in w.jobs && (w.jobs[key].generated ==> prepared) ==> PostIsHarmless(Prepared(w, key, prepared), key, a, stored)
  }

  ghost predicate DeletionIsHarmless(w: World, key: Key, alsoRemote: bool, reachable: bool, removal: Removal, stored: bool) {
    alsoRemote && ReachesDeletion(w, key, reachable, removal) ==>
      (stored || w.jobs[key].status != Ready) && NobodyElse(w, key, PlaceOf(w, w.jobs[key]))
  }

  /** What decides whether an operation keeps the promise. It can break it by moving a connection to another server, by
      removing the Jenkins job without the record, by losing the result of a synchronization, and by sending or removing
      a Jenkins job that a record of another connection to the same server leads to. */
  ghost predicate Harmless(w: World, s: Step) {
    match s
    case SaveConnection(key, environment, endpoint, complete, token, stored) =>
      ConnectionIsSaved(w, key, environment, complete, token, stored) ==> MoveIsHarmless(w, key, endpoint)
    case SaveManagedConnection(key, environment, endpoint, complete, stored) =>
      ManagedIsSaved(w, key, environment, complete, stored) ==> MoveIsHarmless(w, key, endpoint)
    case DeleteJob(key, alsoRemote, reachable, removal, stored) =>
      DeletionIsHarmless(w, key, alsoRemote, reachable, removal, stored)
    case SyncJob(key, prepared, answers, stored) => SyncIsHarmless(w, key, prepared, answers, stored)
    case _ => true
  }

  // ---------------------------------------------------------------- what keeps a job deployed

  lemma OnlyJobsChanged(w: World, w': World)
    requires ReadyMeansDeployed(w) && Isolated(w)
    requires w'.remote == w.remote && w'.connections == w.connections && w'.credentials == w.credentials
    requires forall j | j in w'.jobs && w'.jobs[j].status == Ready :: j in w.jobs && w'.jobs[j] == w.jobs[j]
    ensures ReadyMeansDeployed(w')
  {
    forall j | j in w'.jobs && w'.jobs[j].status == Ready ensures IsDeployed(w', w'.jobs[j]) {
      assert IsDeployed(w, w.jobs[j]);
    }
  }

  // ---------------------------------------------------------------- connections

  /** A connection that moves keeps the promise exactly when the move is harmless. */
  lemma MovedConnection(w: World, key: Key, connection: Connection)
    requires Isolated(w) && ReadyMeansDeployed(w)
    ensures var w' := w.(connections := w.connections[key := connection]);
      ReadyMeansDeployed(w') <==> MoveIsHarmless(w, key, connection.endpoint)
  {
    var w' := w.(connections := w.connections[key := connection]);
    forall j | j in w.jobs && w.jobs[j].status == Ready
      ensures IsDeployed(w', w.jobs[j]) <==> w.jobs[j].connection != key || DeployedAt(w, w.jobs[j], connection.endpoint)
    {
      assert IsDeployed(w, w.jobs[j]);
      assert DeployedAt(w', w.jobs[j], connection.endpoint) == DeployedAt(w, w.jobs[j], connection.endpoint);
    }
  }

  lemma ConnectionStep(w: World, key: Key, environment: Environment, endpoint: string, complete: bool, token: bool, stored: bool)
    requires Isolated(w) && ReadyMeansDeployed(w)
    ensures ReadyMeansDeployed(SavedConnection(w, key, environment, endpoint, complete, token, stored)) <==>
      (ConnectionIsSaved(w, key, environment, complete, token, stored) ==> MoveIsHarmless(w, key, endpoint))
  {
    MovedConnection(w, key, Connection(environment, endpoint, true));
    if key !in w.connections {
      assert forall j | j in w.jobs :: JobOk(w, w.jobs[j]);
    }
  }

  lemma ManagedConnectionStep(w: World, key: Key, environment: Environment, endpoint: string, complete: bool, stored: bool)
    requires Isolated(w) && ReadyMeansDeployed(w)
    ensures ReadyMeansDeployed(SavedManagedConnection(w, key, environment, endpoint, complete, stored)) <==>
      (ManagedIsSaved(w, key, environment, complete, stored) ==> MoveIsHarmless(w, key, endpoint))
  {
    MovedConnection(w, key, Connection(environment, endpoint, true));
    if key !in w.connections {
      assert forall j | j in w.jobs :: JobOk(w, w.jobs[j]);
    }
  }

  // ---------------------------------------------------------------- credentials

  lemma DeletedConnectionStep(w: World, key: Key, stored: bool)
    requires Isolated(w) && ReadyMeansDeployed(w)
    ensures ReadyMeansDeployed(DeletedConnection(w, key, stored))
  {
    forall j | j in w.jobs ensures w.jobs[j].connection in w.connections {
      assert JobOk(w, w.jobs[j]);
    }
  }

  lemma SavedCredentialStep(w: World, key: Key, input: Credential, complete: bool, secret: bool, stored: bool)
    requires Isolated(w) && ReadyMeansDeployed(w)
    ensures ReadyMeansDeployed(SavedCredential(w, key, input, complete, secret, stored))
  {
    var row := CredentialRow(w, key, input, complete, secret);
    var w' := SavedCredential(w, key, input, complete, secret, stored);
    if stored && row.Some? {
      forall j | j in w.jobs ensures ExternalId(w', w.jobs[j].credential) == ExternalId(w, w.jobs[j].credential) {
        assert JobOk(w, w.jobs[j]);
      }
    }
  }

  lemma OtherCredentialStep(w: World, s: Step)
    requires Isolated(w) && ReadyMeansDeployed(w) && (s.SyncCredential? || s.DeleteCredential?)
    ensures ReadyMeansDeployed(Apply(w, s))
  {
  }

  // ---------------------------------------------------------------- jobs

  lemma PreparedStep(w: World, key: Key, answered: bool)
    requires Isolated(w) && ReadyMeansDeployed(w)
    ensures ReadyMeansDeployed(Prepared(w, key, answered))
  {
    if key in w.jobs && w.jobs[key].generated && answered {
      PreparedKeeps(w, key, answered);
      assert JobOk(w, w.jobs[key]);
      PreparedRowIsOk(w, key, w.jobs[key]);
      OnlyJobsChanged(w, Prepared(w, key, answered));
    }
  }

  lemma SavedJobStep(w: World, key: Key, input: Job, deployEnvironment: Environment, valid: bool, stored: bool, prepared: bool)
    requires Isolated(w) && ReadyMeansDeployed(w)
    ensures ReadyMeansDeployed(SavedJob(w, key, input, deployEnvironment, valid, stored, prepared))
  {
    var row := JobRow(w, key, input, deployEnvironment, valid);
    if stored && row.Some? {
      var saved := w.(jobs := UpsertJob(w.jobs, key, row.value));
      JobRowIsOk(w, key, input, deployEnvironment, valid);
      UpsertJobRows(w.jobs, key, row.value);
      OnlyJobsChanged(w, saved);
      UpsertIsIsolated(w, key, row.value, input, deployEnvironment, valid);
      PreparedStep(saved, key, prepared);
    }
  }

  lemma FailureStep(w: World, key: Key, stored: bool)
    requires Isolated(w) && ReadyMeansDeployed(w) && key in w.jobs
    ensures ReadyMeansDeployed(WithStatus(w, key, w.jobs[key], SyncFailed, stored))
  {
    WithStatusKeeps(w, key, SyncFailed, stored);
    OnlyJobsChanged(w, WithStatus(w, key, w.jobs[key], SyncFailed, stored));
  }

  /** One remote job changed, and the record of the job that owns it changed at most its status. */
  lemma OneRemoteChanged(w: World, w': World, key: Key)
    requires Isolated(w) && ReadyMeansDeployed(w) && key in w.jobs && w.jobs[key].connection in w.connections
    requires w'.connections == w.connections && w'.credentials == w.credentials
    requires w'.jobs.Keys == w.jobs.Keys || w'.jobs == w.jobs - {key}
    requires forall j | j in w'.jobs && j != key :: w'.jobs[j] == w.jobs[j]
    requires w'.remote - {PlaceOf(w, w.jobs[key])} == w.remote - {PlaceOf(w, w.jobs[key])}
    ensures ReadyMeansDeployed(w') <==>
      && (key !in w'.jobs || w'.jobs[key].status != Ready || IsDeployed(w', w'.jobs[key]))
      && OthersDeployed(w, w', key)
  {
    var at := PlaceOf(w, w.jobs[key]);
    forall j | j in w'.jobs && j != key && w'.jobs[j].status == Ready && !SharesPlace(w, key, at, j)
      ensures IsDeployed(w', w'.jobs[j])
    {
      assert IsDeployed(w, w.jobs[j]);
      OtherPlaceStays(w, w', at, w.jobs[j]);
    }
  }

  lemma OtherPlaceStays(w: World, w': World, at: RemoteKey, job: Job)
    requires IsDeployed(w, job) && PlaceOf(w, job) != at
    requires w'.connections == w.connections && w'.credentials == w.credentials && w'.remote - {at} == w.remote - {at}
    ensures IsDeployed(w', job)
  {
    var place := PlaceOf(w, job);
    assert place in w.remote - {at} && place in w'.remote - {at};
    assert (w.remote - {at})[place] == w.remote[place] && (w'.remote - {at})[place] == w'.remote[place];
  }

  /** The other records of that Jenkins job are still deployed. */
  ghost predicate OthersDeployed(w: World, w': World, key: Key)
    requires key in w.jobs && w.jobs[key].connection in w.connections
  {
    forall j | SharesPlace(w, key, PlaceOf(w, w.jobs[key]), j) :: IsDeployed(w', w.jobs[j])
  }

  lemma AccessedFields(w: World, job: Job)
    ensures Accessed(w, job, job.environment) == w.(accesses := Accessed(w, job, job.environment).accesses)
  {
  }

  lemma PostedFields(w: World, job: Job, at: RemoteKey, a: SyncAnswers)
    ensures var posted := Posted(Accessed(w, job, job.environment), at, a);
      && posted.connections == w.connections && posted.credentials == w.credentials && posted.jobs == w.jobs
      && posted.remote == (if a.posted.Some? then w.remote[at := a.posted.value] else w.remote)
      && ExternalId(posted, job.credential) == ExternalId(w, job.credential)
  {
    AccessedFields(w, job);
  }

  lemma StatusShape(w: World, key: Key, status: SyncStatus, stored: bool)
    requires Isolated(w) && key in w.jobs
    ensures var w' := WithStatus(w, key, w.jobs[key], status, stored);
      && w'.connections == w.connections && w'.credentials == w.credentials && w'.remote == w.remote
      && w'.jobs == if stored then w.jobs[key := w.jobs[key].(status := status)] else w.jobs
  {
    WithStatusKeeps(w, key, status, stored);
  }

  /** What a synchronization that reaches Jenkins leaves behind. */
  lemma PostShape(w: World, key: Key, a: SyncAnswers, stored: bool, at: RemoteKey)
    requires Isolated(w) && ReachesPost(w, key, a)
    requires at == PlaceOf(w, w.jobs[key])
    ensures var w' := Deployed(w, key, a, stored);
      && w'.connections == w.connections && w'.credentials == w.credentials
      && w'.remote == (if a.posted.Some? then w.remote[at := a.posted.value] else w.remote)
      && w'.jobs.Keys == w.jobs.Keys && w'.jobs == w.jobs[key := w'.jobs[key]]
      && w'.jobs[key] == w.jobs[key].(status := w'.jobs[key].status)
      && (!stored ==> w'.jobs == w.jobs)
      && (stored && w'.jobs[key].status == Ready ==> at in w'.remote && Agrees(w.jobs[key], ExternalId(w, w.jobs[key].credential), w'.remote[at]))
  {
    var job := w.jobs[key];
    assert JobOk(w, job);
    var posted := Posted(Accessed(w, job, job.environment), at, a);
    var status := if Verified(posted, job, at, a) then Ready else SyncFailed;
    PostedFields(w, job, at, a);
    PostedKeeps(w, job, job.environment, at, a);
    StatusShape(posted, key, status, stored);
  }

  lemma OthersAfterPost(w: World, w': World, key: Key, a: SyncAnswers)
    requires ReadyMeansDeployed(w) && key in w.jobs && w.jobs[key].connection in w.connections
    requires w'.connections == w.connections && w'.credentials == w.credentials
    requires w'.remote == if a.posted.Some? then w.remote[PlaceOf(w, w.jobs[key]) := a.posted.value] else w.remote
    ensures OthersDeployed(w, w', key) <==> (a.posted.Some? ==> OthersAgree(w, key, PlaceOf(w, w.jobs[key]), a.posted.value))
  {
    var at := PlaceOf(w, w.jobs[key]);
    forall j | SharesPlace(w, key, at, j)
      ensures IsDeployed(w', w.jobs[j]) <==>
        (a.posted.Some? ==> Agrees(w.jobs[j], ExternalId(w, w.jobs[j].credential), a.posted.value))
    {
      assert IsDeployed(w, w.jobs[j]) && ExternalId(w', w.jobs[j].credential) == ExternalId(w, w.jobs[j].credential);
    }
  }

  lemma PostStep(w: World, key: Key, a: SyncAnswers, stored: bool)
    requires Isolated(w) && ReadyMeansDeployed(w) && ReachesPost(w, key, a)
    ensures ReadyMeansDeployed(Deployed(w, key, a, stored)) <==> PostIsHarmless(w, key, a, stored)
  {
    var at := PlaceOf(w, w.jobs[key]);
    var w' := Deployed(w, key, a, stored);
    PostShape(w, key, a, stored, at);
    assert w'.remote - {at} == w.remote - {at};
    OneRemoteChanged(w, w', key);
    OthersAfterPost(w, w', key, a);
  }

  lemma DeployedStep(w: World, key: Key, a: SyncAnswers, stored: bool)
    requires Isolated(w) && ReadyMeansDeployed(w) && key in w.jobs
    ensures ReadyMeansDeployed(Deployed(w, key, a, stored)) <==> PostIsHarmless(w, key, a, stored)
  {
    var job := w.jobs[key];
    assert JobOk(w, job);
    if ReachesPost(w, key, a) {
      PostStep(w, key, a, stored);
    } else if EndpointFor(w, job, job.environment).None? || !a.reachable {
      FailureStep(w, key, stored);
    } else {
      PostedKeeps(w, job, job.environment, RemoteKey("", ""), a);
      OnlyJobsChanged(w, Accessed(w, job, job.environment));
      FailureStep(Accessed(w, job, job.environment), key, stored);
    }
  }

  lemma SyncedJobStep(w: World, key: Key, prepared: bool, a: SyncAnswers, stored: bool)
    requires Isolated(w) && ReadyMeansDeployed(w)
    ensures ReadyMeansDeployed(SyncedJob(w, key, prepared, a, stored)) <==> SyncIsHarmless(w, key, prepared, a, stored)
  {
    if key in w.jobs && (w.jobs[key].generated ==> prepared) {
      PreparedKeeps(w, key, prepared);
      PreparedStep(w, key, prepared);
      DeployedStep(Prepared(w, key, prepared), key, a, stored);
    }
  }

  lemma NoRemovalShape(w: World, key: Key, alsoRemote: bool, reachable: bool, removal: Removal, stored: bool)
    requires !alsoRemote || !ReachesDeletion(w, key, reachable, removal)
    ensures var w' := DeletedJob(w, key, alsoRemote, reachable, removal, stored);
      && w'.connections == w.connections && w'.credentials == w.credentials && w'.remote == w.remote
      && (w'.jobs == w.jobs || w'.jobs == w.jobs - {key})
  {
  }

  lemma RemovalShape(w: World, key: Key, reachable: bool, removal: Removal, stored: bool)
    requires ReachesDeletion(w, key, reachable, removal)
    ensures var w' := DeletedJob(w, key, true, reachable, removal, stored);
      && w'.connections == w.connections && w'.credentials == w.credentials
      && w'.remote == w.remote - {PlaceOf(w, w.jobs[key])}
      && w'.jobs == if stored then w.jobs - {key} else w.jobs
  {
  }

  lemma RemovalStep(w: World, key: Key, reachable: bool, removal: Removal, stored: bool)
    requires Isolated(w) && ReadyMeansDeployed(w) && ReachesDeletion(w, key, reachable, removal)
    ensures ReadyMeansDeployed(DeletedJob(w, key, true, reachable, removal, stored)) <==>
      DeletionIsHarmless(w, key, true, reachable, removal, stored)
  {
    var at := PlaceOf(w, w.jobs[key]);
    var w' := DeletedJob(w, key, true, reachable, removal, stored);
    RemovalShape(w, key, reachable, removal, stored);
    assert w'.remote - {at} == w.remote - {at};
    OneRemoteChanged(w, w', key);
    assert forall j | SharesPlace(w, key, at, j) :: !IsDeployed(w', w.jobs[j]);
    assert !IsDeployed(w', w.jobs[key]);
  }

  lemma DeletedJobStep(w: World, key: Key, alsoRemote: bool, reachable: bool, removal: Removal, stored: bool)
    requires Isolated(w) && ReadyMeansDeployed(w)
    ensures ReadyMeansDeployed(DeletedJob(w, key, alsoRemote, reachable, removal, stored))
       <==> Harmless(w, DeleteJob(key, alsoRemote, reachable, removal, stored))
  {
    if alsoRemote && ReachesDeletion(w, key, reachable, removal) {
      RemovalStep(w, key, reachable, removal, stored);
    } else {
      NoRemovalShape(w, key, alsoRemote, reachable, removal, stored);
      OnlyJobsChanged(w, DeletedJob(w, key, alsoRemote, reachable, removal, stored));
    }
  }

  // ---------------------------------------------------------------- builds

  lemma BuildStep(w: World, s: Step)
    requires Isolated(w) && ReadyMeansDeployed(w) && (s.TriggerBuild? || s.ObserveBuild?)
    ensures ReadyMeansDeployed(Apply(w, s))
  {
    BuildsAndAccesses(w, s);
    OnlyJobsChanged(w, Apply(w, s));
  }

  lemma BuildsAndAccesses(w: World, s: Step)
    requires s.TriggerBuild? || s.ObserveBuild?
    ensures var w' := Apply(w, s); w' == w.(builds := w'.builds, accesses := w'.accesses)
  {
    match s
    case TriggerBuild(key, environment, id, trigger, stored) =>
    case ObserveBuild(id, reachable, ended, stored) =>
  }

  // ---------------------------------------------------------------- every operation, every run

  lemma RepositoryStep(w: World, s: Step)
    requires Isolated(w) && ReadyMeansDeployed(w) && (s.SaveRepository? || s.DeleteRepository?)
    ensures ReadyMeansDeployed(Apply(w, s))
  {
    OnlyJobsChanged(w, Apply(w, s));
  }

  /** An operation keeps the promise exactly when it is harmless: every other operation keeps it whatever fails. */
  lemma ReadyIsKeptExactly(w: World, s: Step)
    requires Isolated(w) && ReadyMeansDeployed(w)
    ensures ReadyMeansDeployed(Apply(w, s)) <==> Harmless(w, s)
  {
    match s
    case SaveConnection(key, environment, endpoint, complete, token, stored) =>
      ConnectionStep(w, key, environment, endpoint, complete, token, stored);
    case SaveManagedConnection(key, environment, endpoint, complete, stored) =>
      ManagedConnectionStep(w, key, environment, endpoint, complete, stored);
    case DeleteConnection(key, stored) => DeletedConnectionStep(w, key, stored);
    case SaveCredential(key, input, complete, secret, stored) => SavedCredentialStep(w, key, input, complete, secret, stored);
    case SyncCredential(_, _, _) => OtherCredentialStep(w, s);
    case DeleteCredential(_, _) => OtherCredentialStep(w, s);
    case SaveRepository(_, _) => RepositoryStep(w, s);
    case DeleteRepository(_) => RepositoryStep(w, s);
    case SaveJob(key, job, deployEnvironment, valid, stored, prepared) =>
      SavedJobStep(w, key, job, deployEnvironment, valid, stored, prepared);
    case PrepareJob(key, prepared) => PreparedStep(w, key, prepared);
    case SyncJob(key, prepared, answers, stored) => SyncedJobStep(w, key, prepared, answers, stored);
    case RecordSyncFailure(key, stored) => if key in w.jobs { FailureStep(w, key, stored); }
    case DeleteJob(key, alsoRemote, reachable, removal, stored) =>
      DeletedJobStep(w, key, alsoRemote, reachable, removal, stored);
    case TriggerBuild(_, _, _, _, _) => BuildStep(w, s);
    case ObserveBuild(_, _, _, _) => BuildStep(w, s);
  }

  ghost predicate HarmlessRun(w: World, steps: seq<Step>)
    decreases |steps|
  {
    steps == [] || (Harmless(w, steps[0]) && HarmlessRun(Apply(w, steps[0]), steps[1..]))
  }

  lemma {:induction false} RunKeepsReady(w: World, steps: seq<Step>)
    requires Isolated(w) && ReadyMeansDeployed(w) && HarmlessRun(w, steps)
    ensures Isolated(After(w, steps)) && ReadyMeansDeployed(After(w, steps))
    decreases |steps|
  {
    if steps != [] {
      ReadyIsKeptExactly(w, steps[0]);
      StepKeepsIsolation(w, steps[0]);
      RunKeepsReady(Apply(w, steps[0]), steps[1..]);
    }
  }

  /** Ready means deployed, after every harmless run from an empty store. */
  lemma ReadyHolds(steps: seq<Step>, key: Key)
    requires HarmlessRun(Empty, steps)
    requires key in After(Empty, steps).jobs && After(Empty, steps).jobs[key].status == Ready
    ensures IsDeployed(After(Empty, steps), After(Empty, steps).jobs[key])
  {
    RunKeepsReady(Empty, steps);
  }

  /** A build is only ever requested from a Jenkins job that has the settings of the record. */
  lemma TriggersRunWhatIsStored(steps: seq<Step>, key: Key, requested: Environment, id: Key, a: TriggerAnswers, stored: bool)
    requires HarmlessRun(Empty, steps)
    ensures var w := After(Empty, steps);
      Triggered(w, key, requested, id, a, stored) != w ==> key in w.jobs && IsDeployed(w, w.jobs[key])
  {
    RunKeepsReady(Empty, steps);
  }

  /** The deletion that removes the remote job and then fails to remove the record leaves a ready job without one. */
  lemma FailedDeletionOrphans(w: World, key: Key)
    requires Isolated(w) && ReadyMeansDeployed(w)
    requires key in w.jobs && w.jobs[key].status == Ready && !HasActiveBuild(w, key)
    ensures var w' := DeletedJob(w, key, true, true, Removed, false);
      key in w'.jobs && w'.jobs[key].status == Ready && !IsDeployed(w', w'.jobs[key])
  {
    var job := w.jobs[key];
    assert JobOk(w, job);
    var at := RemoteKey(w.connections[job.connection].endpoint, job.jenkinsName);
    var w' := DeletedJob(w, key, true, true, Removed, false);
    assert w'.remote == w.remote - {at};
  }

  /** Two connections may lead to one server, and then two records to one Jenkins job. A synchronization of one that
      succeeds in every call leaves the other ready, with the settings of the first in Jenkins: the next build of the
      other runs the wrong pipeline. */
  lemma SharedServerBreaksReady(w: World, key: Key, other: Key, a: SyncAnswers, stored: bool)
    requires Isolated(w) && ReadyMeansDeployed(w) && ReachesPost(w, key, a) && !w.jobs[key].generated
    requires SharesPlace(w, key, PlaceOf(w, w.jobs[key]), other) && w.jobs[other].enabled && a.posted.Some?
    requires !Agrees(w.jobs[other], ExternalId(w, w.jobs[other].credential), a.posted.value)
    ensures var w' := SyncedJob(w, key, true, a, stored);
      && other in w'.jobs && w'.jobs[other].status == Ready && !IsDeployed(w', w'.jobs[other])
      && TriggerEnvironment(w', other, w.jobs[other].environment).Some?
  {
    assert JobOk(w, w.jobs[key]) && JobOk(w, w.jobs[other]);
    PostShape(w, key, a, stored, PlaceOf(w, w.jobs[key]));
  }

  // ---------------------------------------------------------------- two connections to one server

  /** The repository of the manifests that both jobs name. */
  const SHARED := "manifests"

  /** A job with its own pipeline repository and without credentials, as it is sent in. */
  function Request(connection: Key, repo: string): Job {
    Job(Blank, connection, "n", false, true, "", repo, "", "", "", SHARED, "", Pending)
  }

  /** The record `SaveJob` makes of it. */
  function Stored(environment: Environment, connection: Key, repo: string, status: SyncStatus): Job {
    Job(environment, connection, "n", false, true, "", repo, "main", "Jenkinsfile", "", SHARED, "", status)
  }

  function Deploy(repo: string): SyncAnswers {
    SyncAnswers(true, Some(RemoteJob(repo, "main", "Jenkinsfile", "")), true, true)
  }

  function Both(endpoint: string): map<Key, Connection> {
    map["d" := Connection(Dev, endpoint, true), "t" := Connection(Test, endpoint, true)]
  }

  predicate HasManifests(w: World) { SHARED in w.repositories && w.repositories[SHARED].purpose == "manifest" }

  lemma RequestIsStored(w: World, key: Key, environment: Environment, connection: Key, repo: string)
    requires connection in w.connections && w.connections[connection].environment == environment && Deployable(environment)
    requires HasManifests(w)
    requires key !in w.jobs && forall j | j in w.jobs :: w.jobs[j].connection != connection
    ensures SavedJob(w, key, Request(connection, repo), Blank, true, true, true)
         == w.(jobs := w.jobs[key := Stored(environment, connection, repo, Pending)])
  {
    assert Trim("") == "" && Trim("n") == "n";
    assert JobRow(w, key, Request(connection, repo), Blank, true) == Some(Stored(environment, connection, repo, Pending));
    assert (set k | k in w.jobs && k != key && SameRemote(w.jobs[k], Stored(environment, connection, repo, Pending))) == {};
  }

  lemma DeployIsVerified(w: World, job: Job, environment: Environment, repo: string, at: RemoteKey)
    requires job == Stored(environment, job.connection, repo, Pending)
    ensures Verified(Posted(Accessed(w, job, environment), at, Deploy(repo)), job, at, Deploy(repo))
  {
    PostedFields(w, job, at, Deploy(repo));
  }

  lemma LoneJobIsReplaced(rows: map<Key, Job>, key: Key, row: Job)
    requires forall j | j in rows && j != key :: rows[j].connection != row.connection
    ensures UpsertJob(rows, key, row) == rows[key := row]
  {
    assert (set k | k in rows && k != key && SameRemote(rows[k], row)) == {};
  }

  lemma StoredIsDeployed(w: World, key: Key, environment: Environment, connection: Key, repo: string)
    requires connection in w.connections && w.connections[connection].environment == environment && Deployable(environment)
    requires key in w.jobs && w.jobs[key] == Stored(environment, connection, repo, Pending)
    requires forall j | j in w.jobs && j != key :: w.jobs[j].connection != connection
    ensures IsAdded(w, SyncedJob(w, key, true, Deploy(repo), true), key, environment, connection, repo)
  {
    var job, at := w.jobs[key], RemoteKey(w.connections[connection].endpoint, "n");
    DeployIsVerified(w, job, environment, repo, at);
    PostedFields(w, job, at, Deploy(repo));
    LoneJobIsReplaced(w.jobs, key, job.(status := Ready));
    assert Prepared(w, key, true) == w;
    var posted := Posted(Accessed(w, job, environment), at, Deploy(repo));
    assert Deployed(w, key, Deploy(repo), true) == WithStatus(posted, key, job, Ready, true);
  }

  /** The new record is there, ready, and Jenkins has its settings. */
  predicate IsAdded(w: World, w': World, key: Key, environment: Environment, connection: Key, repo: string)
    requires connection in w.connections
  {
    && w'.connections == w.connections && w'.credentials == w.credentials && w'.repositories == w.repositories
    && w'.jobs == w.jobs[key := Stored(environment, connection, repo, Ready)]
    && w'.remote == w.remote[RemoteKey(w.connections[connection].endpoint, "n") := RemoteJob(repo, "main", "Jenkinsfile", "")]
  }

  lemma AddedThrough(w: World, saved: World, w': World, key: Key, environment: Environment, connection: Key, repo: string)
    requires connection in w.connections && saved == w.(jobs := w.jobs[key := Stored(environment, connection, repo, Pending)])
    requires IsAdded(saved, w', key, environment, connection, repo)
    ensures IsAdded(w, w', key, environment, connection, repo)
  {
    assert saved.jobs[key := Stored(environment, connection, repo, Ready)] == w.jobs[key := Stored(environment, connection, repo, Ready)];
  }

  lemma AddJobRuns(w: World, saved: World, key: Key, connection: Key, repo: string)
    requires saved == SavedJob(w, key, Request(connection, repo), Blank, true, true, true)
    ensures After(w, AddJob(key, connection, repo)) == SyncedJob(saved, key, true, Deploy(repo), true)
  {
    TwoSteps(w, SaveJob(key, Request(connection, repo), Blank, true, true, true), saved, SyncJob(key, true, Deploy(repo), true));
  }

  /** A new job on a connection without jobs is saved and synchronized. */
  lemma JobIsAdded(w: World, key: Key, environment: Environment, connection: Key, repo: string)
    requires connection in w.connections && w.connections[connection].environment == environment && Deployable(environment)
    requires HasManifests(w)
    requires key !in w.jobs && forall j | j in w.jobs :: w.jobs[j].connection != connection
    ensures IsAdded(w, After(w, AddJob(key, connection, repo)), key, environment, connection, repo)
  {
    var saved := w.(jobs := w.jobs[key := Stored(environment, connection, repo, Pending)]);
    RequestIsStored(w, key, environment, connection, repo);
    AddJobRuns(w, saved, key, connection, repo);
    StoredIsDeployed(saved, key, environment, connection, repo);
    AddedThrough(w, saved, SyncedJob(saved, key, true, Deploy(repo), true), key, environment, connection, repo);
  }

  function AddJob(key: Key, connection: Key, repo: string): seq<Step> {
    [SaveJob(key, Request(connection, repo), Blank, true, true, true), SyncJob(key, true, Deploy(repo), true)]
  }

  function Prepare(endpoint: string, manifests: string): seq<Step> {
    [SaveRepository(SHARED, Repository("manifest", manifests, "main", "deploy"))] +
    [SaveConnection("d", Dev, endpoint, true, true, true), SaveConnection("t", Test, endpoint, true, true, true)]
  }

  lemma TwoSteps(w: World, first: Step, after: World, second: Step)
    requires after == Apply(w, first)
    ensures After(w, [first, second]) == Apply(after, second)
  {
    assert [first, second][1..] == [second] && [second][1..] == [];
    assert After(after, [second]) == Apply(after, second);
  }

  lemma {:induction false} AfterBoth(w: World, first: seq<Step>, second: seq<Step>)
    ensures After(w, first + second) == After(After(w, first), second)
    decreases |first|
  {
    if first == [] {
      assert first + second == second;
    } else {
      assert (first + second)[0] == first[0] && (first + second)[1..] == first[1..] + second;
      AfterBoth(Apply(w, first[0]), first[1..], second);
    }
  }

  lemma IsPrepared(endpoint: string, manifests: string)
    ensures After(Empty, Prepare(endpoint, manifests)) ==
      Empty.(connections := Both(endpoint), repositories := map[SHARED := Repository("manifest", manifests, "main", "deploy")])
  {
    var first, rest := Prepare(endpoint, manifests)[..1], Prepare(endpoint, manifests)[1..];
    AfterBoth(Empty, first, rest);
    assert first[1..] == [] && After(Empty, first) == Apply(Empty, first[0]);
    var stored := Apply(Empty, first[0]);
    TwoSteps(stored, rest[0], Apply(stored, rest[0]), rest[1]);
  }

  /** Seven operations, each successful: a manifest repository, two connections to one server, a job on each with one Jenkins
      name, and both jobs synchronized. */
  function SharedServerRun(endpoint: string, manifests: string, first: string, second: string): seq<Step> {
    Prepare(endpoint, manifests) + AddJob("1", "d", first) + AddJob("2", "t", second)
  }

  lemma SharedServerOutcome(endpoint: string, manifests: string, first: string, second: string)
    ensures var w := After(Empty, SharedServerRun(endpoint, manifests, first, second));
      && w.connections == Both(endpoint) && w.credentials == map[]
      && w.jobs == map["1" := Stored(Dev, "d", first, Ready), "2" := Stored(Test, "t", second, Ready)]
      && w.remote == map[RemoteKey(endpoint, "n") := RemoteJob(second, "main", "Jenkinsfile", "")]
  {
    IsPrepared(endpoint, manifests);
    var prepared := After(Empty, Prepare(endpoint, manifests));
    JobIsAdded(prepared, "1", Dev, "d", first);
    var w := After(prepared, AddJob("1", "d", first));
    JobIsAdded(w, "2", Test, "t", second);
    AfterBoth(Empty, Prepare(endpoint, manifests), AddJob("1", "d", first));
    AfterBoth(Empty, Prepare(endpoint, manifests) + AddJob("1", "d", first), AddJob("2", "t", second));
  }

  /** After these operations, whatever the server and the two repositories are called, the first job is ready, Jenkins holds
      the settings of the second, and a build of the first is let through. */
  lemma SharedServerIsReachable(endpoint: string, manifests: string, first: string, second: string)
    requires first != "" && Trim(first) != Trim(second)
    ensures var w := After(Empty, SharedServerRun(endpoint, manifests, first, second));
      && "1" in w.jobs && w.jobs["1"].status == Ready && !IsDeployed(w, w.jobs["1"])
      && TriggerEnvironment(w, "1", Dev) == Some(Dev)
  {
    SharedServerOutcome(endpoint, manifests, first, second);
  }

  /** For instance with addresses that pass every check of the service. */
  lemma SharedServerExample()
    ensures var w := After(Empty, SharedServerRun("https://jenkins.example.com", "https://git.example.com/manifests.git",
                                                  "https://git.example.com/shop.git", "https://git.example.com/pay.git"));
      && "1" in w.jobs && w.jobs["1"].status == Ready && !IsDeployed(w, w.jobs["1"])
      && TriggerEnvironment(w, "1", Dev) == Some(Dev)
  {
    var first, second := "https://git.example.com/shop.git", "https://git.example.com/pay.git";
    assert Trimmed(first) && Trimmed(second) && |first| != |second|;
    SharedServerIsReachable("https://jenkins.example.com", "https://git.example.com/manifests.git", first, second);
  }
}
