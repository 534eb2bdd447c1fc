/** Environment isolation over every run of ControlModel. */
module ControlSafety {
  import opened Options
  import opened Documents
  import opened ControlModel

  // ---------------------------------------------------------------- the invariant

  ghost predicate ConnectionsOk(w: World) {
    forall c | c in w.connections :: !w.connections[c].environment.Blank?
  }

  /** A connection exists and is fixed to this valid environment. */
  predicate FixedTo(w: World, connection: Key, environment: Environment) {
    && connection in w.connections && w.connections[connection].environment == environment
    && Deployable(environment)
  }

  ghost predicate CredentialsOk(w: World) {
    forall c | c in w.credentials :: FixedTo(w, w.credentials[c].connection, w.credentials[c].environment)
  }

  predicate JobOk(w: World, job: Job) {
    && FixedTo(w, job.connection, job.environment)
    && CredentialFits(w, job.credential, job.connection, job.environment)
    && CredentialFits(w, job.manifestCredential, job.connection, job.environment)
  }

  ghost predicate JobsOk(w: World) {
    forall j | j in w.jobs :: JobOk(w, w.jobs[j])
  }

  ghost predicate UniqueExternals(rows: map<Key, Credential>) {
    forall a, b | a in rows && b in rows && a != b :: !SameExternal(rows[a], rows[b])
  }

  ghost predicate UniqueRemotes(rows: map<Key, Job>) {
    forall a, b | a in rows && b in rows && a != b :: !SameRemote(rows[a], rows[b])
  }

  /** Jenkins was used for one environment only: that of the connection, of the job and of the request. */
  predicate AccessOk(a: Access) {
    && a.connectionEnvironment == a.jobEnvironment && Deployable(a.jobEnvironment)
    && (a.requested.Blank? || a.requested == a.jobEnvironment)
  }

  ghost predicate Isolated(w: World) {
    && ConnectionsOk(w) && CredentialsOk(w) && JobsOk(w)
    && UniqueExternals(w.credentials) && UniqueRemotes(w.jobs)
    && (forall a | a in w.accesses :: AccessOk(a))
  }

  /** No record changes its environment, and the log of accesses only grows. */
  ghost predicate EnvironmentsFixed(w: World, w': World) {
    && (forall c | c in w.connections && c in w'.connections :: w'.connections[c].environment == w.connections[c].environment)
    && (forall c | c in w.credentials && c in w'.credentials :: w'.credentials[c].environment == w.credentials[c].environment)
    && (forall j | j in w.jobs && j in w'.jobs :: w'.jobs[j].environment == w.jobs[j].environment)
    && w.accesses <= w'.accesses
  }

  // ---------------------------------------------------------------- upserts

  lemma UpsertCredentialKeepsUnique(rows: map<Key, Credential>, key: Key, row: Credential)
    requires UniqueExternals(rows)
    ensures UniqueExternals(UpsertCredential(rows, key, row))
  {
    var after := UpsertCredential(rows, key, row);
    var taken := set k | k in rows && k != key && SameExternal(rows[k], row);
    forall a, b | a in after && b in after && a != b ensures !SameExternal(after[a], after[b]) {
      assert a in rows && b in rows ==> !SameExternal(rows[a], rows[b]);
      assert a in rows && a != key ==> (a in taken <==> SameExternal(rows[a], row));
      assert b in rows && b != key ==> (b in taken <==> SameExternal(rows[b], row));
    }
  }

  lemma UpsertJobKeepsUnique(rows: map<Key, Job>, key: Key, row: Job)
    requires UniqueRemotes(rows)
    ensures UniqueRemotes(UpsertJob(rows, key, row))
  {
    var after := UpsertJob(rows, key, row);
    var taken := set k | k in rows && k != key && SameRemote(rows[k], row);
    forall a, b | a in after && b in after && a != b ensures !SameRemote(after[a], after[b]) {
      assert a in rows && b in rows ==> !SameRemote(rows[a], rows[b]);
      assert a in rows && a != key ==> (a in taken <==> SameRemote(rows[a], row));
      assert b in rows && b != key ==> (b in taken <==> SameRemote(rows[b], row));
    }
  }

  /** Every row after an upsert is an old row, or the new one, on a key that is new, given, or shares its pair. */
  lemma UpsertJobRows(rows: map<Key, Job>, key: Key, row: Job)
    ensures forall k | k in UpsertJob(rows, key, row) ::
      || (k in rows && UpsertJob(rows, key, row)[k] == rows[k])
      || (UpsertJob(rows, key, row)[k] == row && (k == key || (k in rows && rows[k].connection == row.connection)))
    ensures rows.Keys <= UpsertJob(rows, key, row).Keys
  {
  }

  // ---------------------------------------------------------------- changes and what they keep

  /** Credentials keep environment and connection, or vanish unreferenced; nothing else changed. */
  lemma CredentialsChanged(w: World, w': World)
    requires Isolated(w) && w' == w.(credentials := w'.credentials)
    requires CredentialsOk(w') && UniqueExternals(w'.credentials)
    requires forall c | c in w.credentials && c in w'.credentials :: SamePlace(w.credentials[c], w'.credentials[c])
    requires forall j, c | j in w.jobs && c in w.credentials && c !in w'.credentials :: !Mentions(w.jobs[j], c)
    ensures Isolated(w') && EnvironmentsFixed(w, w')
  {
    forall j | j in w.jobs ensures JobOk(w', w.jobs[j]) {
      assert JobOk(w, w.jobs[j]);
    }
  }

  predicate SamePlace(a: Credential, b: Credential) {
    a.environment == b.environment && a.connection == b.connection
  }

  predicate Mentions(job: Job, credential: Key) {
    job.credential == credential || job.manifestCredential == credential
  }

  /** Jobs come from the store or are sound, and keep their environment; nothing else changed. */
  lemma JobsChanged(w: World, w': World)
    requires Isolated(w) && w' == w.(jobs := w'.jobs) && UniqueRemotes(w'.jobs)
    requires forall j | j in w'.jobs :: (j in w.jobs && w'.jobs[j] == w.jobs[j]) || JobOk(w, w'.jobs[j])
    requires forall j | j in w.jobs && j in w'.jobs :: w'.jobs[j].environment == w.jobs[j].environment
    ensures Isolated(w') && EnvironmentsFixed(w, w')
  {
    forall j | j in w'.jobs ensures JobOk(w', w'.jobs[j]) {
      assert JobOk(w, w'.jobs[j]);
      assert FixedTo(w', w'.jobs[j].connection, w'.jobs[j].environment);
    }
    forall c | c in w'.credentials ensures FixedTo(w', w'.credentials[c].connection, w'.credentials[c].environment) {
      assert FixedTo(w, w.credentials[c].connection, w.credentials[c].environment);
    }
  }

  /** One job was saved again under its own Jenkins name. */
  lemma OneJobReplaced(w: World, key: Key, row: Job)
    requires Isolated(w) && key in w.jobs && JobOk(w, row) && SameRemote(w.jobs[key], row)
    requires row.environment == w.jobs[key].environment
    ensures UpsertJob(w.jobs, key, row) == w.jobs[key := row]
    ensures var w' := w.(jobs := w.jobs[key := row]); Isolated(w') && EnvironmentsFixed(w, w')
  {
    UpsertJobKeepsUnique(w.jobs, key, row);
  }

  /** Builds, the remote side and the log changed. */
  lemma RecordsUntouched(w: World, w': World)
    requires Isolated(w) && w' == w.(builds := w'.builds, remote := w'.remote, accesses := w'.accesses)
    requires w.accesses <= w'.accesses && forall a | a in w'.accesses :: a in w.accesses || AccessOk(a)
    ensures Isolated(w') && EnvironmentsFixed(w, w')
  {
    forall j | j in w.jobs ensures JobOk(w', w.jobs[j]) {
      assert JobOk(w, w.jobs[j]);
      assert FixedTo(w', w.jobs[j].connection, w.jobs[j].environment);
    }
    forall c | c in w.credentials ensures FixedTo(w', w.credentials[c].connection, w.credentials[c].environment) {
      assert FixedTo(w, w.credentials[c].connection, w.credentials[c].environment);
    }
  }

  lemma AccessedKeeps(w: World, job: Job, requested: Environment)
    requires Isolated(w) && JobOk(w, job)
    ensures var w' := Accessed(w, job, requested);
      && w' == w.(accesses := w'.accesses) && w.accesses <= w'.accesses
      && forall a | a in w'.accesses :: a in w.accesses || AccessOk(a)
  {
  }

  // ---------------------------------------------------------------- the rows that are written

  lemma JobRowIsOk(w: World, key: Key, input: Job, deployEnvironment: Environment, valid: bool)
    requires Isolated(w) && JobRow(w, key, input, deployEnvironment, valid).Some?
    ensures var row := JobRow(w, key, input, deployEnvironment, valid).value;
      && JobOk(w, row) && row.status == Pending
      && (key in w.jobs ==> w.jobs[key].environment == row.environment)
  {
    if key in w.jobs {
      assert JobOk(w, w.jobs[key]);
    }
  }

  lemma PreparedRowIsOk(w: World, key: Key, job: Job)
    requires JobOk(w, job)
    ensures var row := PreparedRow(w, key, job);
      && JobOk(w, row) && SameRemote(job, row) && row.environment == job.environment && row.generated == job.generated
      && (row == job || row.status == Pending)
  {
  }

  // ---------------------------------------------------------------- operations

  lemma SavedConnectionKeeps(w: World, key: Key, environment: Environment, endpoint: string, complete: bool, token: bool, stored: bool)
    requires Isolated(w)
    ensures var w' := SavedConnection(w, key, environment, endpoint, complete, token, stored); Isolated(w') && EnvironmentsFixed(w, w')
  {
  }

  lemma SavedManagedKeeps(w: World, key: Key, environment: Environment, endpoint: string, complete: bool, stored: bool)
    requires Isolated(w)
    ensures var w' := SavedManagedConnection(w, key, environment, endpoint, complete, stored); Isolated(w') && EnvironmentsFixed(w, w')
  {
  }

  lemma DeletedConnectionKeeps(w: World, key: Key, stored: bool)
    requires Isolated(w)
    ensures var w' := DeletedConnection(w, key, stored); Isolated(w') && EnvironmentsFixed(w, w')
  {
  }

  lemma SavedCredentialKeeps(w: World, key: Key, input: Credential, complete: bool, secret: bool, stored: bool)
    requires Isolated(w)
    ensures var w' := SavedCredential(w, key, input, complete, secret, stored); Isolated(w') && EnvironmentsFixed(w, w')
  {
    var row := CredentialRow(w, key, input, complete, secret);
    var w' := SavedCredential(w, key, input, complete, secret, stored);
    if stored && row.Some? {
      UpsertCredentialKeepsUnique(w.credentials, key, row.value);
      forall c | c in w'.credentials
        ensures FixedTo(w', w'.credentials[c].connection, w'.credentials[c].environment)
        ensures c in w.credentials ==> SamePlace(w.credentials[c], w'.credentials[c])
      {
        if c in w.credentials {
          assert FixedTo(w, w.credentials[c].connection, w.credentials[c].environment);
        }
      }
      CredentialsChanged(w, w');
    }
  }

  lemma SyncedCredentialKeeps(w: World, key: Key, pushed: bool, stored: bool)
    requires Isolated(w)
    ensures var w' := SyncedCredential(w, key, pushed, stored); Isolated(w') && EnvironmentsFixed(w, w')
  {
    if key in w.credentials && stored {
      var row := w.credentials[key].(status := if w.credentials[key].kind == "existing" || pushed then Ready else SyncFailed);
      RestatusedKeeps(w, SyncedCredential(w, key, pushed, stored), key, row);
    }
  }

  lemma RestatusedKeeps(w: World, w': World, key: Key, row: Credential)
    requires Isolated(w) && key in w.credentials && SamePlace(w.credentials[key], row)
    requires w' == w.(credentials := w.credentials[key := row]) && UniqueExternals(w'.credentials)
    ensures Isolated(w') && EnvironmentsFixed(w, w')
  {
    forall c | c in w'.credentials ensures FixedTo(w', w'.credentials[c].connection, w'.credentials[c].environment) {
      assert FixedTo(w, w.credentials[c].connection, w.credentials[c].environment);
    }
    CredentialsChanged(w, w');
  }

  lemma DeletedCredentialKeeps(w: World, key: Key, stored: bool)
    requires Isolated(w)
    ensures var w' := DeletedCredential(w, key, stored); Isolated(w') && EnvironmentsFixed(w, w')
  {
    if DeletedCredential(w, key, stored) != w {
      assert forall j | j in w.jobs :: !Mentions(w.jobs[j], key);
      DroppedCredentialKeeps(w, DeletedCredential(w, key, stored), key);
    }
  }

  lemma DroppedCredentialKeeps(w: World, w': World, key: Key)
    requires Isolated(w) && w' == w.(credentials := w.credentials - {key})
    requires forall j | j in w.jobs :: !Mentions(w.jobs[j], key)
    ensures Isolated(w') && EnvironmentsFixed(w, w')
  {
    forall c | c in w'.credentials ensures FixedTo(w', w'.credentials[c].connection, w'.credentials[c].environment) {
      assert FixedTo(w, w.credentials[c].connection, w.credentials[c].environment);
    }
    CredentialsChanged(w, w');
  }

  lemma PreparedKeeps(w: World, key: Key, answered: bool)
    requires Isolated(w)
    ensures var w' := Prepared(w, key, answered); Isolated(w') && EnvironmentsFixed(w, w')
    ensures key in w.jobs && w.jobs[key].generated && answered ==>
      Prepared(w, key, answered) == w.(jobs := w.jobs[key := PreparedRow(w, key, w.jobs[key])])
  {
    if key in w.jobs && w.jobs[key].generated && answered {
      PreparedRowIsOk(w, key, w.jobs[key]);
      OneJobReplaced(w, key, PreparedRow(w, key, w.jobs[key]));
    }
  }

  lemma WithStatusKeeps(w: World, key: Key, status: SyncStatus, stored: bool)
    requires Isolated(w) && key in w.jobs
    ensures var w' := WithStatus(w, key, w.jobs[key], status, stored); Isolated(w') && EnvironmentsFixed(w, w')
    ensures stored ==> WithStatus(w, key, w.jobs[key], status, stored) == w.(jobs := w.jobs[key := w.jobs[key].(status := status)])
  {
    if stored {
      assert JobOk(w, w.jobs[key]);
      OneJobReplaced(w, key, w.jobs[key].(status := status));
    }
  }

  lemma SavedJobKeeps(w: World, key: Key, input: Job, deployEnvironment: Environment, valid: bool, stored: bool, prepared: bool)
    requires Isolated(w)
    ensures var w' := SavedJob(w, key, input, deployEnvironment, valid, stored, prepared); Isolated(w') && EnvironmentsFixed(w, w')
  {
    var row := JobRow(w, key, input, deployEnvironment, valid);
    if stored && row.Some? {
      var saved := w.(jobs := UpsertJob(w.jobs, key, row.value));
      UpsertIsIsolated(w, key, row.value, input, deployEnvironment, valid);
      PreparedKeeps(saved, key, prepared);
      UpsertJobRows(w.jobs, key, row.value);
    }
  }

  lemma UpsertIsIsolated(w: World, key: Key, row: Job, input: Job, deployEnvironment: Environment, valid: bool)
    requires Isolated(w) && JobRow(w, key, input, deployEnvironment, valid) == Some(row)
    ensures var saved := w.(jobs := UpsertJob(w.jobs, key, row)); Isolated(saved) && EnvironmentsFixed(w, saved)
  {
    var saved := w.(jobs := UpsertJob(w.jobs, key, row));
    JobRowIsOk(w, key, input, deployEnvironment, valid);
    UpsertJobKeepsUnique(w.jobs, key, row);
    UpsertJobRows(w.jobs, key, row);
    forall j | j in w.jobs ensures saved.jobs[j].environment == w.jobs[j].environment {
      assert JobOk(w, w.jobs[j]);
    }
    JobsChanged(w, saved);
  }

  lemma PostedKeeps(w: World, job: Job, requested: Environment, at: RemoteKey, a: SyncAnswers)
    requires Isolated(w) && JobOk(w, job)
    ensures var used := Accessed(w, job, requested);
      && Isolated(used) && EnvironmentsFixed(w, used) && used.jobs == w.jobs
      && Isolated(Posted(used, at, a)) && EnvironmentsFixed(w, Posted(used, at, a)) && Posted(used, at, a).jobs == w.jobs
  {
    AccessedKeeps(w, job, requested);
    RecordsUntouched(w, Accessed(w, job, requested));
    RecordsUntouched(w, Posted(Accessed(w, job, requested), at, a));
  }

  /** Saving a status after `w` became `used` by using Jenkins. */
  lemma StatusAfter(w: World, used: World, key: Key, status: SyncStatus, stored: bool)
    requires Isolated(used) && EnvironmentsFixed(w, used) && used.jobs == w.jobs && key in w.jobs
    requires used.connections == w.connections && used.credentials == w.credentials
    ensures var w' := WithStatus(used, key, w.jobs[key], status, stored); Isolated(w') && EnvironmentsFixed(w, w')
  {
    WithStatusKeeps(used, key, status, stored);
  }

  lemma DeployedKeeps(w: World, key: Key, a: SyncAnswers, stored: bool)
    requires Isolated(w) && key in w.jobs
    ensures var w' := Deployed(w, key, a, stored); Isolated(w') && EnvironmentsFixed(w, w')
  {
    var job := w.jobs[key];
    assert JobOk(w, job);
    var endpoint := EndpointFor(w, job, job.environment);
    if endpoint.None? || !a.reachable {
      WithStatusKeeps(w, key, SyncFailed, stored);
    } else if !CredentialReady(w, job, job.credential) || !CredentialReady(w, job, job.manifestCredential) {
      PostedKeeps(w, job, job.environment, RemoteKey("", ""), a);
      StatusAfter(w, Accessed(w, job, job.environment), key, SyncFailed, stored);
    } else {
      var at := RemoteKey(endpoint.value, job.jenkinsName);
      var posted := Posted(Accessed(w, job, job.environment), at, a);
      PostKeeps(w, key, at, a, if Verified(posted, job, at, a) then Ready else SyncFailed, stored);
    }
  }

  lemma PostKeeps(w: World, key: Key, at: RemoteKey, a: SyncAnswers, status: SyncStatus, stored: bool)
    requires Isolated(w) && key in w.jobs
    ensures var job := w.jobs[key];
      var w' := WithStatus(Posted(Accessed(w, job, job.environment), at, a), key, job, status, stored);
      Isolated(w') && EnvironmentsFixed(w, w')
  {
    var job := w.jobs[key];
    assert JobOk(w, job);
    PostedKeeps(w, job, job.environment, at, a);
    StatusAfter(w, Posted(Accessed(w, job, job.environment), at, a), key, status, stored);
  }

  lemma SyncedJobKeeps(w: World, key: Key, prepared: bool, a: SyncAnswers, stored: bool)
    requires Isolated(w)
    ensures var w' := SyncedJob(w, key, prepared, a, stored); Isolated(w') && EnvironmentsFixed(w, w')
  {
    if key in w.jobs && (w.jobs[key].generated ==> prepared) {
      PreparedKeeps(w, key, prepared);
      var ready := Prepared(w, key, prepared);
      DeployedKeeps(ready, key, a, stored);
    }
  }

  lemma DeletedJobKeeps(w: World, key: Key, alsoRemote: bool, reachable: bool, removal: Removal, stored: bool)
    requires Isolated(w)
    ensures var w' := DeletedJob(w, key, alsoRemote, reachable, removal, stored); Isolated(w') && EnvironmentsFixed(w, w')
  {
    if key in w.jobs {
      var job, w' := w.jobs[key], DeletedJob(w, key, alsoRemote, reachable, removal, stored);
      assert JobOk(w, job);
      AccessedKeeps(w, job, job.environment);
      var middle := w'.(jobs := w.jobs);
      RecordsUntouched(w, middle);
    }
  }

  lemma TriggeredKeeps(w: World, key: Key, requested: Environment, id: Key, a: TriggerAnswers, stored: bool)
    requires Isolated(w)
    ensures var w' := Triggered(w, key, requested, id, a, stored); Isolated(w') && EnvironmentsFixed(w, w')
  {
    var environment := TriggerEnvironment(w, key, requested);
    if environment.Some? {
      assert JobOk(w, w.jobs[key]);
      AccessedKeeps(w, w.jobs[key], environment.value);
      RecordsUntouched(w, Triggered(w, key, requested, id, a, stored));
    }
  }

  lemma ObservedKeeps(w: World, id: Key, reachable: bool, ended: bool, stored: bool)
    requires Isolated(w)
    ensures var w' := Observed(w, id, reachable, ended, stored); Isolated(w') && EnvironmentsFixed(w, w')
  {
    if id in w.builds && w.builds[id].job in w.jobs {
      assert JobOk(w, w.jobs[w.builds[id].job]);
      AccessedKeeps(w, w.jobs[w.builds[id].job], w.builds[id].environment);
      RecordsUntouched(w, Observed(w, id, reachable, ended, stored));
    }
  }

  lemma RecordStepKeeps(w: World, s: Step)
    requires Isolated(w) && !s.SaveJob? && !s.PrepareJob? && !s.SyncJob? && !s.RecordSyncFailure? && !s.DeleteJob?
    requires !s.TriggerBuild? && !s.ObserveBuild?
    ensures Isolated(Apply(w, s)) && EnvironmentsFixed(w, Apply(w, s))
  {
    match s
    case SaveConnection(key, environment, endpoint, complete, token, stored) =>
      SavedConnectionKeeps(w, key, environment, endpoint, complete, token, stored);
    case SaveManagedConnection(key, environment, endpoint, complete, stored) =>
      SavedManagedKeeps(w, key, environment, endpoint, complete, stored);
    case DeleteConnection(key, stored) => DeletedConnectionKeeps(w, key, stored);
    case SaveCredential(key, input, complete, secret, stored) => SavedCredentialKeeps(w, key, input, complete, secret, stored);
    case SyncCredential(key, pushed, stored) => SyncedCredentialKeeps(w, key, pushed, stored);
    case DeleteCredential(key, stored) => DeletedCredentialKeeps(w, key, stored);
    case SaveRepository(_, _) => RepositoriesDoNotMatter(w, Apply(w, s));
    case DeleteRepository(_) => RepositoriesDoNotMatter(w, Apply(w, s));
  }

  lemma JobStepKeeps(w: World, s: Step)
    requires Isolated(w) && (s.SaveJob? || s.PrepareJob? || s.SyncJob? || s.RecordSyncFailure? || s.DeleteJob?)
    ensures Isolated(Apply(w, s)) && EnvironmentsFixed(w, Apply(w, s))
  {
    match s
    case SaveJob(key, job, deployEnvironment, valid, stored, prepared) =>
      SavedJobKeeps(w, key, job, deployEnvironment, valid, stored, prepared);
    case PrepareJob(key, prepared) => PreparedKeeps(w, key, prepared);
    case SyncJob(key, prepared, answers, stored) => SyncedJobKeeps(w, key, prepared, answers, stored);
    case RecordSyncFailure(key, stored) => if key in w.jobs { WithStatusKeeps(w, key, SyncFailed, stored); }
    case DeleteJob(key, alsoRemote, reachable, removal, stored) => DeletedJobKeeps(w, key, alsoRemote, reachable, removal, stored);
  }

  lemma BuildStepKeeps(w: World, s: Step)
    requires Isolated(w) && (s.TriggerBuild? || s.ObserveBuild?)
    ensures Isolated(Apply(w, s)) && EnvironmentsFixed(w, Apply(w, s))
  {
    match s
    case TriggerBuild(key, environment, id, trigger, stored) => TriggeredKeeps(w, key, environment, id, trigger, stored);
    case ObserveBuild(id, reachable, ended, stored) => ObservedKeeps(w, id, reachable, ended, stored);
  }

  /** Every operation, however its calls end, keeps the isolation and moves nothing to another environment. */
  lemma StepKeepsIsolation(w: World, s: Step)
    requires Isolated(w)
    ensures Isolated(Apply(w, s)) && EnvironmentsFixed(w, Apply(w, s))
  {
    if s.TriggerBuild? || s.ObserveBuild? {
      BuildStepKeeps(w, s);
    } else if s.SaveJob? || s.PrepareJob? || s.SyncJob? || s.RecordSyncFailure? || s.DeleteJob? {
      JobStepKeeps(w, s);
    } else {
      RecordStepKeeps(w, s);
    }
  }

  lemma RepositoriesDoNotMatter(w: World, w': World)
    requires Isolated(w) && w' == w.(repositories := w'.repositories)
    ensures Isolated(w') && EnvironmentsFixed(w, w')
  {
    forall j | j in w.jobs ensures JobOk(w', w.jobs[j]) {
      assert JobOk(w, w.jobs[j]);
    }
    forall c | c in w.credentials ensures FixedTo(w', w.credentials[c].connection, w.credentials[c].environment) {
      assert FixedTo(w, w.credentials[c].connection, w.credentials[c].environment);
    }
  }

  // ---------------------------------------------------------------- every run

  lemma {:induction false} RunKeepsIsolation(w: World, steps: seq<Step>)
    requires Isolated(w)
    ensures Isolated(After(w, steps))
    decreases |steps|
  {
    if steps != [] {
      StepKeepsIsolation(w, steps[0]);
      RunKeepsIsolation(Apply(w, steps[0]), steps[1..]);
    }
  }

  /** Environment isolation: after any run from an empty store, every credential and every job lives in the environment
      of its connection, a job's credentials live in the job's environment and on its connection, and every use of
      Jenkins so far was for the one environment that connection, job and request agree on. */
  lemma IsolationHolds(steps: seq<Step>)
    ensures var w := After(Empty, steps);
      && (forall c | c in w.credentials :: FixedTo(w, w.credentials[c].connection, w.credentials[c].environment))
      && (forall j | j in w.jobs :: JobOk(w, w.jobs[j]))
      && (forall a | a in w.accesses :: AccessOk(a))
  {
    RunKeepsIsolation(Empty, steps);
  }

  /** In any reachable store no operation moves a connection, a credential or a job to another environment. */
  lemma EnvironmentsNeverChange(steps: seq<Step>, s: Step)
    ensures EnvironmentsFixed(After(Empty, steps), Apply(After(Empty, steps), s))
  {
    RunKeepsIsolation(Empty, steps);
    StepKeepsIsolation(After(Empty, steps), s);
  }

  /** Every build that a trigger saves has the environment of its job and of the connection it runs on. */
  lemma BuildsAreIsolated(steps: seq<Step>, key: Key, requested: Environment, id: Key, a: TriggerAnswers, stored: bool)
    ensures var w := After(Empty, steps);
      var w' := Triggered(w, key, requested, id, a, stored);
      w'.builds != w.builds ==>
        && id in w'.builds && w'.builds == w.builds[id := w'.builds[id]] && w'.builds[id].job == key
        && key in w.jobs && w'.builds[id].environment == w.jobs[key].environment
        && w.connections[w.jobs[key].connection].environment == w.jobs[key].environment
        && (requested.Blank? || requested == w.jobs[key].environment)
  {
    RunKeepsIsolation(Empty, steps);
    var w := After(Empty, steps);
    TriggerMeans(w, key, requested);
    if TriggerEnvironment(w, key, requested).Some? {
      assert JobOk(w, w.jobs[key]);
    }
  }

  lemma TriggerMeans(w: World, key: Key, requested: Environment)
    ensures var environment := TriggerEnvironment(w, key, requested);
      environment.Some? ==>
        && key in w.jobs && w.jobs[key].connection in w.connections && environment.value == w.jobs[key].environment
        && (requested.Blank? || requested == environment.value)
  {
  }

  /** A build made under an earlier job of the same key is out of reach once the key belongs to another environment. */
  lemma ForeignBuildsAreOutOfReach(w: World, id: Key, reachable: bool, ended: bool, stored: bool)
    requires id in w.builds && w.builds[id].job in w.jobs
    requires !w.builds[id].environment.Blank? && w.jobs[w.builds[id].job].environment != w.builds[id].environment
    ensures Observed(w, id, reachable, ended, stored) == w
  {
  }
}
