/** What each operation of ControlModel accepts, and what exactly it writes, in terms of the records alone. */
module ControlExact {
  import opened Options
  import opened Documents
  import opened ControlModel
  import opened ControlSafety

  // ---------------------------------------------------------------- names and defaults

  /** Case and surrounding blanks of an environment name do not matter, and these are the names. */
  lemma NamesAreRead(raw: string)
    ensures ReadEnvironment(Lower(Trim(raw))) == ReadEnvironment(raw)
    ensures Lower(Trim(raw)) in {"dev", "test", "uat", "prod"} <==> ReadEnvironment(raw) in {Dev, Test, Uat, Prod}
    ensures NameOf(ReadEnvironment(raw)) == Lower(Trim(raw))
    ensures ByName("dev") == Dev && ByName("test") == Test && ByName("uat") == Uat && ByName("prod") == Prod && ByName("") == Blank
  {
    LowerSettles(Trim(raw));
  }

  // ---------------------------------------------------------------- upserts

  /** While no two rows share a pair, an upsert writes exactly one row: under its own key if no other row has the pair,
      over the row that has it if the key is new; and none if the key exists and the pair belongs to another row. */
  lemma UpsertCredentialExactly(rows: map<Key, Credential>, key: Key, row: Credential, other: Key)
    requires UniqueExternals(rows)
    ensures (forall k | k in rows && k != key :: rows[k].connection != row.connection || rows[k].externalId != row.externalId) ==>
      UpsertCredential(rows, key, row) == rows[key := row]
    ensures other in rows && other != key && rows[other].connection == row.connection && rows[other].externalId == row.externalId ==>
      UpsertCredential(rows, key, row) == if key in rows then rows else rows[other := row]
  {
    var taken := set k | k in rows && k != key && SameExternal(rows[k], row);
    if other in taken {
      forall k | k in taken ensures k == other {
        assert SameExternal(rows[k], rows[other]);
      }
      assert taken == {other};
    }
  }

  lemma UpsertJobExactly(rows: map<Key, Job>, key: Key, row: Job, other: Key)
    requires UniqueRemotes(rows)
    ensures (forall k | k in rows && k != key :: rows[k].connection != row.connection || rows[k].jenkinsName != row.jenkinsName) ==>
      UpsertJob(rows, key, row) == rows[key := row]
    ensures other in rows && other != key && rows[other].connection == row.connection && rows[other].jenkinsName == row.jenkinsName ==>
      UpsertJob(rows, key, row) == if key in rows then rows else rows[other := row]
  {
    var taken := set k | k in rows && k != key && SameRemote(rows[k], row);
    if other in taken {
      forall k | k in taken ensures k == other {
        assert SameRemote(rows[k], rows[other]);
      }
      assert taken == {other};
    }
  }

  // ---------------------------------------------------------------- deletions

  /** A record is deleted exactly if no other record refers to it. */
  lemma DeletionsAreExact(w: World, key: Key)
    ensures DeletedConnection(w, key, true) == w.(connections := w.connections - {key}) <==>
      key !in w.connections ||
        ((forall j | j in w.jobs :: w.jobs[j].connection != key) && (forall c | c in w.credentials :: w.credentials[c].connection != key))
    ensures DeletedCredential(w, key, true) == w.(credentials := w.credentials - {key}) <==>
      key !in w.credentials || (forall j | j in w.jobs :: w.jobs[j].credential != key && w.jobs[j].manifestCredential != key)
    ensures DeletedRepository(w, key) == w.(repositories := w.repositories - {key}) <==>
      key !in w.repositories || (forall j | j in w.jobs :: w.jobs[j].repository != key && w.jobs[j].manifestRepository != key)
    ensures DeletedConnection(w, key, false) == w && DeletedCredential(w, key, false) == w
  {
    if key in w.connections { assert key !in w.connections - {key}; } else { assert w.connections - {key} == w.connections; }
    if key in w.credentials { assert key !in w.credentials - {key}; } else { assert w.credentials - {key} == w.credentials; }
    if key in w.repositories { assert key !in w.repositories - {key}; } else { assert w.repositories - {key} == w.repositories; }
  }

  // ---------------------------------------------------------------- jobs

  /** What a job asks for: generated jobs fill in the names of the delivery repositories and their own path. */
  lemma AskedSourcesAre(key: Key, input: Job, environment: Environment)
    ensures var asked := AskedSources(key, input, environment);
      if !input.generated then
        asked == Sources(input.repository, input.manifestRepository, input.repo, input.branch, input.path)
      else
        && asked.repo == input.repo && asked.branch == input.branch
        && asked.repository == (if Trim(input.repository) == "" then "ops-delivery-jenkinsfiles" else Trim(input.repository))
        && asked.manifests == (if Trim(input.manifestRepository) == "" then "ops-delivery-manifests" else Trim(input.manifestRepository))
        && asked.path == (if Trim(input.path) != "" then Trim(input.path)
             else "environments/" + NameOf(environment) + "/pipelines/" + key + "/Jenkinsfile")
  {
  }

  /** A generated job is pinned exactly if both repositories are stored and both credentials are synchronized and its own. */
  lemma PreparedRowExactly(w: World, key: Key, job: Job)
    ensures var pipeline, manifests := PipelineKey(w, job), if Trim(job.manifestRepository) == "" then "ops-delivery-manifests" else Trim(job.manifestRepository);
      var row := PreparedRow(w, key, job);
      if pipeline in w.repositories && manifests in w.repositories
        && Usable(w, PipelineCredential(w, job), job) && Usable(w, ManifestCredential(w, job), job) then
        && row == job.(repository := pipeline, repo := w.repositories[pipeline].cloneUrl, manifestRepository := manifests,
             branch := row.branch, path := row.path, credential := PipelineCredential(w, job),
             manifestCredential := ManifestCredential(w, job), status := Pending)
        && row.branch == (if Trim(job.branch) != "" then Trim(job.branch)
             else if Trim(w.repositories[pipeline].defaultBranch) != "" then Trim(w.repositories[pipeline].defaultBranch) else "main")
        && row.path == (if Trim(job.path) != "" then Trim(job.path)
             else "environments/" + NameOf(job.environment) + "/pipelines/" + key + "/Jenkinsfile")
      else row == job
  {
  }

  /** The job is sent to its server, and what is read back has every setting of the record. */
  ghost predicate GetsReady(w: World, job: Job, a: SyncAnswers) {
    && job.connection in w.connections && w.connections[job.connection].environment == job.environment
    && job.environment in {Dev, Test, Uat, Prod} && a.reachable
    && CredentialReady(w, job, job.credential) && CredentialReady(w, job, job.manifestCredential)
    && a.confirmed && a.readBack && ReadBackAgrees(w, job, RemoteKey(w.connections[job.connection].endpoint, job.jenkinsName), a)
  }

  predicate ReadBackAgrees(w: World, job: Job, at: RemoteKey, a: SyncAnswers) {
    if a.posted.Some? then Agrees(job, ExternalId(w, job.credential), a.posted.value)
    else at in w.remote && Agrees(job, ExternalId(w, job.credential), w.remote[at])
  }

  lemma VerifiedMeans(w: World, job: Job, at: RemoteKey, a: SyncAnswers)
    ensures var posted := Posted(Accessed(w, job, job.environment), at, a);
      && posted.jobs == w.jobs && posted.connections == w.connections && posted.credentials == w.credentials
      && (Verified(posted, job, at, a) <==> a.confirmed && a.readBack && ReadBackAgrees(w, job, at, a))
  {
    var used := Accessed(w, job, job.environment);
    assert used == w.(accesses := used.accesses);
  }

  lemma StatusIs(w: World, used: World, key: Key, status: SyncStatus, stored: bool)
    requires Isolated(w) && key in w.jobs && used.jobs == w.jobs
    ensures WithStatus(used, key, w.jobs[key], status, stored).jobs == if stored then w.jobs[key := w.jobs[key].(status := status)] else w.jobs
  {
    WithStatusKeeps(w, key, status, stored);
  }

  /** A synchronization makes the record ready exactly if that holds, and records a failure otherwise. */
  lemma DeployedExactly(w: World, key: Key, a: SyncAnswers, stored: bool)
    requires Isolated(w) && key in w.jobs
    ensures Deployed(w, key, a, stored).jobs ==
      if stored then w.jobs[key := w.jobs[key].(status := if GetsReady(w, w.jobs[key], a) then Ready else SyncFailed)] else w.jobs
  {
    var job := w.jobs[key];
    var endpoint := EndpointFor(w, job, job.environment);
    if endpoint.None? || !a.reachable {
      StatusIs(w, w, key, SyncFailed, stored);
    } else if !CredentialReady(w, job, job.credential) || !CredentialReady(w, job, job.manifestCredential) {
      StatusIs(w, Accessed(w, job, job.environment), key, SyncFailed, stored);
    } else {
      var at := RemoteKey(endpoint.value, job.jenkinsName);
      VerifiedMeans(w, job, at, a);
      StatusIs(w, Posted(Accessed(w, job, job.environment), at, a), key, if GetsReady(w, job, a) then Ready else SyncFailed, stored);
    }
  }

  ghost predicate SyncMakesReady(w: World, key: Key, prepared: bool, a: SyncAnswers) {
    && key in w.jobs && (w.jobs[key].generated ==> prepared)
    && GetsReady(Prepared(w, key, prepared), Prepared(w, key, prepared).jobs[key], a)
  }

  lemma PreparedJobs(w: World, key: Key, prepared: bool)
    requires Isolated(w) && key in w.jobs
    ensures var jobs := Prepared(w, key, prepared).jobs; jobs.Keys == w.jobs.Keys && jobs - {key} == w.jobs - {key}
    ensures Isolated(Prepared(w, key, prepared))
  {
    PreparedKeeps(w, key, prepared);
  }

  /** The record becomes ready exactly if that holds of it once its repositories are prepared. */
  lemma SyncedExactly(w: World, key: Key, prepared: bool, a: SyncAnswers, stored: bool)
    requires Isolated(w)
    ensures key !in w.jobs || (w.jobs[key].generated && !prepared) ==> SyncedJob(w, key, prepared, a, stored) == w
    ensures key in w.jobs && (w.jobs[key].generated ==> prepared) ==>
      var jobs, ready := SyncedJob(w, key, prepared, a, stored).jobs, Prepared(w, key, prepared).jobs[key];
      jobs == w.jobs[key := if !stored then ready
                            else ready.(status := if SyncMakesReady(w, key, prepared, a) then Ready else SyncFailed)]
  {
    if key in w.jobs && (w.jobs[key].generated ==> prepared) {
      PreparedJobs(w, key, prepared);
      OneOtherValue(w.jobs, Prepared(w, key, prepared).jobs, key);
      DeployedStatus(w, Prepared(w, key, prepared), key, a, stored);
    }
  }

  lemma OneOtherValue<K, V>(before: map<K, V>, after: map<K, V>, key: K)
    requires before.Keys == after.Keys && key in before && before - {key} == after - {key}
    ensures after == before[key := after[key]]
  {
    forall k | k in before && k != key ensures after[k] == before[k] {
      assert k in before - {key} && (before - {key})[k] == before[k] && (after - {key})[k] == after[k];
    }
  }

  lemma DeployedStatus(w: World, ready: World, key: Key, a: SyncAnswers, stored: bool)
    requires Isolated(ready) && key in ready.jobs && key in w.jobs
    requires ready.jobs == w.jobs[key := ready.jobs[key]]
    ensures Deployed(ready, key, a, stored).jobs == w.jobs[key :=
      if !stored then ready.jobs[key]
      else ready.jobs[key].(status := if GetsReady(ready, ready.jobs[key], a) then Ready else SyncFailed)]
  {
    DeployedExactly(ready, key, a, stored);
  }

  // ---------------------------------------------------------------- builds

  /** A build is requested from Jenkins, Jenkins queues it, and no active record of that queue item exists. */
  ghost predicate GetsQueued(w: World, key: Key, requested: Environment, a: TriggerAnswers) {
    && key in w.jobs && w.jobs[key].enabled && w.jobs[key].status == Ready && w.jobs[key].connection in w.connections
    && w.connections[w.jobs[key].connection].environment == w.jobs[key].environment
    && w.jobs[key].environment in {Dev, Test, Uat, Prod} && requested in {Blank, w.jobs[key].environment}
    && a.accepted && !a.repeated && a.reachable && a.queue.Some?
    && (w.jobs[key].generated
        || (CredentialReady(w, w.jobs[key], w.jobs[key].credential) && CredentialReady(w, w.jobs[key], w.jobs[key].manifestCredential)))
    && (forall b | b in w.builds && w.builds[b].job == key && w.builds[b].queue == a.queue.value
          && w.builds[b].environment == w.jobs[key].environment :: !w.builds[b].active)
  }

  lemma TriggeredExactly(w: World, key: Key, requested: Environment, id: Key, a: TriggerAnswers, stored: bool)
    ensures Triggered(w, key, requested, id, a, stored).builds ==
      if stored && GetsQueued(w, key, requested, a)
      then w.builds[id := Build(key, w.jobs[key].environment, a.queue.value, true)] else w.builds
  {
    var environment := TriggerEnvironment(w, key, requested);
    if environment.Some? && a.queue.Some? {
      assert Coalesced(w, key, environment.value, a.queue.value) <==>
        exists b | b in w.builds && w.builds[b].job == key && w.builds[b].queue == a.queue.value
          && w.builds[b].environment == environment.value :: w.builds[b].active;
    }
  }

  // ---------------------------------------------------------------- the steps of a run

  /** Each step of a run is the operation of its name; the methods of ControlPlane are proved equal to these operations. */
  lemma SavesAreSteps(w: World, key: Key, environment: Environment, endpoint: string, complete: bool, flag: bool, stored: bool,
                      input: Credential, repository: Repository)
    ensures Apply(w, SaveConnection(key, environment, endpoint, complete, flag, stored)) ==
      SavedConnection(w, key, environment, endpoint, complete, flag, stored)
    ensures Apply(w, SaveManagedConnection(key, environment, endpoint, complete, stored)) ==
      SavedManagedConnection(w, key, environment, endpoint, complete, stored)
    ensures Apply(w, SaveCredential(key, input, complete, flag, stored)) == SavedCredential(w, key, input, complete, flag, stored)
    ensures Apply(w, SyncCredential(key, flag, stored)) == SyncedCredential(w, key, flag, stored)
    ensures Apply(w, DeleteConnection(key, stored)) == DeletedConnection(w, key, stored)
    ensures Apply(w, DeleteCredential(key, stored)) == DeletedCredential(w, key, stored)
    ensures Apply(w, DeleteRepository(key)) == DeletedRepository(w, key)
    ensures Apply(w, SaveRepository(key, repository)) == w.(repositories := w.repositories[key := repository])
  {
  }

  lemma SavedJobsAreSteps(w: World, key: Key, input: Job, environment: Environment, valid: bool, stored: bool, prepared: bool)
    ensures Apply(w, SaveJob(key, input, environment, valid, stored, prepared)) ==
      SavedJob(w, key, input, environment, valid, stored, prepared)
    ensures Apply(w, PrepareJob(key, prepared)) == Prepared(w, key, prepared)
  {
  }

  lemma SyncedJobsAreSteps(w: World, key: Key, prepared: bool, a: SyncAnswers, stored: bool)
    ensures Apply(w, SyncJob(key, prepared, a, stored)) == SyncedJob(w, key, prepared, a, stored)
    ensures Apply(w, RecordSyncFailure(key, stored)) ==
      if key in w.jobs then WithStatus(w, key, w.jobs[key], SyncFailed, stored) else w
  {
  }

  lemma DeletedJobsAreSteps(w: World, key: Key, alsoRemote: bool, reachable: bool, removal: Removal, stored: bool)
    ensures Apply(w, DeleteJob(key, alsoRemote, reachable, removal, stored)) == DeletedJob(w, key, alsoRemote, reachable, removal, stored)
  {
  }

  lemma BuildsAreSteps(w: World, key: Key, environment: Environment, id: Key, a: TriggerAnswers, stored: bool, reachable: bool, ended: bool)
    ensures Apply(w, TriggerBuild(key, environment, id, a, stored)) == Triggered(w, key, environment, id, a, stored)
    ensures Apply(w, ObserveBuild(id, reachable, ended, stored)) == Observed(w, id, reachable, ended, stored)
  {
  }

  // ---------------------------------------------------------------- uses of Jenkins

  /** `clientForJob` lets a request through. */
  ghost predicate LetThrough(w: World, job: Job, requested: Environment, reachable: bool) {
    && job.connection in w.connections && w.connections[job.connection].environment == job.environment
    && job.environment in {Dev, Test, Uat, Prod} && requested in {Blank, job.environment} && reachable
  }

  ghost predicate HasBothCredentials(w: World, job: Job) {
    CredentialReady(w, job, job.credential) && CredentialReady(w, job, job.manifestCredential)
  }

  ghost function UseOf(w: World, job: Job, requested: Environment, reachable: bool): seq<Access> {
    if LetThrough(w, job, requested, reachable)
    then [Access(w.connections[job.connection].endpoint, job.environment, w.connections[job.connection].environment, requested)]
    else []
  }

  /** Which uses of Jenkins one operation makes. */
  ghost function UsesOf(w: World, s: Step): seq<Access> {
    match s
    case SyncJob(key, prepared, answers, _) =>
      if key in w.jobs && (w.jobs[key].generated ==> prepared)
      then UseOf(w, w.jobs[key], w.jobs[key].environment, answers.reachable) else []
    case DeleteJob(key, alsoRemote, reachable, _, _) =>
      if key in w.jobs && alsoRemote && (forall b | b in w.builds && w.builds[b].job == key :: !w.builds[b].active)
      then UseOf(w, w.jobs[key], w.jobs[key].environment, reachable) else []
    case TriggerBuild(key, environment, _, trigger, _) =>
      if key in w.jobs && w.jobs[key].enabled && w.jobs[key].status == Ready && environment in {Blank, w.jobs[key].environment}
        && trigger.accepted && !trigger.repeated && (w.jobs[key].generated || HasBothCredentials(w, w.jobs[key]))
      then UseOf(w, w.jobs[key], w.jobs[key].environment, trigger.reachable) else []
    case ObserveBuild(id, reachable, _, _) =>
      if id in w.builds && w.builds[id].job in w.jobs
      then UseOf(w, w.jobs[w.builds[id].job], w.builds[id].environment, reachable) else []
    case _ => []
  }

  /** Exactly these uses are recorded, by every operation. */
  lemma UsesAreRecorded(w: World, s: Step)
    requires Isolated(w)
    ensures Apply(w, s).accesses == w.accesses + UsesOf(w, s)
  {
    match s
    case SyncJob(key, prepared, answers, stored) =>
      SyncUses(w, key, prepared, answers, stored);
      SyncedJobsAreSteps(w, key, prepared, answers, stored);
    case DeleteJob(key, alsoRemote, reachable, removal, stored) =>
      DeleteUses(w, key, alsoRemote, reachable, removal, stored);
      DeletedJobsAreSteps(w, key, alsoRemote, reachable, removal, stored);
    case TriggerBuild(key, environment, id, trigger, stored) => BuildUses(w, s);
    case ObserveBuild(id, reachable, ended, stored) => BuildUses(w, s);
    case _ => SavesUseNothing(w, s);
  }

  lemma BuildUses(w: World, s: Step)
    requires s.TriggerBuild? || s.ObserveBuild?
    ensures Apply(w, s).accesses == w.accesses + UsesOf(w, s)
  {
    match s
    case TriggerBuild(key, environment, id, trigger, stored) => TriggerUses(w, key, environment, id, trigger, stored);
    case ObserveBuild(id, reachable, ended, stored) => ObserveUses(w, id, reachable, ended, stored);
  }

  lemma SavesUseNothing(w: World, s: Step)
    requires !s.SyncJob? && !s.DeleteJob? && !s.TriggerBuild? && !s.ObserveBuild?
    ensures Apply(w, s).accesses == w.accesses
  {
  }

  lemma DeleteUses(w: World, key: Key, alsoRemote: bool, reachable: bool, removal: Removal, stored: bool)
    ensures DeletedJob(w, key, alsoRemote, reachable, removal, stored).accesses == w.accesses +
      (if key in w.jobs && alsoRemote && (forall b | b in w.builds && w.builds[b].job == key :: !w.builds[b].active)
       then UseOf(w, w.jobs[key], w.jobs[key].environment, reachable) else [])
  {
  }

  lemma ObserveUses(w: World, id: Key, reachable: bool, ended: bool, stored: bool)
    ensures Observed(w, id, reachable, ended, stored).accesses == w.accesses +
      (if id in w.builds && w.builds[id].job in w.jobs
       then UseOf(w, w.jobs[w.builds[id].job], w.builds[id].environment, reachable) else [])
  {
  }

  lemma TriggerUses(w: World, key: Key, requested: Environment, id: Key, a: TriggerAnswers, stored: bool)
    ensures Triggered(w, key, requested, id, a, stored).accesses == w.accesses +
      (if key in w.jobs && w.jobs[key].enabled && w.jobs[key].status == Ready && requested in {Blank, w.jobs[key].environment}
         && a.accepted && !a.repeated && (w.jobs[key].generated || HasBothCredentials(w, w.jobs[key]))
       then UseOf(w, w.jobs[key], w.jobs[key].environment, a.reachable) else [])
  {
  }

  lemma SyncUses(w: World, key: Key, prepared: bool, a: SyncAnswers, stored: bool)
    requires Isolated(w)
    ensures SyncedJob(w, key, prepared, a, stored).accesses == w.accesses +
      (if key in w.jobs && (w.jobs[key].generated ==> prepared)
       then UseOf(w, w.jobs[key], w.jobs[key].environment, a.reachable) else [])
  {
    if key in w.jobs && (w.jobs[key].generated ==> prepared) {
      PreparedPlace(w, key, prepared);
      DeployedElsewhere(Prepared(w, key, prepared), key, a, stored);
    }
  }

  lemma PreparedPlace(w: World, key: Key, prepared: bool)
    requires Isolated(w) && key in w.jobs
    ensures var ready := Prepared(w, key, prepared);
      && ready == w.(jobs := ready.jobs) && key in ready.jobs
      && ready.jobs[key].environment == w.jobs[key].environment && ready.jobs[key].connection == w.jobs[key].connection
      && ready.jobs[key].jenkinsName == w.jobs[key].jenkinsName
  {
    PreparedKeeps(w, key, prepared);
  }

  /** What a synchronization does beside the record: it sends the job if it is let through with both credentials. */
  lemma DeployedElsewhere(w: World, key: Key, a: SyncAnswers, stored: bool)
    requires key in w.jobs
    ensures var after, job := Deployed(w, key, a, stored), w.jobs[key];
      && after == w.(jobs := after.jobs, remote := after.remote, accesses := after.accesses)
      && after.accesses == w.accesses + UseOf(w, job, job.environment, a.reachable)
      && after.remote ==
        if LetThrough(w, job, job.environment, a.reachable) && HasBothCredentials(w, job) && a.posted.Some?
        then w.remote[RemoteKey(w.connections[job.connection].endpoint, job.jenkinsName) := a.posted.value] else w.remote
  {
    var job := w.jobs[key];
    AccessIsUse(w, job);
    var used := Accessed(w, job, job.environment);
    if LetThrough(w, job, job.environment, a.reachable) && HasBothCredentials(w, job) {
      var at := RemoteKey(w.connections[job.connection].endpoint, job.jenkinsName);
      assert Deployed(w, key, a, stored) ==
        WithStatus(Posted(used, at, a), key, job, if Verified(Posted(used, at, a), job, at, a) then Ready else SyncFailed, stored);
    } else {
      assert Deployed(w, key, a, stored) ==
        WithStatus(if LetThrough(w, job, job.environment, a.reachable) then used else w, key, job, SyncFailed, stored);
    }
  }

  lemma AccessIsUse(w: World, job: Job)
    ensures EndpointFor(w, job, job.environment).Some? <==> LetThrough(w, job, job.environment, true)
    ensures LetThrough(w, job, job.environment, true) ==> EndpointFor(w, job, job.environment).value == w.connections[job.connection].endpoint
    ensures Accessed(w, job, job.environment) == w.(accesses := w.accesses + UseOf(w, job, job.environment, true))
  {
  }

  // ---------------------------------------------------------------- credentials over runs

  /** Whether the last synchronization of a credential whose result was stored was pushed to Jenkins. */
  function LastSyncPushed(steps: seq<Step>, key: Key): bool
    decreases |steps|
  {
    if steps == [] then false
    else
      var last := steps[|steps| - 1];
      if last.SyncCredential? && last.key == key && last.stored then last.pushed else LastSyncPushed(steps[..|steps| - 1], key)
  }

  lemma {:induction false} AfterSnoc(w: World, steps: seq<Step>, s: Step)
    ensures After(w, steps + [s]) == Apply(After(w, steps), s)
    decreases |steps|
  {
    if steps == [] {
      assert [s][0] == s && [s][1..] == [] && [] + [s] == [s];
      assert After(Apply(w, s), []) == Apply(w, s);
    } else {
      assert (steps + [s])[0] == steps[0] && (steps + [s])[1..] == steps[1..] + [s];
      AfterSnoc(Apply(w, steps[0]), steps[1..], s);
    }
  }

  ghost predicate ReadySecret(w: World, key: Key) {
    key in w.credentials && w.credentials[key].kind != "existing" && w.credentials[key].status == Ready
  }

  lemma SyncLeavesCredentials(w: World, key: Key, prepared: bool, a: SyncAnswers, stored: bool)
    ensures SyncedJob(w, key, prepared, a, stored).credentials == w.credentials
  {
    if key in w.jobs && (w.jobs[key].generated ==> prepared) {
      DeployLeavesCredentials(Prepared(w, key, prepared), key, a, stored);
    }
  }

  lemma DeployLeavesCredentials(w: World, key: Key, a: SyncAnswers, stored: bool)
    requires key in w.jobs
    ensures Deployed(w, key, a, stored).credentials == w.credentials
  {
    var job := w.jobs[key];
    var endpoint := EndpointFor(w, job, job.environment);
    assert Accessed(w, job, job.environment).credentials == w.credentials;
    if endpoint.Some? {
      VerifiedMeans(w, job, RemoteKey(endpoint.value, job.jenkinsName), a);
    }
  }

  lemma BuildsLeaveCredentials(w: World, s: Step)
    requires s.TriggerBuild? || s.ObserveBuild?
    ensures Apply(w, s).credentials == w.credentials
  {
    match s
    case TriggerBuild(key, environment, id, trigger, stored) =>
    case ObserveBuild(id, reachable, ended, stored) =>
  }

  lemma SavedSecret(w: World, saved: Key, input: Credential, complete: bool, secret: bool, stored: bool, key: Key)
    requires ReadySecret(SavedCredential(w, saved, input, complete, secret, stored), key)
    ensures ReadySecret(w, key)
  {
  }

  /** A credential becomes ready by its own synchronization only, and that is pushed and stored. */
  lemma ReadySecretStep(w: World, s: Step, key: Key)
    requires ReadySecret(Apply(w, s), key)
    ensures if s.SyncCredential? && s.key == key && s.stored then s.pushed else ReadySecret(w, key)
  {
    match s
    case SaveCredential(saved, input, complete, secret, stored) => SavedSecret(w, saved, input, complete, secret, stored, key);
    case SyncJob(job, prepared, a, stored) => SyncLeavesCredentials(w, job, prepared, a, stored);
    case TriggerBuild(_, _, _, _, _) => BuildsLeaveCredentials(w, s);
    case ObserveBuild(_, _, _, _) => BuildsLeaveCredentials(w, s);
    case _ =>
  }

  /** After every run, a credential that is ready and was not put into Jenkins by hand was pushed there by its last stored
      synchronization. */
  lemma {:induction false} ReadySecretsWerePushed(steps: seq<Step>, key: Key)
    requires ReadySecret(After(Empty, steps), key)
    ensures LastSyncPushed(steps, key)
    decreases |steps|
  {
    if steps != [] {
      var before, last := steps[..|steps| - 1], steps[|steps| - 1];
      assert steps == before + [last];
      AfterSnoc(Empty, before, last);
      ReadySecretStep(After(Empty, before), last, key);
      if ReadySecret(After(Empty, before), key) {
        ReadySecretsWerePushed(before, key);
      }
    }
  }

  /** Saving a new secret for a ready credential leaves it ready, although Jenkins still has the old one. */
  lemma NewSecretStaysReady(w: World, key: Key)
    requires Isolated(w) && ReadySecret(w, key)
    ensures var w' := SavedCredential(w, key, w.credentials[key], true, true, true);
      ReadySecret(w', key) && w'.remote == w.remote && w'.accesses == w.accesses
  {
    var record := w.credentials[key];
    assert FixedTo(w, record.connection, record.environment);
    UpsertCredentialExactly(w.credentials, key, CredentialRow(w, key, record, true, true).value, key);
    assert forall k | k in w.credentials && k != key :: !SameExternal(w.credentials[k], record);
  }
}
