/** The service of internal/cicd/service.go as the object it is: each method reads and replaces records step by step, and
    is proved to be one step of ControlModel that keeps the environments apart. */
module ControlPlane {
  import opened Options
  import opened Documents
  import opened ControlModel
  import opened ControlSafety
  import opened ControlExact

  class Service {
    var connections: map<Key, Connection>
    var credentials: map<Key, Credential>
    var repositories: map<Key, Repository>
    var jobs: map<Key, Job>
    var builds: map<Key, Build>

    /** The Jenkins jobs on all servers. */
    var remote: map<RemoteKey, RemoteJob>

    /** Every use of Jenkins so far. */
    ghost var accesses: seq<Access>

    ghost function View(): World
      reads this
    {
      World(connections, credentials, repositories, jobs, builds, remote, accesses)
    }

    ghost predicate Valid()
      reads this
    {
      Isolated(View())
    }

    constructor ()
      ensures Valid() && View() == Empty
    {
      connections, credentials, repositories, jobs, builds, remote := map[], map[], map[], map[], map[], map[];
      accesses := [];
    }

    // -------------------------------------------------------------- reading

    /** Whether a job on this connection is fixed to another environment. */
    method HasForeignJob(key: Key, environment: Environment) returns (found: bool)
      ensures found <==> exists j | j in jobs ::
        jobs[j].connection == key && !jobs[j].environment.Blank? && jobs[j].environment != environment
    {
      var rest := jobs.Keys;
      while rest != {}
        invariant rest <= jobs.Keys
        invariant forall j | j in jobs && j !in rest ::
          !(jobs[j].connection == key && !jobs[j].environment.Blank? && jobs[j].environment != environment)
        decreases rest
      {
        var j :| j in rest;
        if jobs[j].connection == key && !jobs[j].environment.Blank? && jobs[j].environment != environment {
          return true;
        }
        rest := rest - {j};
      }
      return false;
    }

    /** Whether a build of this job is queued or running. */
    method IsBusy(key: Key) returns (busy: bool)
      ensures busy == HasActiveBuild(View(), key)
    {
      var rest := builds.Keys;
      while rest != {}
        invariant rest <= builds.Keys
        invariant forall b | b in builds && b !in rest :: !(builds[b].job == key && builds[b].active)
        decreases rest
      {
        var b :| b in rest;
        if builds[b].job == key && builds[b].active {
          return true;
        }
        rest := rest - {b};
      }
      return false;
    }

    /** Whether a build Jenkins put into this queue item is known already. */
    method IsCoalesced(key: Key, environment: Environment, queue: string) returns (found: bool)
      ensures found == Coalesced(View(), key, environment, queue)
    {
      var rest := builds.Keys;
      while rest != {}
        invariant rest <= builds.Keys
        invariant forall b | b in builds && b !in rest :: builds[b] != Build(key, environment, queue, true)
        decreases rest
      {
        var b :| b in rest;
        if builds[b] == Build(key, environment, queue, true) {
          return true;
        }
        rest := rest - {b};
      }
      return false;
    }

    /** `credentialIDs`: no error. */
    method CredentialIds(job: Job) returns (ready: bool)
      ensures ready <==> CredentialReady(View(), job, job.credential) && CredentialReady(View(), job, job.manifestCredential)
      ensures ready <==> forall key | key in [job.credential, job.manifestCredential] && key != "" ::
        && key in credentials && (credentials[key].kind == "existing" || credentials[key].status == Ready)
        && credentials[key].connection == job.connection && credentials[key].environment == job.environment
    {
      var keys := [job.credential, job.manifestCredential];
      var i := 0;
      while i < |keys|
        invariant 0 <= i <= |keys|
        invariant forall k | 0 <= k < i :: CredentialReady(View(), job, keys[k])
      {
        if keys[i] != "" {
          if keys[i] !in credentials {
            assert !CredentialReady(View(), job, keys[i]);
            return false;
          }
          var record := credentials[keys[i]];
          if record.kind != "existing" && record.status != Ready {
            assert !CredentialReady(View(), job, keys[i]);
            return false;
          }
          if record.connection != job.connection || record.environment != job.environment {
            assert !CredentialReady(View(), job, keys[i]);
            return false;
          }
        }
        assert CredentialReady(View(), job, keys[i]);
        i := i + 1;
      }
      assert CredentialReady(View(), job, keys[0]) && CredentialReady(View(), job, keys[1]);
      return true;
    }

    // -------------------------------------------------------------- single writes

    /** The store writes a job, or fails and writes nothing. */
    method StoreJob(key: Key, row: Job, stored: bool)
      modifies this`jobs
      ensures jobs == if stored then UpsertJob(old(jobs), key, row) else old(jobs)
    {
      if stored {
        jobs := UpsertJob(jobs, key, row);
      }
    }

    /** `clientForJob`: refuses another environment than the job's and a connection of another environment. */
    method ClientForJob(job: Job, requested: Environment, reachable: bool) returns (endpoint: Option<string>)
      modifies this`accesses
      ensures endpoint == if reachable then EndpointFor(old(View()), job, requested) else None
      ensures accesses == if endpoint.Some? then Accessed(old(View()), job, requested).accesses else old(accesses)
      ensures endpoint.Some? <==>
        && job.environment in {Dev, Test, Uat, Prod} && requested in {Blank, job.environment} && reachable
        && job.connection in connections && connections[job.connection].environment == job.environment
      ensures endpoint.Some? ==>
        && endpoint.value == connections[job.connection].endpoint
        && accesses == old(accesses) + [Access(endpoint.value, job.environment, job.environment, requested)]
      ensures endpoint.None? ==> accesses == old(accesses)
    {
      if !requested.Blank? && job.environment != requested {
        return None;
      }
      if job.connection !in connections {
        return None;
      }
      var record := connections[job.connection];
      if !Bound(record.environment, job.environment) {
        return None;
      }
      if !reachable {
        return None;
      }
      accesses := accesses + [Access(record.endpoint, record.environment, job.environment, requested)];
      return Some(record.endpoint);
    }

    /** `upsertJob` of the Jenkins client: send the job, read it back, compare. */
    method UpsertRemote(job: Job, at: RemoteKey, a: SyncAnswers) returns (ok: bool)
      modifies this`remote
      ensures remote == Posted(old(View()), at, a).remote
      ensures ok == Verified(Posted(old(View()), at, a), job, at, a)
      ensures remote == if a.posted.Some? then old(remote)[at := a.posted.value] else old(remote)
      ensures ok <==>
        && a.confirmed && a.readBack && at in remote
        && (job.repo != "" ==> Trim(remote[at].repo) == Trim(job.repo))
        && (job.path != "" ==> Trim(remote[at].path) == Trim(job.path))
        && (job.branch != "" ==> Trim(remote[at].branch) in {Trim(job.branch), Trim("*/" + job.branch)})
        && (job.credential in credentials && job.credential != "" && credentials[job.credential].externalId != "" ==>
              Trim(remote[at].credential) == Trim(credentials[job.credential].externalId))
    {
      if a.posted.Some? {
        remote := remote[at := a.posted.value];
      }
      if !a.confirmed || !a.readBack || at !in remote {
        return false;
      }
      var externalId := if job.credential != "" && job.credential in credentials then credentials[job.credential].externalId else "";
      return Agrees(job, externalId, remote[at]);
    }

    // -------------------------------------------------------------- connections and credentials

    method SaveConnection(key: Key, rawEnvironment: string, endpoint: string, complete: bool, token: bool, stored: bool)
      returns (ok: bool)
      requires Valid()
      modifies this
      ensures Valid()
      ensures View() == SavedConnection(old(View()), key, ReadEnvironment(rawEnvironment), endpoint, complete, token, stored)
      ensures ok <==> var environment := ReadEnvironment(rawEnvironment);
        && environment in {Dev, Test, Uat, Prod} && complete && stored
        && (token || (key in old(connections) && old(connections)[key].hasToken))
        && (key in old(connections) ==> old(connections)[key].environment == environment)
      ensures View() == if ok
        then old(View()).(connections := old(connections)[key := Connection(ReadEnvironment(rawEnvironment), endpoint, true)])
        else old(View())
    {
      var environment := ReadEnvironment(rawEnvironment);
      SavedConnectionKeeps(View(), key, environment, endpoint, complete, token, stored);
      if !Deployable(environment) || !complete {
        return false;
      }
      var hasToken := false;
      if key in connections {
        var existing := connections[key];
        if !existing.environment.Blank? && existing.environment != environment {
          return false;
        }
        if existing.environment.Blank? {
          var foreign := HasForeignJob(key, environment);
          if foreign {
            return false;
          }
        }
        hasToken := existing.hasToken;
      }
      if token {
        hasToken := true;
      }
      if !hasToken || !stored {
        return false;
      }
      connections := connections[key := Connection(environment, endpoint, true)];
      return true;
    }

    method SaveManagedConnection(key: Key, rawEnvironment: string, endpoint: string, complete: bool, stored: bool)
      returns (ok: bool)
      requires Valid()
      modifies this
      ensures Valid()
      ensures View() == SavedManagedConnection(old(View()), key, ReadEnvironment(rawEnvironment), endpoint, complete, stored)
      ensures ok <==> var environment := ReadEnvironment(rawEnvironment);
        && environment != Blank && complete && stored
        && (key in old(connections) ==> old(connections)[key].environment == environment)
      ensures View() == if ok
        then old(View()).(connections := old(connections)[key := Connection(ReadEnvironment(rawEnvironment), endpoint, true)])
        else old(View())
    {
      var environment := ReadEnvironment(rawEnvironment);
      SavedManagedKeeps(View(), key, environment, endpoint, complete, stored);
      if environment.Blank? || !complete {
        return false;
      }
      if key in connections && !connections[key].environment.Blank? && connections[key].environment != environment {
        return false;
      }
      if !stored {
        return false;
      }
      connections := connections[key := Connection(environment, endpoint, true)];
      return true;
    }

    /** The checks of `SaveCredential`, up to the save. */
    method FillCredential(key: Key, input: Credential, complete: bool, secret: bool) returns (row: Option<Credential>)
      ensures row == CredentialRow(View(), key, input, complete, secret)
      ensures row.Some? <==>
        && complete && input.connection in connections
        && connections[input.connection].environment in {Dev, Test, Uat, Prod}
        && input.environment in {Blank, connections[input.connection].environment}
        && (key in credentials ==>
              && credentials[key].environment in {Blank, connections[input.connection].environment}
              && credentials[key].connection == input.connection && credentials[key].externalId == input.externalId
              && credentials[key].kind == input.kind)
        && (input.kind == "existing" || secret || (key in credentials && credentials[key].hasSecret))
      ensures row.Some? ==> row.value == Credential(
        connections[input.connection].environment, input.connection, input.externalId, input.kind, input.kind != "existing",
        if input.kind == "existing" then Ready else if key in credentials then credentials[key].status else Pending)
    {
      if input.connection !in connections {
        return None;
      }
      var connection := connections[input.connection];
      var environment := input.environment;
      if environment.Blank? {
        environment := connection.environment;
      }
      if !Bound(connection.environment, environment) || !complete {
        return None;
      }
      var hasSecret, status := false, Pending;
      if key in credentials {
        var existing := credentials[key];
        if !existing.environment.Blank? && existing.environment != environment {
          return None;
        }
        if existing.connection != input.connection || existing.externalId != input.externalId || existing.kind != input.kind {
          return None;
        }
        hasSecret, status := existing.hasSecret, existing.status;
      }
      if secret {
        hasSecret := true;
      }
      if input.kind != "existing" && !hasSecret {
        return None;
      }
      if input.kind == "existing" {
        hasSecret, status := false, Ready;
      }
      return Some(Credential(environment, input.connection, input.externalId, input.kind, hasSecret, status));
    }

    method SaveCredential(key: Key, input: Credential, complete: bool, secret: bool, stored: bool) returns (ok: bool)
      requires Valid()
      modifies this
      ensures Valid()
      ensures View() == SavedCredential(old(View()), key, input, complete, secret, stored)
      ensures ok <==> stored && CredentialRow(old(View()), key, input, complete, secret).Some?
      ensures View() == if ok
        then old(View()).(credentials :=
          UpsertCredential(old(credentials), key, CredentialRow(old(View()), key, input, complete, secret).value))
        else old(View())
    {
      SavedCredentialKeeps(View(), key, input, complete, secret, stored);
      var row := FillCredential(key, input, complete, secret);
      if row.None? || !stored {
        return false;
      }
      credentials := UpsertCredential(credentials, key, row.value);
      return true;
    }

    /** `SyncCredential`: a credential that Jenkins manages itself is ready without a push. */
    method SyncCredential(key: Key, pushed: bool, stored: bool) returns (ready: bool)
      requires Valid()
      modifies this
      ensures Valid()
      ensures View() == SyncedCredential(old(View()), key, pushed, stored)
      ensures ready <==> key in old(credentials) && stored && (old(credentials)[key].kind == "existing" || pushed)
      ensures View() == if key in old(credentials) && stored
        then old(View()).(credentials :=
          old(credentials)[key := old(credentials)[key].(status := if ready then Ready else SyncFailed)])
        else old(View())
    {
      SyncedCredentialKeeps(View(), key, pushed, stored);
      if key !in credentials || !stored {
        return false;
      }
      var record := credentials[key];
      ready := record.kind == "existing" || pushed;
      credentials := credentials[key := record.(status := if ready then Ready else SyncFailed)];
    }

    // -------------------------------------------------------------- jobs

    method Fits(key: Key, connection: Key, environment: Environment) returns (fits: bool)
      ensures fits == CredentialFits(View(), key, connection, environment)
      ensures fits <==>
        || key == ""
        || (key in credentials && credentials[key].connection == connection && credentials[key].environment == environment)
    {
      if key == "" {
        return true;
      }
      if key !in credentials {
        return false;
      }
      return credentials[key].connection == connection && credentials[key].environment == environment;
    }

    /** The checks and defaults of `SaveJob`, up to the save. */
    method FillJob(key: Key, input: Job, deployEnvironment: Environment, valid: bool) returns (row: Option<Job>)
      ensures row == JobRow(View(), key, input, deployEnvironment, valid)
      ensures row.Some? <==>
        && input.connection in connections && connections[input.connection].environment in {Dev, Test, Uat, Prod}
        && input.environment in {Blank, connections[input.connection].environment}
        && (key in jobs ==> jobs[key].environment in {Blank, connections[input.connection].environment})
        && RowIn(View(), key, input, connections[input.connection].environment, valid).Some?
      ensures row.Some? ==> row == RowIn(View(), key, input, connections[input.connection].environment, valid)
    {
      if input.connection !in connections {
        return None;
      }
      var connection := connections[input.connection];
      var environment := input.environment;
      if environment.Blank? && key in jobs {
        environment := jobs[key].environment;
      }
      if environment.Blank? {
        environment := GeneratedEnvironment(connection.environment, deployEnvironment);
      }
      if !Deployable(environment) {
        return None;
      }
      if key in jobs && !jobs[key].environment.Blank? && jobs[key].environment != environment {
        return None;
      }
      if !Bound(connection.environment, environment) {
        return None;
      }
      row := FillRepositories(key, input, environment, connection, valid);
      assert environment == JobEnvironment(View(), key, input, deployEnvironment, connection);
    }

    /** The repositories and credentials of a job whose environment is settled. */
    method FillRepositories(key: Key, input: Job, environment: Environment, connection: Connection, valid: bool)
      returns (row: Option<Job>)
      ensures row == RowIn(View(), key, input, environment, valid)
      ensures row.Some? <==>
        && valid && ResolvedSources(View(), AskedSources(key, input, environment)).Some?
        && (input.generated ==>
              && AskedSources(key, input, environment).repository in {"ops-delivery", "ops-delivery-jenkinsfiles", "ops-delivery-manifests"}
              && AskedSources(key, input, environment).manifests in {"ops-delivery", "ops-delivery-jenkinsfiles", "ops-delivery-manifests"}
              && input.credential != "" && input.manifestCredential != "")
        && (forall c | c in {input.credential, input.manifestCredential} && c != "" ::
              c in credentials && credentials[c].connection == input.connection && credentials[c].environment == environment)
      ensures row.Some? ==> var sources := ResolvedSources(View(), AskedSources(key, input, environment)).value;
        && row.value == input.(environment := environment, jenkinsName := Trim(input.jenkinsName),
             repository := sources.repository, repo := sources.repo, manifestRepository := sources.manifests,
             branch := row.value.branch, path := row.value.path, status := Pending)
        && row.value.branch == (if Trim(sources.branch) != "" then Trim(sources.branch) else "main")
        && row.value.path == (if Trim(sources.path) != "" then Trim(sources.path) else "Jenkinsfile")
    {
      var asked := AskedSources(key, input, environment);
      var resolved := ResolveJobRepositories(asked);
      if resolved.None? {
        return None;
      }
      var sources := resolved.value;
      if input.generated {
        if !DeliveryRepositories(sources) {
          return None;
        }
        if input.credential == "" || input.manifestCredential == "" {
          return None;
        }
      }
      if !valid {
        return None;
      }
      var fits := Fits(input.credential, input.connection, environment);
      if fits {
        fits := Fits(input.manifestCredential, input.connection, environment);
      }
      if !fits {
        return None;
      }
      return Some(Job(environment, input.connection, Trim(input.jenkinsName), input.generated, input.enabled,
                      sources.repository, sources.repo, DefaultText(sources.branch, "main"),
                      DefaultText(sources.path, "Jenkinsfile"), input.credential, sources.manifests,
                      input.manifestCredential, Pending));
    }

    method ResolveJobRepositories(asked: Sources) returns (sources: Option<Sources>)
      ensures sources == ResolvedSources(View(), asked)
      ensures sources.Some? <==>
        && (asked.repository != "" ==>
              && asked.repository in repositories
              && (repositories[asked.repository].purpose in {"jenkinsfile", "general"}
                  || (asked.repository == asked.manifests && repositories[asked.repository].purpose == "manifest")))
        && (asked.manifests != "" ==>
              && asked.manifests in repositories
              && (repositories[asked.manifests].purpose in {"manifest", "general"}
                  || (asked.repository == asked.manifests && repositories[asked.manifests].purpose == "jenkinsfile")))
      ensures sources.Some? && asked.repository == "" ==> sources.value == asked
      ensures sources.Some? && asked.repository != "" ==>
        && sources.value.repository == asked.repository && sources.value.manifests == asked.manifests
        && sources.value.repo == repositories[asked.repository].cloneUrl
        && sources.value.branch == (if Trim(asked.branch) != "" then asked.branch else repositories[asked.repository].defaultBranch)
        && sources.value.path == (if Trim(asked.path) != "" then asked.path else repositories[asked.repository].defaultPath)
    {
      var shared := asked.repository != "" && asked.repository == asked.manifests;
      var found := asked;
      if asked.repository != "" {
        if asked.repository !in repositories || !PurposeFits(repositories[asked.repository], "jenkinsfile", shared) {
          return None;
        }
        var repository := repositories[asked.repository];
        found := found.(repo := repository.cloneUrl);
        if Trim(found.branch) == "" {
          found := found.(branch := repository.defaultBranch);
        }
        if Trim(found.path) == "" {
          found := found.(path := repository.defaultPath);
        }
      }
      if asked.manifests != "" {
        if asked.manifests !in repositories || !PurposeFits(repositories[asked.manifests], "manifest", shared) {
          return None;
        }
      }
      return Some(found);
    }

    method SaveJob(key: Key, input: Job, deployEnvironment: Environment, valid: bool, stored: bool, prepared: bool)
      returns (ok: bool)
      requires Valid()
      modifies this
      ensures Valid()
      ensures View() == SavedJob(old(View()), key, input, deployEnvironment, valid, stored, prepared)
      ensures ok <==> stored && JobRow(old(View()), key, input, deployEnvironment, valid).Some?
      ensures !ok ==> View() == old(View())
      ensures ok && !input.generated ==> View() == old(View()).(jobs :=
        UpsertJob(old(jobs), key, JobRow(old(View()), key, input, deployEnvironment, valid).value))
      ensures ok && input.generated ==>
        var saved := UpsertJob(old(jobs), key, JobRow(old(View()), key, input, deployEnvironment, valid).value);
        View() == old(View()).(jobs :=
          if prepared && key in saved && saved[key].generated
          then saved[key := PreparedRow(old(View()).(jobs := saved), key, saved[key])] else saved)
    {
      ghost var before := View();
      var row := FillJob(key, input, deployEnvironment, valid);
      if row.None? || !stored {
        return false;
      }
      StoreJob(key, row.value, stored);
      ghost var saved := before.(jobs := UpsertJob(before.jobs, key, row.value));
      assert View() == saved;
      UpsertIsIsolated(before, key, row.value, input, deployEnvironment, valid);
      if row.value.generated {
        PrepareGeneratedJobRepositories(key, prepared);
      }
      return true;
    }

    /** Whether a credential is synchronized and belongs to the job's connection and environment. */
    method IsUsable(key: Key, job: Job) returns (usable: bool)
      ensures usable == Usable(View(), key, job)
      ensures usable <==>
        && key in credentials && credentials[key].status == Ready
        && credentials[key].connection == job.connection && credentials[key].environment == job.environment
    {
      if key !in credentials {
        return false;
      }
      var record := credentials[key];
      return record.status == Ready && record.connection == job.connection && record.environment == job.environment;
    }

    /** The repair of records that took the manifests repository for a unified one. */
    method PickPipeline(job: Job) returns (pipeline: Key)
      ensures pipeline == PipelineKey(View(), job)
      ensures pipeline ==
        if Trim(job.repository) == "" then "ops-delivery-jenkinsfiles"
        else if Trim(job.repository) == "ops-delivery-manifests" && Trim(job.manifestRepository) in {"", "ops-delivery-manifests"}
          && "ops-delivery" !in repositories && "ops-delivery-jenkinsfiles" in repositories then "ops-delivery-jenkinsfiles"
        else Trim(job.repository)
    {
      pipeline := DefaultText(job.repository, JENKINSFILES);
      var manifests := DefaultText(job.manifestRepository, MANIFESTS);
      if pipeline == MANIFESTS && manifests == MANIFESTS {
        if UNIFIED !in repositories && JENKINSFILES in repositories {
          pipeline := JENKINSFILES;
        }
      }
    }

    /** The credentials of a generated job; a record that no longer exists gives way to the platform's own. */
    method PickCredentials(job: Job) returns (credential: Key, manifestCredential: Key)
      ensures credential == PipelineCredential(View(), job) && manifestCredential == ManifestCredential(View(), job)
      ensures credential ==
        if Trim(job.credential) in credentials && Trim(job.credential) != "" then Trim(job.credential) else "gitlab-delivery-read"
      ensures manifestCredential ==
        if Trim(job.manifestCredential) == "" then credential
        else if Trim(job.manifestCredential) in credentials then Trim(job.manifestCredential)
        else "gitlab-delivery-read"
    {
      credential := Trim(job.credential);
      if credential == "" {
        credential := DELIVERY_CREDENTIAL;
      }
      manifestCredential := Trim(job.manifestCredential);
      if manifestCredential == "" {
        manifestCredential := credential;
      }
      if credential !in credentials {
        credential := DELIVERY_CREDENTIAL;
      }
      if manifestCredential !in credentials {
        manifestCredential := DELIVERY_CREDENTIAL;
      }
    }

    /** A generated job pinned to its repositories and credentials. */
    method PinJob(key: Key, job: Job) returns (row: Job)
      ensures row == PreparedRow(View(), key, job)
    {
      var pipeline := PickPipeline(job);
      var manifests := DefaultText(job.manifestRepository, MANIFESTS);
      var credential, manifestCredential := PickCredentials(job);
      if pipeline !in repositories || manifests !in repositories {
        return job;
      }
      var usable := IsUsable(credential, job);
      if usable {
        usable := IsUsable(manifestCredential, job);
      }
      if !usable {
        return job;
      }
      var repository := repositories[pipeline];
      return job.(repository := pipeline, repo := repository.cloneUrl,
                  branch := DefaultText(job.branch, DefaultText(repository.defaultBranch, "main")),
                  path := DefaultText(job.path, GeneratedPath(job.environment, key)),
                  credential := credential, manifestRepository := manifests, manifestCredential := manifestCredential,
                  status := Pending);
    }

    method PrepareGeneratedJobRepositories(key: Key, answered: bool)
      requires Valid()
      modifies this`jobs
      ensures Valid() && View() == Prepared(old(View()), key, answered)
      ensures jobs == if key in old(jobs) && old(jobs)[key].generated && answered
        then old(jobs)[key := PreparedRow(old(View()), key, old(jobs)[key])] else old(jobs)
    {
      PreparedKeeps(View(), key, answered);
      if key in jobs && jobs[key].generated {
        var row := PinJob(key, jobs[key]);
        StoreJob(key, row, answered);
      }
    }

    method RecordJobSyncFailure(key: Key, stored: bool)
      requires Valid() && key in jobs
      modifies this`jobs
      ensures Valid() && View() == WithStatus(old(View()), key, old(jobs)[key], SyncFailed, stored)
      ensures jobs == if stored then old(jobs)[key := old(jobs)[key].(status := SyncFailed)] else old(jobs)
    {
      WithStatusKeeps(View(), key, SyncFailed, stored);
      StoreJob(key, jobs[key].(status := SyncFailed), stored);
    }

    /** `SyncJob`: only a job that Jenkins stored as it was sent, and that was read back, becomes ready. */
    method SyncJob(key: Key, prepared: bool, a: SyncAnswers, stored: bool) returns (ready: bool)
      requires Valid()
      modifies this
      ensures Valid()
      ensures View() == SyncedJob(old(View()), key, prepared, a, stored)
      ensures ready <==> SyncMakesReady(old(View()), key, prepared, a)
    {
      SyncedJobKeeps(View(), key, prepared, a, stored);
      if key !in jobs || (jobs[key].generated && !prepared) {
        return false;
      }
      PrepareGeneratedJobRepositories(key, prepared);
      ready := Deploy(key, a, stored);
    }

    /** The rest of `SyncJob`, once the repositories are prepared. */
    method Deploy(key: Key, a: SyncAnswers, stored: bool) returns (ready: bool)
      requires Valid() && key in jobs
      modifies this
      ensures View() == Deployed(old(View()), key, a, stored)
      ensures ready <==> GetsReady(old(View()), old(jobs)[key], a)
    {
      var job := jobs[key];
      var endpoint := ClientForJob(job, job.environment, a.reachable);
      if endpoint.None? {
        StoreJob(key, job.(status := SyncFailed), stored);
        return false;
      }
      var known := CredentialIds(job);
      ready := false;
      if known {
        ready := UpsertRemote(job, RemoteKey(endpoint.value, job.jenkinsName), a);
      }
      StoreJob(key, job.(status := if ready then Ready else SyncFailed), stored);
    }

    /** The Jenkins job is deleted, or was not there. */
    method RemoveRemote(job: Job, reachable: bool, removal: Removal) returns (ok: bool)
      modifies this`accesses, this`remote
      ensures ok <==> EndpointFor(old(View()), job, job.environment).Some? && reachable && !removal.Refused?
      ensures accesses == if reachable then Accessed(old(View()), job, job.environment).accesses else old(accesses)
      ensures remote == if ok
        then old(remote) - {RemoteKey(EndpointFor(old(View()), job, job.environment).value, job.jenkinsName)} else old(remote)
    {
      var endpoint := ClientForJob(job, job.environment, reachable);
      if endpoint.None? || removal.Refused? {
        return false;
      }
      remote := remote - {RemoteKey(endpoint.value, job.jenkinsName)};
      return true;
    }

    method DeleteJob(key: Key, alsoRemote: bool, reachable: bool, removal: Removal, stored: bool) returns (ok: bool)
      requires Valid()
      modifies this
      ensures Valid()
      ensures View() == DeletedJob(old(View()), key, alsoRemote, reachable, removal, stored)
      ensures ok <==>
        && key in old(jobs) && stored && (forall b | b in builds && builds[b].job == key :: !builds[b].active)
        && (alsoRemote ==> old(EndpointFor(View(), jobs[key], jobs[key].environment)).Some? && reachable && !removal.Refused?)
      ensures jobs == if ok then old(jobs) - {key} else old(jobs)
      ensures remote ==
        if alsoRemote && key in old(jobs) && (forall b | b in builds && builds[b].job == key :: !builds[b].active)
          && old(EndpointFor(View(), jobs[key], jobs[key].environment)).Some? && reachable && !removal.Refused?
        then old(remote) - {RemoteKey(connections[old(jobs)[key].connection].endpoint, old(jobs)[key].jenkinsName)}
        else old(remote)
    {
      DeletedJobKeeps(View(), key, alsoRemote, reachable, removal, stored);
      ok := RemoveJob(key, alsoRemote, reachable, removal, stored);
    }

    /** The deletion itself. */
    method RemoveJob(key: Key, alsoRemote: bool, reachable: bool, removal: Removal, stored: bool) returns (ok: bool)
      modifies this`accesses, this`remote, this`jobs
      ensures View() == DeletedJob(old(View()), key, alsoRemote, reachable, removal, stored)
      ensures ok <==>
        && key in old(jobs) && stored && (forall b | b in builds && builds[b].job == key :: !builds[b].active)
        && (alsoRemote ==> old(EndpointFor(View(), jobs[key], jobs[key].environment)).Some? && reachable && !removal.Refused?)
      ensures jobs == if ok then old(jobs) - {key} else old(jobs)
      ensures builds == old(builds) && connections == old(connections)
      ensures remote ==
        if alsoRemote && key in old(jobs) && (forall b | b in builds && builds[b].job == key :: !builds[b].active)
          && old(EndpointFor(View(), jobs[key], jobs[key].environment)).Some? && reachable && !removal.Refused?
        then old(remote) - {RemoteKey(connections[old(jobs)[key].connection].endpoint, old(jobs)[key].jenkinsName)}
        else old(remote)
    {
      if key !in jobs {
        return false;
      }
      var busy := IsBusy(key);
      if busy {
        return false;
      }
      if alsoRemote {
        var removed := RemoveRemote(jobs[key], reachable, removal);
        if !removed {
          return false;
        }
      }
      if !stored {
        return false;
      }
      jobs := jobs - {key};
      return true;
    }

    // -------------------------------------------------------------- builds

    /** The environment checks at the start of `TriggerBuild`. */
    method CheckTrigger(key: Key, requested: Environment) returns (environment: Option<Environment>)
      ensures environment == TriggerEnvironment(View(), key, requested)
      ensures environment.Some? <==>
        && key in jobs && jobs[key].enabled && jobs[key].status == Ready && jobs[key].connection in connections
        && connections[jobs[key].connection].environment == jobs[key].environment
        && jobs[key].environment in {Dev, Test, Uat, Prod} && requested in {Blank, jobs[key].environment}
      ensures environment.Some? ==> environment.value == jobs[key].environment
    {
      if key !in jobs || !jobs[key].enabled || jobs[key].status != Ready {
        return None;
      }
      var job := jobs[key];
      if job.connection !in connections || !Bound(connections[job.connection].environment, job.environment) {
        return None;
      }
      if !requested.Blank? && requested != job.environment {
        return None;
      }
      return Some(job.environment);
    }

    /** `TriggerBuild`: a build is saved only for the one environment that request, job and connection agree on. */
    method TriggerBuild(key: Key, rawEnvironment: string, id: Key, a: TriggerAnswers, stored: bool) returns (saved: bool)
      requires Valid()
      modifies this
      ensures Valid()
      ensures View() == Triggered(old(View()), key, ReadEnvironment(rawEnvironment), id, a, stored)
      ensures !saved ==> builds == old(builds)
      ensures saved <==> stored && GetsQueued(old(View()), key, ReadEnvironment(rawEnvironment), a)
      ensures saved ==>
        && key in jobs && jobs[key].connection in connections && id in builds
        && builds == old(builds)[id := builds[id]] && builds[id].job == key && builds[id].active
        && builds[id].environment == jobs[key].environment == connections[jobs[key].connection].environment
    {
      var requested := ReadEnvironment(rawEnvironment);
      TriggeredKeeps(View(), key, requested, id, a, stored);
      TriggerIsBound(View(), key, requested);
      var environment := CheckTrigger(key, requested);
      if environment.None? || !a.accepted || a.repeated {
        return false;
      }
      saved := RequestBuild(key, environment.value, id, a, stored);
    }

    /** The rest of `TriggerBuild`, once the environment is settled. */
    method RequestBuild(key: Key, environment: Environment, id: Key, a: TriggerAnswers, stored: bool) returns (saved: bool)
      requires key in jobs && Deployable(environment) && EndpointFor(View(), jobs[key], environment).Some?
      modifies this`accesses, this`builds
      ensures View() == Requested(old(View()), key, environment, id, a, stored)
      ensures saved ==> a.queue.Some? && builds == old(builds)[id := Build(key, environment, a.queue.value, true)]
      ensures !saved ==> builds == old(builds)
      ensures saved <==>
        && a.reachable && a.queue.Some? && stored
        && (jobs[key].generated || (CredentialReady(old(View()), jobs[key], jobs[key].credential)
                                    && CredentialReady(old(View()), jobs[key], jobs[key].manifestCredential)))
        && (forall b | b in old(builds) && old(builds)[b].job == key && old(builds)[b].environment == environment
              && old(builds)[b].queue == a.queue.value :: !old(builds)[b].active)
    {
      var job := jobs[key];
      if !a.reachable {
        return false;
      }
      if !job.generated {
        var ready := CredentialIds(job);
        if !ready {
          return false;
        }
      }
      var endpoint := ClientForJob(job, environment, a.reachable);
      if a.queue.None? {
        return false;
      }
      var known := IsCoalesced(key, environment, a.queue.value);
      if known || !stored {
        return false;
      }
      builds := builds[id := Build(key, environment, a.queue.value, true)];
      return true;
    }

    /** Refreshing (`ended` as Jenkins says) or canceling (`ended`) a build. */
    method ObserveBuild(id: Key, reachable: bool, ended: bool, stored: bool)
      requires Valid()
      modifies this
      ensures Valid()
      ensures View() == Observed(old(View()), id, reachable, ended, stored)
      ensures builds ==
        if id in old(builds) && old(builds)[id].job in jobs && stored
          && EndpointFor(old(View()), jobs[old(builds)[id].job], old(builds)[id].environment).Some? && reachable
        then old(builds)[id := old(builds)[id].(active := old(builds)[id].active && !ended)] else old(builds)
      ensures jobs == old(jobs) && remote == old(remote)
    {
      ObservedKeeps(View(), id, reachable, ended, stored);
      if id !in builds || builds[id].job !in jobs {
        return;
      }
      var build, job := builds[id], jobs[builds[id].job];
      var endpoint := ClientForJob(job, build.environment, reachable);
      if endpoint.Some? && stored {
        builds := builds[id := build.(active := build.active && !ended)];
      }
    }
  }

  /** The environment of a request that is let through is that of the job and of its connection. */
  lemma TriggerIsBound(w: World, key: Key, requested: Environment)
    requires Isolated(w)
    ensures var environment := TriggerEnvironment(w, key, requested);
      environment.Some? ==>
        && key in w.jobs && w.jobs[key].connection in w.connections
        && Deployable(environment.value) && EndpointFor(w, w.jobs[key], environment.value).Some?
        && environment.value == w.jobs[key].environment == w.connections[w.jobs[key].connection].environment
  {
    TriggerMeans(w, key, requested);
    assert key in w.jobs ==> JobOk(w, w.jobs[key]);
  }
}
