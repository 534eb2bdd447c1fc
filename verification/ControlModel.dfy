/** The records of one project in internal/cicd/service.go, the MySQL upserts of internal/persistence/cicd.go beneath
    them, and the Jenkins servers they describe, as a state machine. Operations run one after the other; every store
    and Jenkins call may fail. */
module ControlModel {
  import opened Options
  import opened Documents

  /** Identifiers as the service uses them: trimmed and in lower case. */
  type Key = string

  /** An environment name, trimmed and in lower case. */
  datatype Environment = Blank | Dev | Test | Uat | Prod | Other(name: string)

  function ReadEnvironment(raw: string): Environment {
    ByName(Lower(Trim(raw)))
  }

  function ByName(name: string): Environment {
    if name == "" then Blank
    else if name == "dev" then Dev
    else if name == "test" then Test
    else if name == "uat" then Uat
    else if name == "prod" then Prod
    else Other(name)
  }

  function NameOf(environment: Environment): string {
    match environment
    case Blank => ""
    case Dev => "dev"
    case Test => "test"
    case Uat => "uat"
    case Prod => "prod"
    case Other(name) => name
  }

  lemma NameOfByName(name: string)
    ensures NameOf(ByName(name)) == name
  {
  }

  /** What is stored reads back as itself: trimming and lowering twice is trimming and lowering once. */
  lemma StoredNamesReadBack(raw: string)
    ensures ReadEnvironment(NameOf(ReadEnvironment(raw))) == ReadEnvironment(raw)
  {
    var name := Lower(Trim(raw));
    NameOfByName(name);
    LowerSettles(Trim(raw));
    assert Trim(name) == name && Lower(name) == name;
  }

  datatype SyncStatus = Pending | Ready | SyncFailed

  /** `endpoint` is the Jenkins server the connection leads to: its URL, or the service behind its tunnel. */
  datatype Connection = Connection(environment: Environment, endpoint: string, hasToken: bool)

  datatype Credential = Credential(environment: Environment, connection: Key, externalId: string, kind: string,
                                   hasSecret: bool, status: SyncStatus)

  datatype Repository = Repository(purpose: string, cloneUrl: string, defaultBranch: string, defaultPath: string)

  datatype Job = Job(environment: Environment, connection: Key, jenkinsName: string, generated: bool, enabled: bool,
                     repository: Key, repo: string, branch: string, path: string, credential: Key,
                     manifestRepository: Key, manifestCredential: Key, status: SyncStatus)

  datatype Build = Build(job: Key, environment: Environment, queue: string, active: bool)

  /** The settings of a Jenkins job that decide what it runs. */
  datatype RemoteJob = RemoteJob(repo: string, branch: string, path: string, credential: string)

  datatype RemoteKey = RemoteKey(endpoint: string, name: string)

  /** One use of Jenkins on behalf of a job. */
  datatype Access = Access(endpoint: string, connectionEnvironment: Environment, jobEnvironment: Environment, requested: Environment)

  datatype World = World(connections: map<Key, Connection>, credentials: map<Key, Credential>,
                         repositories: map<Key, Repository>, jobs: map<Key, Job>, builds: map<Key, Build>,
                         remote: map<RemoteKey, RemoteJob>, accesses: seq<Access>)

  const Empty := World(map[], map[], map[], map[], map[], map[], [])

  // ---------------------------------------------------------------- environments

  /** `validDeploymentEnvironment` */
  predicate Deployable(environment: Environment) {
    environment in {Dev, Test, Uat, Prod}
  }

  /** `requireEnvironmentBinding`: no error. */
  predicate Bound(actual: Environment, expected: Environment) {
    Deployable(expected) && actual == expected
  }

  function GeneratedEnvironment(connectionEnvironment: Environment, configured: Environment): Environment {
    if Deployable(connectionEnvironment) then connectionEnvironment
    else if Deployable(configured) then configured
    else Dev
  }

  function DefaultText(value: string, fallback: string): string {
    if Trim(value) == "" then fallback else Trim(value)
  }

  // ---------------------------------------------------------------- upserts with a second unique key

  predicate SameExternal(a: Credential, b: Credential) {
    a.connection == b.connection && a.externalId == b.externalId
  }

  predicate SameRemote(a: Job, b: Job) {
    a.connection == b.connection && a.jenkinsName == b.jenkinsName
  }

  /** `INSERT … ON DUPLICATE KEY UPDATE`: a new key whose (connection, external id) is taken updates the row that
      has it; an existing key cannot move onto another row's pair. */
  function UpsertCredential(rows: map<Key, Credential>, key: Key, row: Credential): map<Key, Credential> {
    var taken := set k | k in rows && k != key && SameExternal(rows[k], row);
    if taken == {} then rows[key := row]
    else if key in rows then rows
    else map k | k in rows :: if k in taken then row else rows[k]
  }

  function UpsertJob(rows: map<Key, Job>, key: Key, row: Job): map<Key, Job> {
    var taken := set k | k in rows && k != key && SameRemote(rows[k], row);
    if taken == {} then rows[key := row]
    else if key in rows then rows
    else map k | k in rows :: if k in taken then row else rows[k]
  }

  // ---------------------------------------------------------------- connections

  function SavedConnection(w: World, key: Key, environment: Environment, endpoint: string, complete: bool,
                           token: bool, stored: bool): World {
    var env := environment;
    if !Deployable(env) || !complete || !stored then w
    else if key !in w.connections then
      if token then w.(connections := w.connections[key := Connection(env, endpoint, true)]) else w
    else
      var existing := w.connections[key];
      if !existing.environment.Blank? && existing.environment != env then w
      else if existing.environment.Blank?
              && (exists j | j in w.jobs :: w.jobs[j].connection == key && !w.jobs[j].environment.Blank? && w.jobs[j].environment != env)
      then w
      else if !token && !existing.hasToken then w
      else w.(connections := w.connections[key := Connection(env, endpoint, true)])
  }

  function SavedManagedConnection(w: World, key: Key, environment: Environment, endpoint: string, complete: bool,
                                  stored: bool): World {
    var env := environment;
    if env.Blank? || !complete || !stored then w
    else if key in w.connections && !w.connections[key].environment.Blank? && w.connections[key].environment != env then w
    else w.(connections := w.connections[key := Connection(env, endpoint, true)])
  }

  function DeletedConnection(w: World, key: Key, stored: bool): World {
    if !stored || (exists j | j in w.jobs :: w.jobs[j].connection == key)
       || (exists c | c in w.credentials :: w.credentials[c].connection == key)
    then w
    else w.(connections := w.connections - {key})
  }

  // ---------------------------------------------------------------- credentials

  /** The record `SaveCredential` writes, if it writes one. `secret` says that a complete secret was supplied. */
  function CredentialRow(w: World, key: Key, input: Credential, complete: bool, secret: bool): Option<Credential> {
    var connectionKey := input.connection;
    if connectionKey !in w.connections then None
    else
      var connection := w.connections[connectionKey];
      var env := if input.environment.Blank? then connection.environment else input.environment;
      if !Bound(connection.environment, env) || !complete then None
      else
        var existing := key in w.credentials;
        if existing && !w.credentials[key].environment.Blank? && w.credentials[key].environment != env then None
        else if existing && (w.credentials[key].connection != connectionKey
                             || w.credentials[key].externalId != input.externalId || w.credentials[key].kind != input.kind)
        then None
        else
          var hasSecret := secret || (existing && w.credentials[key].hasSecret);
          var external := input.kind == "existing";
          if !external && !hasSecret then None
          else Some(Credential(env, connectionKey, input.externalId, input.kind, hasSecret && !external,
                               if external then Ready else if existing then w.credentials[key].status else Pending))
  }

  function SavedCredential(w: World, key: Key, input: Credential, complete: bool, secret: bool, stored: bool): World {
    var row := CredentialRow(w, key, input, complete, secret);
    if stored && row.Some? then w.(credentials := UpsertCredential(w.credentials, key, row.value)) else w
  }

  function SyncedCredential(w: World, key: Key, pushed: bool, stored: bool): World {
    if key in w.credentials && stored then
      var ok := w.credentials[key].kind == "existing" || pushed;
      w.(credentials := w.credentials[key := w.credentials[key].(status := if ok then Ready else SyncFailed)])
    else w
  }

  function DeletedCredential(w: World, key: Key, stored: bool): World {
    if !stored || (exists j | j in w.jobs :: w.jobs[j].credential == key || w.jobs[j].manifestCredential == key)
    then w
    else w.(credentials := w.credentials - {key})
  }

  // ---------------------------------------------------------------- jobs

  const JENKINSFILES := "ops-delivery-jenkinsfiles"
  const MANIFESTS := "ops-delivery-manifests"
  const UNIFIED := "ops-delivery"
  const DELIVERY_CREDENTIAL := "gitlab-delivery-read"

  function GeneratedPath(environment: Environment, key: Key): string {
    "environments/" + NameOf(environment) + "/pipelines/" + key + "/Jenkinsfile"
  }

  /** The environment of a job, before it is checked. */
  function JobEnvironment(w: World, key: Key, input: Job, deployEnvironment: Environment, connection: Connection): Environment {
    var kept := if input.environment.Blank? && key in w.jobs then w.jobs[key].environment else input.environment;
    if kept.Blank? then GeneratedEnvironment(connection.environment, deployEnvironment) else kept
  }

  predicate PurposeFits(repository: Repository, purpose: string, shared: bool) {
    || repository.purpose == purpose || repository.purpose == "general"
    || (shared && repository.purpose in {"jenkinsfile", "manifest"})
  }

  /** A referenced repository exists and may be used for this purpose; no reference is fine. */
  predicate RepositoryFits(w: World, key: Key, purpose: string, shared: bool) {
    key == "" || (key in w.repositories && PurposeFits(w.repositories[key], purpose, shared))
  }

  predicate CredentialFits(w: World, key: Key, connection: Key, environment: Environment) {
    key == "" || (key in w.credentials && w.credentials[key].connection == connection
                  && w.credentials[key].environment == environment)
  }

  /** The record `SaveJob` writes, if it writes one. `valid` stands for the checks of fields this model leaves out. */
  function JobRow(w: World, key: Key, input: Job, deployEnvironment: Environment, valid: bool): Option<Job> {
    var connectionKey := input.connection;
    if connectionKey !in w.connections then None
    else
      var connection := w.connections[connectionKey];
      var env := JobEnvironment(w, key, input, deployEnvironment, connection);
      if !Deployable(env) then None
      else if key in w.jobs && !w.jobs[key].environment.Blank? && w.jobs[key].environment != env then None
      else if !Bound(connection.environment, env) then None
      else RowIn(w, key, input, env, valid)
  }

  /** Where the files of a job come from. */
  datatype Sources = Sources(repository: Key, manifests: Key, repo: string, branch: string, path: string)

  /** The sources a job asks for, before its repositories are looked up. */
  function AskedSources(key: Key, input: Job, env: Environment): Sources {
    if input.generated then
      Sources(DefaultText(input.repository, JENKINSFILES), DefaultText(input.manifestRepository, MANIFESTS),
              input.repo, input.branch, DefaultText(input.path, GeneratedPath(env, key)))
    else Sources(input.repository, input.manifestRepository, input.repo, input.branch, input.path)
  }

  /** `resolveJobRepositories` */
  function ResolvedSources(w: World, asked: Sources): Option<Sources> {
    var shared := asked.repository != "" && asked.repository == asked.manifests;
    if !RepositoryFits(w, asked.repository, "jenkinsfile", shared) || !RepositoryFits(w, asked.manifests, "manifest", shared)
    then None
    else if asked.repository == "" then Some(asked)
    else
      var found := w.repositories[asked.repository];
      Some(asked.(repo := found.cloneUrl,
                  branch := if Trim(asked.branch) == "" then found.defaultBranch else asked.branch,
                  path := if Trim(asked.path) == "" then found.defaultPath else asked.path))
  }

  predicate DeliveryRepositories(sources: Sources) {
    sources.repository in {UNIFIED, JENKINSFILES, MANIFESTS} && sources.manifests in {UNIFIED, JENKINSFILES, MANIFESTS}
  }

  /** The record of a job whose environment is settled. */
  function RowIn(w: World, key: Key, input: Job, env: Environment, valid: bool): Option<Job> {
    var resolved := ResolvedSources(w, AskedSources(key, input, env));
    if resolved.None? then None
    else if input.generated && (!DeliveryRepositories(resolved.value) || input.credential == "" || input.manifestCredential == "")
    then None
    else if !valid || !CredentialFits(w, input.credential, input.connection, env)
            || !CredentialFits(w, input.manifestCredential, input.connection, env) then None
    else
      var sources := resolved.value;
      Some(Job(env, input.connection, Trim(input.jenkinsName), input.generated, input.enabled, sources.repository, sources.repo,
               DefaultText(sources.branch, "main"), DefaultText(sources.path, "Jenkinsfile"),
               input.credential, sources.manifests, input.manifestCredential, Pending))
  }

  function OrDelivery(w: World, key: Key): Key {
    if key !in w.credentials then DELIVERY_CREDENTIAL else key
  }

  /** The repository that `PrepareGeneratedJobRepositories` uses for the Jenkinsfile, after its repair. */
  function PipelineKey(w: World, job: Job): Key {
    var pipeline, manifests := DefaultText(job.repository, JENKINSFILES), DefaultText(job.manifestRepository, MANIFESTS);
    if pipeline == MANIFESTS && manifests == MANIFESTS && UNIFIED !in w.repositories && JENKINSFILES in w.repositories
    then JENKINSFILES else pipeline
  }

  predicate Usable(w: World, key: Key, job: Job) {
    && key in w.credentials && w.credentials[key].status == Ready
    && w.credentials[key].connection == job.connection && w.credentials[key].environment == job.environment
  }

  function FirstCredential(job: Job): Key {
    if Trim(job.credential) == "" then DELIVERY_CREDENTIAL else Trim(job.credential)
  }

  /** The credentials of a generated job; one whose record is gone gives way to the platform's own. */
  function PipelineCredential(w: World, job: Job): Key {
    OrDelivery(w, FirstCredential(job))
  }

  function ManifestCredential(w: World, job: Job): Key {
    OrDelivery(w, if Trim(job.manifestCredential) == "" then FirstCredential(job) else Trim(job.manifestCredential))
  }

  /** The generated job as it is pinned to repositories and credentials; unchanged when something is missing. */
  function PreparedRow(w: World, key: Key, job: Job): Job {
    var pipeline, manifests := PipelineKey(w, job), DefaultText(job.manifestRepository, MANIFESTS);
    var credential, manifestCredential := PipelineCredential(w, job), ManifestCredential(w, job);
    if pipeline !in w.repositories || manifests !in w.repositories
       || !Usable(w, credential, job) || !Usable(w, manifestCredential, job)
    then job
    else
      var repository := w.repositories[pipeline];
      job.(repository := pipeline, repo := repository.cloneUrl,
           branch := DefaultText(job.branch, DefaultText(repository.defaultBranch, "main")),
           path := DefaultText(job.path, GeneratedPath(job.environment, key)),
           credential := credential, manifestRepository := manifests, manifestCredential := manifestCredential,
           status := Pending)
  }

  /** `PrepareGeneratedJobRepositories`; a lookup that fails for another reason than absence, or a failed save, leaves
      the row as it was. */
  function Prepared(w: World, key: Key, answered: bool): (prepared: World)
    ensures prepared.jobs.Keys >= w.jobs.Keys
  {
    if key in w.jobs && w.jobs[key].generated && answered
    then w.(jobs := UpsertJob(w.jobs, key, PreparedRow(w, key, w.jobs[key])))
    else w
  }

  function SavedJob(w: World, key: Key, input: Job, deployEnvironment: Environment, valid: bool, stored: bool, prepared: bool): World {
    var row := JobRow(w, key, input, deployEnvironment, valid);
    if !stored || row.None? then w
    else
      var saved := w.(jobs := UpsertJob(w.jobs, key, row.value));
      if row.value.generated then Prepared(saved, key, prepared) else saved
  }

  // ---------------------------------------------------------------- Jenkins

  /** `clientForJob`: the endpoint, if this job may use it for the requested environment. */
  function EndpointFor(w: World, job: Job, requested: Environment): Option<string> {
    if !requested.Blank? && job.environment != requested then None
    else if job.connection !in w.connections then None
    else if !Bound(w.connections[job.connection].environment, job.environment) then None
    else Some(w.connections[job.connection].endpoint)
  }

  function Accessed(w: World, job: Job, requested: Environment): World {
    var endpoint := EndpointFor(w, job, requested);
    if endpoint.None? then w
    else w.(accesses := w.accesses + [Access(endpoint.value, w.connections[job.connection].environment, job.environment, requested)])
  }

  predicate CredentialReady(w: World, job: Job, key: Key) {
    key == "" || (key in w.credentials
      && (w.credentials[key].kind == "existing" || w.credentials[key].status == Ready)
      && w.credentials[key].connection == job.connection && w.credentials[key].environment == job.environment)
  }

  function ExternalId(w: World, key: Key): string {
    if key != "" && key in w.credentials then w.credentials[key].externalId else ""
  }

  predicate SameText(a: string, b: string) { Trim(a) == Trim(b) }

  /** What `verifyPipelineJob` accepts: every setting the job has is the remote one. */
  predicate Agrees(job: Job, externalId: string, remote: RemoteJob) {
    && (job.repo != "" ==> SameText(remote.repo, job.repo))
    && (job.path != "" ==> SameText(remote.path, job.path))
    && (externalId != "" ==> SameText(remote.credential, externalId))
    && (job.branch != "" ==> SameText(remote.branch, "*/" + job.branch) || SameText(remote.branch, job.branch))
  }

  /** Answers of Jenkins to a job synchronization: what it stored if it stored anything, whether it confirmed that,
      and whether it could be read back. */
  datatype SyncAnswers = SyncAnswers(reachable: bool, posted: Option<RemoteJob>, confirmed: bool, readBack: bool)

  function Posted(w: World, at: RemoteKey, a: SyncAnswers): World {
    if a.posted.Some? then w.(remote := w.remote[at := a.posted.value]) else w
  }

  /** Whether `upsertJob` returns without error. */
  predicate Verified(w: World, job: Job, at: RemoteKey, a: SyncAnswers) {
    a.confirmed && a.readBack && at in w.remote && Agrees(job, ExternalId(w, job.credential), w.remote[at])
  }

  function WithStatus(w: World, key: Key, job: Job, status: SyncStatus, stored: bool): World {
    if stored then w.(jobs := UpsertJob(w.jobs, key, job.(status := status))) else w
  }

  function SyncedJob(w: World, key: Key, prepared: bool, a: SyncAnswers, stored: bool): World {
    if key !in w.jobs || (w.jobs[key].generated && !prepared) then w
    else Deployed(Prepared(w, key, prepared), key, a, stored)
  }

  /** The rest of `SyncJob`, once the repositories are prepared. */
  function Deployed(w: World, key: Key, a: SyncAnswers, stored: bool): World
    requires key in w.jobs
  {
    var job := w.jobs[key];
    var endpoint := EndpointFor(w, job, job.environment);
    if endpoint.None? || !a.reachable then WithStatus(w, key, job, SyncFailed, stored)
    else if !CredentialReady(w, job, job.credential) || !CredentialReady(w, job, job.manifestCredential) then
      WithStatus(Accessed(w, job, job.environment), key, job, SyncFailed, stored)
    else
      var at := RemoteKey(endpoint.value, job.jenkinsName);
      var posted := Posted(Accessed(w, job, job.environment), at, a);
      WithStatus(posted, key, job, if Verified(posted, job, at, a) then Ready else SyncFailed, stored)
  }

  /** Jenkins answers to a deletion; a refused or lost deletion keeps the remote job. */
  datatype Removal = Removed | Missing | Refused

  predicate HasActiveBuild(w: World, key: Key) {
    exists b | b in w.builds :: w.builds[b].job == key && w.builds[b].active
  }

  function DeletedJob(w: World, key: Key, alsoRemote: bool, reachable: bool, removal: Removal, stored: bool): World {
    if key !in w.jobs || HasActiveBuild(w, key) then w
    else
      var job := w.jobs[key];
      var endpoint := EndpointFor(w, job, job.environment);
      if alsoRemote && (endpoint.None? || !reachable) then w
      else
        var used := if alsoRemote then Accessed(w, job, job.environment) else w;
        if alsoRemote && removal.Refused? then used
        else
          var gone := if alsoRemote then used.(remote := used.remote - {RemoteKey(endpoint.value, job.jenkinsName)}) else used;
          if stored then gone.(jobs := gone.jobs - {key}) else gone
  }

  // ---------------------------------------------------------------- builds

  /** The environment a build request ends up with, if `TriggerBuild` lets it reach Jenkins. */
  function TriggerEnvironment(w: World, key: Key, requested: Environment): Option<Environment> {
    if key !in w.jobs || !w.jobs[key].enabled || w.jobs[key].status != Ready then None
    else
      var job := w.jobs[key];
      if job.connection !in w.connections || !Bound(w.connections[job.connection].environment, job.environment) then None
      else if !requested.Blank? && requested != job.environment then None
      else Some(job.environment)
  }

  /** Answers to a build request: `accepted` for the checks of services and parameters, `queue` for Jenkins. */
  datatype TriggerAnswers = TriggerAnswers(accepted: bool, repeated: bool, reachable: bool, queue: Option<string>)

  predicate Coalesced(w: World, key: Key, environment: Environment, queue: string) {
    exists b | b in w.builds :: w.builds[b] == Build(key, environment, queue, true)
  }

  function Triggered(w: World, key: Key, requested: Environment, id: Key, a: TriggerAnswers, stored: bool): World {
    var environment := TriggerEnvironment(w, key, requested);
    if environment.None? || !a.accepted || a.repeated then w
    else Requested(w, key, environment.value, id, a, stored)
  }

  /** The rest of `TriggerBuild`, once the environment is settled. */
  function Requested(w: World, key: Key, environment: Environment, id: Key, a: TriggerAnswers, stored: bool): World
    requires key in w.jobs
  {
    var job := w.jobs[key];
    if !a.reachable then w
    else if !job.generated && (!CredentialReady(w, job, job.credential) || !CredentialReady(w, job, job.manifestCredential)) then w
    else
      var used := Accessed(w, job, environment);
      if a.queue.None? || Coalesced(w, key, environment, a.queue.value) || !stored then used
      else used.(builds := used.builds[id := Build(key, environment, a.queue.value, true)])
  }

  /** Refreshing and canceling look at Jenkins for the environment the build was made for. */
  function Observed(w: World, id: Key, reachable: bool, ended: bool, stored: bool): World {
    if id !in w.builds || w.builds[id].job !in w.jobs then w
    else
      var build, job := w.builds[id], w.jobs[w.builds[id].job];
      if EndpointFor(w, job, build.environment).None? || !reachable then w
      else
        var used := Accessed(w, job, build.environment);
        if stored then used.(builds := used.builds[id := build.(active := build.active && !ended)]) else used
  }

  // ---------------------------------------------------------------- one operation

  datatype Step =
    | SaveConnection(key: Key, environment: Environment, endpoint: string, complete: bool, token: bool, stored: bool)
    | SaveManagedConnection(key: Key, environment: Environment, endpoint: string, complete: bool, stored: bool)
    | DeleteConnection(key: Key, stored: bool)
    | SaveCredential(key: Key, input: Credential, complete: bool, secret: bool, stored: bool)
    | SyncCredential(key: Key, pushed: bool, stored: bool)
    | DeleteCredential(key: Key, stored: bool)
    | SaveRepository(key: Key, repository: Repository)
    | DeleteRepository(key: Key)
    | SaveJob(key: Key, job: Job, deployEnvironment: Environment, valid: bool, stored: bool, prepared: bool)
    | PrepareJob(key: Key, prepared: bool)
    | SyncJob(key: Key, prepared: bool, answers: SyncAnswers, stored: bool)
    | RecordSyncFailure(key: Key, stored: bool)
    | DeleteJob(key: Key, alsoRemote: bool, reachable: bool, removal: Removal, stored: bool)
    | TriggerBuild(key: Key, environment: Environment, id: Key, trigger: TriggerAnswers, stored: bool)
    | ObserveBuild(id: Key, reachable: bool, ended: bool, stored: bool)

  function DeletedRepository(w: World, key: Key): World {
    if exists j | j in w.jobs :: w.jobs[j].repository == key || w.jobs[j].manifestRepository == key then w
    else w.(repositories := w.repositories - {key})
  }

  function Apply(w: World, s: Step): (after: World) {
    match s
    case SaveConnection(key, environment, endpoint, complete, token, stored) =>
      SavedConnection(w, key, environment, endpoint, complete, token, stored)
    case SaveManagedConnection(key, environment, endpoint, complete, stored) =>
      SavedManagedConnection(w, key, environment, endpoint, complete, stored)
    case DeleteConnection(key, stored) => DeletedConnection(w, key, stored)
    case SaveCredential(key, input, complete, secret, stored) => SavedCredential(w, key, input, complete, secret, stored)
    case SyncCredential(key, pushed, stored) => SyncedCredential(w, key, pushed, stored)
    case DeleteCredential(key, stored) => DeletedCredential(w, key, stored)
    case SaveRepository(key, repository) => w.(repositories := w.repositories[key := repository])
    case DeleteRepository(key) => DeletedRepository(w, key)
    case SaveJob(key, job, deployEnvironment, valid, stored, prepared) =>
      SavedJob(w, key, job, deployEnvironment, valid, stored, prepared)
    case PrepareJob(key, prepared) => Prepared(w, key, prepared)
    case SyncJob(key, prepared, answers, stored) => SyncedJob(w, key, prepared, answers, stored)
    case RecordSyncFailure(key, stored) =>
      if key in w.jobs then WithStatus(w, key, w.jobs[key], SyncFailed, stored) else w
    case DeleteJob(key, alsoRemote, reachable, removal, stored) => DeletedJob(w, key, alsoRemote, reachable, removal, stored)
    case TriggerBuild(key, environment, id, trigger, stored) => Triggered(w, key, environment, id, trigger, stored)
    case ObserveBuild(id, reachable, ended, stored) => Observed(w, id, reachable, ended, stored)
  }

  function After(w: World, steps: seq<Step>): (after: World)
    decreases |steps|
  {
    if steps == [] then w else After(Apply(w, steps[0]), steps[1..])
  }
}
