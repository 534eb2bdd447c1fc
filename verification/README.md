# Models of the deployment platform

These Dafny modules model the parts of the platform whose correctness depends on long histories, on the order of
concurrent steps, or on text that has to survive a round trip, and prove properties of those models. `dafny verify
dfyconfig.toml` checks all of them.

The code that changes state step by step is imperative here too: a class with the same fields, methods with loops, an
array that is sorted in place. Each such method is proved equal to one step of a small specification, and the lemmas
speak about all runs of that specification. Remote calls, clocks and random values are parameters, so a theorem about
all parameters is a theorem about every way a call can end.

## Components

**Sessions and lockout** (`SessionModel`, `SessionPruning`, `Lockout`, `AuthService`). The critical sections of the
session store as events that interleave freely, with `Authenticate` split in two.

**Token rotation** (`RotationModel`, `RotationLimits`, `FixedPrimary`, `TokenNames`, `CredentialSync`). GitLab's live
tokens, the secrets kept at each place of the store and of Jenkins, and the primary root groups as state; every remote
call a step that may fail or lose its answer.

**Control plane** (`ControlModel`, `ControlExact`, `ControlSafety`, `ControlReady`, `ControlPlane`). Connections,
credentials, repositories, jobs and builds over a store whose upserts have a second unique key, beside the Jenkins jobs
they describe.

**Builds and logs** (`Stages`, `MarkerFold`, `BuildProgress`, `JenkinsLog`, `JenkinsTokens`, `JenkinsPolls`,
`GroovyLiteral`). The life of a build, the percentage it shows, the log scanner, what it shows across polls, and the
literal printer.

**Commits** (`ReconcilingCommit`, `DeliveryFiles`). Compare, commit, read back; and the file lists that are committed.

**Environment documents** (`Cidr`, `Network`, `Region`, `MergeMissing`, `Defaults`, `DefaultsUpgrade`, `DefaultsExact`,
`Scheduling`, `NewScheduling`, `DomainRoutes`, `JavaHeap`, `HeapRepair`). Decoded JSON trees and the
operations that rewrite them.

`Options`, `Documents`, `Texts`, `Decimals` and `Ordering` hold what they share.

## Where the code does less than one would expect

Each point is a lemma with the exact condition, or with a run that shows it.

- A commit of `Authenticate` that was prepared before `RefreshCurrentSession` undoes the refresh
  (`RefreshSurvivesExactly`, `RefreshCanBeLost`).
- The lockout allows up to 2 * max - 2 failures in an interval shorter than window and lockout, one less than a first
  guess and more than a sliding window would (`LockoutBound`, `LockoutBoundIsReached`).
- A rotation deletes every older token of its name, wherever it is used. It is safe exactly if no other place holds one
  (`RotationIsSafeExactly`). Another place does after the primary root group of a project has changed
  (`MovedPrimaryIsUnsafe`, `ChangedPrimaryRevokes`), and when names collide because of dashes or of the length limit
  (`SharedNamesAreUnsafe`, `SourceNamesCollideExactly`).
- Token rotation is also unsafe if a save is stored but reported as failed, or if one slot is rotated twice at a time
  (`UnconfirmedSaveIsUnsafe`, `ConcurrentRotationsAreUnsafe`).
- "Ready" stops meaning "deployed" in exactly four situations (`ReadyIsKeptExactly`), one of them with every call
  successful: two connections to one server with a job of the same name (`SharedServerBreaksReady`,
  `SharedServerIsReachable`).
- Saving a new secret for a ready credential leaves it ready although Jenkins has the old one (`NewSecretStaysReady`).
- The percentage of a running build falls from above 95 to 95 when its last stage passes; that takes at least 17 stages
  (`ShownFallsOnlyAtTheEnd`, `SeventeenStagesFall`).
- A build canceled in the queue is refreshed when its log is read and can come back as running
  (`EndedIsFinalExactly`).
- The comment on the log overlap promises that no poll exposes a note. Whether every continuation of a log is shown
  exactly can be told from what was read, and the exact condition fails for notes longer than the overlap
  (`EveryContinuationIsExact`, `LongNoteLeaks`) and for control sequences that end in ESC [ (`OpeningAtEndLeaks`); one
  given poll is exact exactly if nothing of the cut token shows (`PollIsExactExactly`).
- A cut inside the literal prefix of a note shows part of it (`CutIsExact`), and text behind the payload limit of a poll
  is skipped (`CappedPollDropsTail`, `CappedPollExactly`).
- A list with two contents for one path can be committed with success (`TwoContentsCanSucceed`).
- `NormalizeDomainRoutes` replaces an empty routes list, which serves nothing, by the legacy route
  (`RoutesStayExactly`).
- `ConfigureNewEnvironmentScheduling` can leave a new environment without a platform group (`PlatformRoleExactly`,
  `LonePlatformGroupIsLost`).
- The heap repair can write options the validator refuses for their length (`RepairMeetsValidatorExactly`,
  `RepairCanBeRefused`).

## Model

| member | source | states |
|---|---|---|
| SessionModel.StepKeepsInv | internal/auth/service.go:163-257 | Every critical section, in any interleaving, keeps both session limits and the link between issued tokens, sessions and lookups in progress; nothing a step must not touch changes. |
| SessionModel.SessionBounds | internal/auth/service.go:163-168 | In every reachable state each user has at most 20 sessions and all users together at most 10000. |
| SessionModel.NoResurrection | internal/auth/service.go:178-226 | A token that was issued and is gone never comes back, although `Authenticate` drops the lock between its lookup and its commit. |
| SessionModel.IdentityIsFixed | internal/auth/service.go:213-223 | While a token exists its user name, CSRF token and expiry never change. |
| SessionModel.ExpiredLookupIsFinal | internal/auth/service.go:186-191 | A session found expired is gone from that moment on. |
| SessionModel.RefreshSurvivesExactly | internal/auth/service.go:219-257 | In every continuation of a run in which nobody refreshes the session again the stamp of `RefreshCurrentSession` stays, exactly if no request between the two critical sections of `Authenticate` held a copy with another stamp at the refresh. |
| SessionModel.RefreshCanBeLost | internal/auth/service.go:219-257 | A run of four critical sections in which a commit prepared before `RefreshCurrentSession` undoes it: the session is outdated again. |
| SessionModel.RightsHaveASource | internal/auth/service.go:108-257 | Every session has the name, the administrator flag and the permissions that one user record gives: the one its login, or a later commit or refresh under its token, carried. |
| SessionModel.NobodyBecomesAdmin | internal/auth/service.go:108-257 | In every interleaving: while no user record of a name that logins, commits and refreshes carry is an administrator's, no session of that name is one. |
| AuthService.OldestOfUser | internal/auth/service.go:317-328 | The scan finds a session of the user that expires no later than any other of that user, in whatever order the map is walked. |
| AuthService.OldestOfAll | internal/auth/service.go:338-344 | The scan finds a session that expires no later than any other. |
| AuthService.Service.LimitUserSessionsLocked | internal/auth/service.go:315-334 | The eviction loop ends with room for one more session of the user; it evicts only sessions of that user that expire no later than every survivor of that user. |
| AuthService.Service.LimitTotalSessionsLocked | internal/auth/service.go:336-347 | The same for all sessions together. |
| AuthService.Service.PruneLocked | internal/auth/service.go:406-417 | Exactly the expired sessions and the attempt rows that no longer matter are removed. |
| AuthService.Service.InsertLocked | internal/auth/service.go:163-168 | Prune, two evictions and the insertion are one insertion with room as the session model has it. |
| AuthService.Service.RecordFailure | internal/auth/service.go:391-404 | The attempt row becomes the one the lockout model describes: a new window behind the old one or without one, one more failure, and a block from the last allowed failure on. |
| AuthService.Service.Login | internal/auth/service.go:108-176 | Exactly a request that gets a verification slot, keeps the length limits, names an active user with the right password and draws both tokens logs in. Name, display name, administrator flag and permissions of the session are those of the user, full permissions exactly for an administrator; the stored session is the answer. It prunes sessions and attempts and inserts with room. Every other request changes nothing, and each refusal has its cause. |
| AuthService.Service.BeginAuthenticate | internal/auth/service.go:178-192 | The first critical section of `Authenticate` is the lookup event of the session model. |
| AuthService.Service.FinishAuthenticate | internal/auth/service.go:198-234 | The second critical section is the commit or the removal of the session model: a granted session is the stored one with the display name, administrator flag and permissions of the user found, and the rest as it was. |
| AuthService.Service.RefreshCurrentSession | internal/auth/service.go:236-257 | Refreshing is the refresh event of the session model: flag and permissions become those of the user, the stamp that of the record, and the stored session is the answer. |
| AuthService.Service.Logout | internal/auth/service.go:377-389 | Logging out removes the one session named by the cookie. |
| AuthService.Service.ReauthenticateRequest | internal/auth/service.go:267-293 | A blocked key, and a fifth request at a time, is refused without a password check; otherwise exactly the right password of an active user is accepted and the attempts change as the lockout model says. |
| SessionPruning.PruningIsInvisible | internal/auth/service.go:186-191 | For a clock that never steps back, every run of a service that never prunes is matched by a run of the real one, and every run of the real one by a run of a service that never prunes: same events, same live sessions, same verdict for every token at every event. |
| SessionPruning.EvictionIgnoresExpired | internal/auth/service.go:315-347 | What an eviction does to the live sessions does not depend on expired ones that are still in the map. |
| SessionPruning.ExtendCut | internal/auth/service.go:315-347 | And every eviction among the live sessions is what some eviction among all sessions does to them. |
| Lockout.PruningIsInvisible | internal/auth/service.go:267-293 | For a clock that never steps back, all verdicts on all request sequences are the same whether attempt rows are pruned or not. |
| Lockout.PruningShowsWhenTheClockStepsBack | internal/auth/service.go:406-417 | With a clock that steps back pruning can be seen. |
| Lockout.LockoutBound | internal/auth/service.go:391-404 | In any interval no longer than the window and shorter than the lockout, a key records at most max(1, 2 * max - 2) failures without a success, after any history. |
| Lockout.LockoutBoundIsReached | internal/auth/service.go:391-404 | That bound is reached, so it is the best one; it also shows that a limit of max failures per sliding window does not hold. |
| Lockout.BlockHolds | internal/auth/service.go:270-276 | Until a block ends every request for its key is refused, records nothing and changes nothing. |
| Lockout.FailureBlocksExactly | internal/auth/service.go:391-404 | A failure blocks its key exactly if it is the last one its window allows, and for exactly the lockout; a success starts the count again. |
| Lockout.OthersAreOnlyForgotten | internal/auth/service.go:406-417 | A request changes no row of another key; after a failure the real service forgets exactly the rows whose block has ended and whose window is out of reach, and one without pruning forgets none. |
| Lockout.FailuresWithinBudget | internal/auth/service.go:391-404 | The failures still possible in an interval are bounded by what the current row leaves. |
| RotationModel.RotationIsSafe | internal/gitlab/source_repository.go:261-375 | In every run of rotations, synchronizations, discards, deletions and changes of the primary root group, with any call failing anywhere, no secret that Jenkins or the store holds has been revoked by the platform, if no rotation starts while another place holds a token of its name; for one operation per place and name at a time and an all-or-nothing save. |
| RotationLimits.RotationIsSafeExactly | internal/gitlab/source_repository.go:261-375 | In a state that rotations kept in order, every way to go on after the start of a rotation is safe exactly if no other place holds a token of its name and no push of one is on its way there. |
| RotationLimits.MovedPrimaryIsUnsafe | internal/gitlab/source_repository.go:262-304 | After a change of the primary root group the next rotation of the former one deletes the token that the old record and the old Jenkins entry still hold, although every call succeeds and nothing runs at the same time. |
| TokenNames.ChangedPrimaryRevokes | internal/gitlab/service.go:273-297 | The same for the names and places the platform really uses: it happens whenever the primary root group becomes another one. |
| TokenNames.SecretMovesExactly | internal/gitlab/source_repository.go:385-424 | The Jenkins identifier of a source credential changes exactly if its root group becomes, or ceases to be, the primary one. |
| FixedPrimary.FixedPrimaryIsSafe | internal/gitlab/source_repository.go:261-375 | While no primary root group changes, distinct token names, distinct places, one operation per slot at a time and an all-or-nothing save are enough for safety in every run. |
| TokenNames.PlatformIsSafe | internal/gitlab/source_repository.go:261-375 | With the names, keys and identifiers of the platform, in one project whose primary root group stays: every run with one operation per slot at a time and all-or-nothing saves is safe, if the digests of its root groups differ as far as they are left in the names. |
| RotationModel.RevokesOnlyReplaced | internal/gitlab/source_repository.go:343-373 | A step of such a run only revokes a token that neither Jenkins nor the store uses at any place: the new token of a failed rotation, or an old one after the new one was pushed. |
| RotationModel.StepKeepsInv | internal/gitlab/source_repository.go:508-586 | Every remote call, and every change of the primary root group, keeps the invariant behind rotation safety. |
| RotationLimits.UnconfirmedSaveIsUnsafe | internal/cicd/service.go:386-392 | Why the save must be all-or-nothing: a record that was stored although the save reported an error keeps a token that is then revoked, and a later synchronization pushes it. |
| RotationLimits.ConcurrentRotationsAreUnsafe | internal/gitlab/source_repository.go:303-373 | Why one operation per slot is needed: two rotations of one slot can leave Jenkins with a revoked token. |
| RotationLimits.SharedNamesAreUnsafe | internal/gitlab/source_repository.go:301-304 | Two slots at different places that share a token name revoke each other's tokens. |
| TokenNames.DashesCollide | internal/gitlab/source_repository.go:301-302 | Names are not always distinct: a dash can belong to the project or to the connection. |
| TokenNames.SourceNamesCollideExactly | internal/gitlab/source_repository.go:301-302 | For all projects, connections and digests of allowed lengths, of one project or of two: two source token names are equal exactly if project and connection join to the same text and the digest characters the 128-character limit leaves (all eight up to 107 characters of keys, one less for each more) agree. |
| TokenNames.OneProjectCollidesExactly | internal/gitlab/source_repository.go:301-302 | Within one project source names are equal exactly if the connections and the remaining digest characters are, and delivery names exactly if the connections are. |
| TokenNames.DeliveryNamesCollideExactly | internal/gitlab/source_repository.go:550 | Delivery token names are equal exactly if project and connection join to the same text. |
| TokenNames.SourceIsNotDelivery | internal/gitlab/source_repository.go:301-302 | A source token and a delivery token never have the same name. |
| TokenNames.NamesAre | internal/gitlab/source_repository.go:301-302 | The names of source and delivery tokens as texts, cut after 128 characters. |
| TokenNames.DigestsDifferExactly | internal/gitlab/source_repository.go:301-302 | The condition on the digests of two root groups in `PlatformIsSafe` is exactly that the names of their tokens differ. |
| TokenNames.DeliveryPlacesAre | internal/gitlab/source_repository.go:406-417 | A delivery credential is kept under connection and environment in the store, and under project and environment in Jenkins. |
| TokenNames.PlacesAre | internal/gitlab/source_repository.go:385-432 | Root groups are compared without outer slashes and without case; the primary one has the plain Jenkins identifier and record key, every other one its digest behind them, and keys of more than 63 characters are shortened by a digest. |
| CredentialSync.Synchronizer.SyncSourceRoot | internal/gitlab/source_repository.go:261-375 | Exactly when a foreign record is found it is a conflict and nothing changes. A credential that works and is no compatibility record is pushed again and no token is touched. Otherwise a new token is asked for, and with one it succeeds exactly if check, save and push do; store and Jenkins then hold it, and only older tokens of its name are gone. Without one a credential that works is pushed again; a refusal for lack of scope, with every selected repository readable and the save complete, puts the platform's own token in its place; any other refusal, or a repository that cannot be read, fails and changes neither store nor Jenkins. |
| CredentialSync.Synchronizer.FallBack | internal/gitlab/source_repository.go:312-341 | The platform's own token is stored exactly if the refusal was for lack of scope, every selected repository was readable and the save succeeded, and pushed exactly if the push was accepted too. |
| CredentialSync.Synchronizer.SyncDelivery | internal/gitlab/source_repository.go:508-586 | The same for `SyncDeliveryCredential`, without a fallback: without a new token it fails and changes neither store nor Jenkins. |
| CredentialSync.Synchronizer.InstallToken | internal/gitlab/source_repository.go:343-374 | Check, save, push, clear: a failure before the save is complete gives the new token back, a failure after it revokes nothing. |
| CredentialSync.Synchronizer.Rotate | internal/gitlab/source_repository.go:301-374 | List, create, install: the exact tokens, records and secrets afterwards, for every way the calls can end, and success exactly if list, check, save and push succeed. |
| CredentialSync.Synchronizer.ClearOlder | internal/gitlab/source_repository.go:369-373 | The loop deletes exactly the old tokens GitLab agrees to delete. |
| CredentialSync.Synchronizer.Resync | internal/cicd/service.go:429-467 | A synchronization pushes what is stored, exactly if Jenkins takes it and its result can be stored, and never touches a token. |
| CredentialSync.Synchronizer.GuardedIsSafe | internal/gitlab/source_repository.go:261-375 | Whatever calls a synchronizer made and however they ended, no revoked token is in use, if each rotation started while no other place held a token of its name. |
| ControlModel.StoredNamesReadBack | internal/cicd/service.go:1485-1487 | An environment name that was trimmed and lowered reads back as itself, so comparing stored names is comparing environments. |
| ControlExact.NamesAreRead | internal/cicd/service.go:1476-1487 | Case and surrounding blanks of an environment name do not matter, and dev, test, uat and prod are the four that are deployed to. |
| ControlExact.UpsertCredentialExactly | internal/persistence/cicd.go:135-143 | An upsert writes exactly one row: its own, or, for a new key, the one that has the pair of connection and external id; it writes none if the key exists and another row has the pair. |
| ControlExact.UpsertJobExactly | internal/persistence/cicd.go:281-303 | The same for jobs and their pair of connection and Jenkins name. |
| ControlExact.DeletionsAreExact | internal/persistence/cicd.go:77-215 | Connections, credentials and repositories are deleted exactly if no record refers to them. |
| ControlExact.PreparedRowExactly | internal/cicd/service.go:749-826 | A generated job is pinned exactly if both repositories are stored and both credentials are synchronized and its own; branch and path are its own, else the default branch or main, and the generated path; everything else stays. |
| ControlExact.SyncedExactly | internal/cicd/service.go:917-947 | A stored synchronization makes a job ready exactly if its preparation, the environment, both credentials, the post and the read-back are good, and records a failure otherwise; a preparation that fails changes nothing, and no other job changes. |
| ControlExact.DeployedElsewhere | internal/cicd/service.go:917-947 | Beside the record a synchronization changes exactly one Jenkins job, that of its name on the server of its connection, if it is let through, both credentials are synchronized and Jenkins stores it; otherwise none. |
| ControlExact.UsesAreRecorded | internal/cicd/service.go:1284-1298 | Which uses of Jenkins each operation makes and for which environment; every operation records exactly those. |
| ControlExact.TriggeredExactly | internal/cicd/service.go:982-1089 | Exactly one build is saved, queued, with the environment of its job, if the job is ready, the request is for its environment, Jenkins queues it and no active record of the queue item exists; otherwise none. |
| ControlExact.ReadySecretsWerePushed | internal/cicd/service.go:429-467 | After every run: a credential that is ready and was not put into Jenkins by hand was pushed there by its last stored synchronization. |
| ControlExact.NewSecretStaysReady | internal/cicd/service.go:363-394 | Saving a new secret for a ready credential leaves it ready, although Jenkins still has the old one. |
| ControlSafety.StepKeepsIsolation | internal/cicd/service.go:137-1319 | Every operation of the control plane, however its calls end, keeps the environments apart and moves no record to another environment. |
| ControlSafety.IsolationHolds | internal/cicd/service.go:1284-1319 | After any run from an empty store: each credential and job lives in the environment of its connection, the credentials of a job live in its environment and on its connection, and every use of Jenkins was for one environment that connection, job and request agree on. |
| ControlSafety.EnvironmentsNeverChange | internal/cicd/service.go:137-203 | No operation changes the environment of a connection, credential or job in a reachable store. |
| ControlSafety.BuildsAreIsolated | internal/cicd/service.go:982-1089 | Every build `TriggerBuild` saves has the environment of its job and of its connection, also after repository repair and credential fallback. |
| ControlSafety.JobRowIsOk | internal/cicd/service.go:531-696 | Whatever `SaveJob` stores is bound to its connection and credentials in one environment. |
| ControlSafety.PreparedRowIsOk | internal/cicd/service.go:749-826 | So is whatever `PrepareGeneratedJobRepositories` stores after its repair and its credential fallback. |
| ControlSafety.UpsertJobKeepsUnique | internal/persistence/cicd.go:281-303 | The upsert with its second unique key never leaves two jobs with one Jenkins name on one connection. |
| ControlSafety.UpsertCredentialKeepsUnique | internal/persistence/cicd.go:135-143 | Nor two credentials with one external id on one connection. |
| ControlReady.ReadyIsKeptExactly | internal/cicd/service.go:917-947 | An operation keeps "ready means deployed" exactly when it does not move a connection away from its jobs, does not delete the remote job of a ready record that stays, does not lose the status of a synchronization after which Jenkins holds something else, and does not send or delete a Jenkins job that a ready record of another connection to the same server leads to with other settings. |
| ControlReady.SharedServerBreaksReady | internal/cicd/service.go:917-947 | With two connections to one server and one Jenkins job name on both, a synchronization that succeeds leaves the other record ready while Jenkins holds other settings, and a build of it is let through. |
| ControlReady.SharedServerIsReachable | internal/cicd/service.go:137-203 | Seven operations, each successful, lead from an empty store to that, whatever the server and the repositories are called: a manifest repository, a development and a test connection to one URL, a job of one Jenkins name on each, both synchronized. |
| ControlReady.SharedServerExample | internal/cicd/service.go:1351-1367 | In particular with addresses that pass the URL checks of connections and jobs. |
| ControlReady.ReadyHolds | internal/cicd/service.go:917-947 | After every such run a ready job has a Jenkins job with its repository, branch, script path and credential id. |
| ControlReady.TriggersRunWhatIsStored | internal/cicd/service.go:982-992 | So a build is only requested from a Jenkins job that agrees with the record. |
| ControlReady.FailedDeletionOrphans | internal/cicd/service.go:887-915 | A deletion that removes the remote job and then fails to remove the record leaves a ready job without one. |
| ControlPlane.Service.SaveConnection | internal/cicd/service.go:137-203 | The method, with its scan of jobs of an unbound connection, is the connection step of the model and keeps the isolation; it succeeds exactly for the requests the source accepts, and a refusal changes nothing. |
| ControlPlane.Service.SaveManagedConnection | internal/cicd/service.go:205-256 | The same for managed connections, whose environment may be any non-empty name. |
| ControlPlane.Service.SaveCredential | internal/cicd/service.go:327-395 | The same for credentials: environment, connection, kind and external id of an existing record are fixed. |
| ControlPlane.Service.SyncCredential | internal/cicd/service.go:429-467 | With the result stored, the credential is ready exactly if Jenkins manages it itself or the secret was pushed, and failed otherwise; nothing else of it and no other record changes, and without the result nothing does. |
| ControlPlane.Service.SaveJob | internal/cicd/service.go:531-696 | The method is the job step of the model, including the preparation of generated jobs. |
| ControlPlane.Service.ResolveJobRepositories | internal/cicd/service.go:1401-1443 | Success keeps both keys, every repository that is named exists and has a purpose that fits, the clone URL is the one of the repository, and branch and path are only blank if the defaults of the repository are; a refusal means that a named repository is missing or of another purpose. |
| ControlPlane.Service.PickPipeline | internal/cicd/service.go:754-766 | The repaired key names a stored repository whenever the key before the repair did; another key is only taken if it is stored, and afterwards the manifests repository serves both purposes only if there is a unified one or no other choice. |
| ControlPlane.Service.PickCredentials | internal/cicd/service.go:769-789 | A credential that is stored stays, one whose record is gone gives way to the delivery credential, and a missing manifest credential follows the first. |
| ControlPlane.Service.PrepareGeneratedJobRepositories | internal/cicd/service.go:749-826 | A generated job is pinned only to synchronized credentials of its own connection and environment. |
| ControlPlane.Service.RecordJobSyncFailure | internal/cicd/service.go:855-877 | A recorded failure takes a job out of ready. |
| ControlPlane.Service.SyncJob | internal/cicd/service.go:917-947 | A job becomes ready only if Jenkins was reached, took it, and a read-back agreed. |
| ControlPlane.Service.UpsertRemote | internal/cicd/jenkins.go:64-144 | Success means that the Jenkins job has the repository, branch, script path and credential id of the record, wherever the record has one; no other Jenkins job changes. |
| ControlPlane.Service.ClientForJob | internal/cicd/service.go:1284-1298 | An endpoint is only handed out if request, job and connection share one deployable environment, it is that connection's, and the use is recorded with that environment. |
| ControlPlane.Service.CredentialIds | internal/cicd/service.go:1300-1319 | Both credentials are synchronized and belong to the job's connection and environment. |
| ControlPlane.Service.DeleteJob | internal/cicd/service.go:887-915 | A job with active builds stays; a remote deletion that fails keeps the record. |
| ControlPlane.Service.TriggerBuild | internal/cicd/service.go:982-1089 | A saved build has the one environment that request, job and connection agree on, and is a new record unless Jenkins coalesced the request; it is saved exactly if everything it needs is there. |
| ControlPlane.Service.ObserveBuild | internal/cicd/service.go:1103-1124 | Refreshing and canceling go through the environment the build was made for. |
| MarkerFold.MarkerProgress | internal/cicd/service.go:1736-1823 | The fold over the log, the deploy-begin adjustment and the sort give the specified stage list, in whatever order the map is walked; status and percentage follow from it. |
| MarkerFold.MarkerReadsBack | internal/cicd/service.go:1736-1763 | A marker written behind any text of a line that does not hold its opening reads back as the report of its service, kind and status. |
| MarkerFold.DeploysAreAdded | internal/cicd/service.go:1764-1778 | Behind the reports stand the deploy stages of exactly the services of the job that ran or are named in the log. |
| MarkerFold.NothingRunsOn | internal/cicd/service.go:1787-1796 | A build that failed or was canceled has no running stage; nothing else about its stages changes. |
| MarkerFold.ShownIsLastReport | internal/cicd/service.go:1743-1763 | Before the adjustments no stage is made up and none is shown twice: each is the last report about its service and kind. |
| MarkerFold.LastReportIsShown | internal/cicd/service.go:1743-1763 | The last report about a service and kind is shown, whatever is reported about others. |
| MarkerFold.SeenInOrder | internal/cicd/service.go:1757-1760 | Stages come in the order of their first appearance. |
| MarkerFold.KeysAreDistinct | internal/cicd/service.go:1753-1757 | Keys made of service, slash and kind never collide, because no service key has a slash. |
| MarkerFold.TakeFollows | internal/cicd/service.go:1757-1762 | Every report keeps the order numbers a bijection onto 0 .. n-1. |
| MarkerFold.OrderedStages | internal/cicd/service.go:1779-1783 | Collected in any order and sorted by number, the states are the stages in first-appearance order. |
| MarkerFold.AddDeploys | internal/cicd/service.go:1764-1778 | After a begin marker, services that ran or are named get a deploy stage unless they have one. |
| MarkerFold.MarkersShowNoEarlyEnd | internal/cicd/service.go:1809-1822 | The percentage is between 5 and 95 until the build has succeeded, and then 100. |
| BuildProgress.ProgressIsTruthful | internal/cicd/service.go:1174-1205 | Over the whole life of a build, however calls end: queued or running shows less than 100 percent, succeeded shows 100. |
| BuildProgress.OutcomeIsJenkins | internal/cicd/jenkins.go:845-856 | Over the whole life of a build: it is shown as succeeded only if a saved answer of Jenkins was SUCCESS, and as failed only if one was FAILURE or UNSTABLE. |
| BuildProgress.RefreshReports | internal/cicd/jenkins.go:302-425 | One refresh: running while Jenkins builds; at the end succeeded, failed or canceled exactly for the results of Jenkins that mean so; a queue item is followed, also after it has expired; without an answer nothing changes. |
| BuildProgress.RefreshShows | internal/cicd/service.go:1187-1199 | What it shows: the stages Jenkins describes, else those of the log, else what was shown before, each for the selected services; 10 percent at the start, at least 15 while it runs without stages, at most 95 while it runs, 100 at the end. |
| BuildProgress.RefreshingAnEndedBuildIsNot | internal/cicd/service.go:958-963 | The guard of the refresh is needed: refreshing a build that has ended could show a running build at 100 percent. |
| BuildProgress.EndedStaysEnded | internal/cicd/service.go:949-965 | What has ended under its number stays as it is until somebody cancels it. |
| BuildProgress.EndedIsFinalExactly | internal/cicd/service.go:949-965 | A build that has ended can never become queued or running again, exactly if it has got a number: one that ended without a number is refreshed when its log is read, and may come back as running. |
| BuildProgress.PercentNeverFalls | internal/cicd/service.go:1217-1239 | Moving stages forward never lowers the computed percentage of the selected services. |
| BuildProgress.ShownFallsOnlyAtTheEnd | internal/cicd/service.go:1239-1242 | The percentage shown for a running build falls exactly when all its stages are done and more than 95 was shown before. |
| BuildProgress.SmallBuildsNeverFall | internal/cicd/service.go:1239-1242 | With at most 16 stages it never falls. |
| BuildProgress.SeventeenStagesFall | internal/cicd/service.go:1239-1242 | With 17 it can: 96 with the last stage running, 95 when it has passed. |
| BuildProgress.FilterBuildStages | internal/cicd/service.go:1207-1253 | The loop keeps the stages of the selected services and computes their percentage and the first running one. |
| BuildProgress.KeptIsAFilter | internal/cicd/service.go:1207-1220 | The stages shown are a filter of all stages, in order, by the trimmed lower-case name of the service. |
| BuildProgress.PercentIsShare | internal/cicd/service.go:1217-1239 | The percentage is the share of the stages that ended, a running one counting 0.35, rounded down. |
| Stages.LabelMeans | internal/cicd/service.go:1224-1232 | A stage is shown with its service in front, if it has one. |
| BuildProgress.CurrentIsFirst | internal/cicd/service.go:1224-1232 | The current stage is the first running one with a name. |
| BuildProgress.StageProgress | internal/cicd/jenkins.go:508-559 | The loop over the stages Jenkins describes computes their percentage and the first running one. |
| BuildProgress.Builds.RefreshBuild | internal/cicd/service.go:1174-1205 | The record saved follows the answer of Jenkins as said for one refresh, in status, number, stages and percentage; the old one stays if there is none or it cannot be saved. |
| BuildProgress.Builds.ListBuilds | internal/cicd/service.go:949-965 | Exactly the builds that are queued or running are refreshed. |
| BuildProgress.Builds.CancelBuild | internal/cicd/service.go:1103-1124 | A build is marked canceled exactly when Jenkins accepted the stop and the record could be saved. |
| JenkinsLog.SanitizeJenkinsLog | internal/cicd/jenkins.go:462-495 | The index loop with its four kinds of tokens is the scan the lemmas speak about, for every offset. |
| JenkinsTokens.TokenLaw | internal/cicd/jenkins.go:462-495 | One token in front of any log, written out in bytes: a printable byte, a tab and a line end stay; any other control byte, a note up to its end, ESC [ with its parameters up to the first byte of 0x40 to 0x7e, and ESC with the byte behind it vanish, and the rest is sanitized as if it stood alone. |
| JenkinsTokens.SanitizeIsVisible | internal/cicd/jenkins.go:462-495 | So a log made of such tokens is sanitized to exactly its visible bytes. |
| JenkinsTokens.EveryLogHasTokens | internal/cicd/jenkins.go:462-495 | And every log is made of such tokens. |
| JenkinsTokens.TextStays | internal/cicd/jenkins.go:486-493 | Text without ESC stays, but for control bytes other than tab and line ends. |
| JenkinsPolls.PollReads | internal/cicd/jenkins.go:442-460 | A poll reads from 4 KiB before the offset, at most 2 MiB, and shows what comes from the offset on. |
| JenkinsLog.SanitizeIsClosed | internal/cicd/jenkins.go:462-495 | The output holds only bytes from 0x20 on, tabs and line ends, and sanitizing it again changes nothing. |
| JenkinsLog.CutIsExact | internal/cicd/jenkins.go:442-495 | Sanitizing up to a cut and from there on gives the whole sanitized log exactly when the cut does not fall inside the literal prefix of a note. |
| JenkinsLog.CutFromIsExact | internal/cicd/jenkins.go:442-495 | The same for what is emitted from any offset on. |
| JenkinsLog.MeetingScannersAgree | internal/cicd/jenkins.go:444-459 | A scan that starts in the overlap shows exactly the new part as soon as it meets a token boundary of the whole log. |
| JenkinsPolls.EveryContinuationIsExact | internal/cicd/jenkins.go:442-495 | For every log read so far: the next poll shows exactly what the whole log shows from there on, however the log goes on, exactly if the two scanners are in step: no token is cut at the start of the overlap; or the cut token has ended, and if it is a control sequence that ends in ESC [, the scanners are in step behind that; or it is an open note and the scanner from the overlap is in an open note too. |
| JenkinsPolls.NoteResyncs | internal/cicd/jenkins.go:465-473 | A note that closes puts every scanner that starts inside it in step, whatever escape bytes it holds. |
| JenkinsPolls.OverlapMeets | internal/cicd/jenkins.go:444-448 | If the cut token closes by the offset and is no control sequence with ESC [ at its end in front of the reader, both scanners meet at or before the offset. |
| JenkinsPolls.PollIsExact | internal/cicd/jenkins.go:442-460 | One poll within the payload limit shows exactly what is new, if the scanners were in step at its offset. |
| JenkinsPolls.PollIsExactExactly | internal/cicd/jenkins.go:442-495 | For a log given in full, one poll is exact exactly if no token is cut at the start of the overlap or a scanner that starts there shows nothing from the offset to the end of that token; for every token but a control sequence that ends in ESC [. |
| JenkinsPolls.PollInTokenExactly | internal/cicd/jenkins.go:442-495 | If the text of the cut token holds no further escape byte, that is the case exactly if no printable byte of the text lies at the offset or behind it. |
| JenkinsPolls.PollsReassemble | internal/cicd/jenkins.go:442-460 | If the scanners are in step at the offsets actually polled, the polls of a growing log, put together, are the sanitized log. |
| JenkinsPolls.LongNoteLeaks | internal/cicd/jenkins.go:444-448 | A note longer than the overlap is invisible as a whole, but shows in a poll. |
| JenkinsPolls.OpeningAtEndLeaks | internal/cicd/jenkins.go:474-485 | A control sequence of four bytes that ends in ESC [ is enough to put the scanners out of step. |
| JenkinsPolls.CappedPollDropsTail | internal/cicd/jenkins.go:454-459 | What lies behind the payload limit of a poll has no effect on it and is skipped. |
| JenkinsPolls.CappedPollExactly | internal/cicd/jenkins.go:454-459 | A poll at the limit shows what the log up to the limit emits; together with the rest that is everything exactly if the limit does not fall inside a note prefix, and then nothing is lost exactly if the rest emits nothing. |
| GroovyLiteral.SevenPassesAreOne | internal/gitlab/generator.go:480-489 | Seven replacements in a row do what one replacement per character does. |
| GroovyLiteral.PrintedCharacter | internal/gitlab/generator.go:480-489 | What is printed for each character: the seven that need one have their escape, every other one stands for itself. |
| GroovyLiteral.PrintedLiteralReadsBack | internal/gitlab/generator.go:480-489 | A Groovy reader gets the value back, whatever follows the literal. |
| GroovyLiteral.PrintingIsInjective | internal/gitlab/generator.go:480-489 | Different values print differently, also in front of different text. |
| ReconcilingCommit.Branch.CommitFilesWithDeletes | internal/gitlab/client.go:341-404 | Success is only reported for changes that were read back, whatever GitLab did. With atomic commits it means a reconciled branch exactly when no path is listed with two contents; the counts are the new and the changed paths; without changes there is no commit; a failure leaves the old branch or the whole commit. |
| ReconcilingCommit.PlanReconciles | internal/gitlab/client.go:344-383 | A commit of the plan leaves each listed file with its content, no doomed path, and every other path as it was. |
| ReconcilingCommit.ReconciledExactly | internal/gitlab/client.go:344-383 | It does so exactly when no path is listed with two contents. |
| ReconcilingCommit.RerunMakesNoCommit | internal/gitlab/client.go:375-377 | Running again plans nothing. |
| ReconcilingCommit.NothingLeftToDo | internal/gitlab/client.go:375-377 | The plan is empty exactly when every listed file is there and no doomed path is. |
| ReconcilingCommit.DistinctPathsAreAccepted | internal/gitlab/client.go:344-383 | GitLab accepts the plan for distinct paths, so success is possible. |
| ReconcilingCommit.TwoContentsCanSucceed | internal/gitlab/client.go:344-361 | A list with two contents for one path can be reported as success although one of them is missing. |
| ReconcilingCommit.Branch.PlanFiles | internal/gitlab/client.go:344-361 | The loop plans a creation for each new path and an update for each changed one, and counts them. |
| ReconcilingCommit.Branch.PlanDeletes | internal/gitlab/client.go:362-374 | A deletion is planned for each trimmed path that is not listed and exists. |
| ReconcilingCommit.DoomedMeans | internal/gitlab/client.go:362-374 | A path is to go exactly if it is named, blanks aside, and not listed as a file. |
| ReconcilingCommit.Branch.Verify | internal/gitlab/client.go:384-402 | Reading back succeeds exactly when every change can be read and shows. |
| ReconcilingCommit.Branch.CommitInBatches | internal/gitlab/service.go:598-608 | Batches of fifty together do what one commit would do. |
| DeliveryFiles.GenerateDeliveryFiles | internal/gitlab/generator.go:21-62 | For distinct service keys no repository gets a path twice, and every service gets its manifest and its Dockerfile in every environment. |
| DeliveryFiles.PathsMean | internal/gitlab/generator.go:21-62 | The repository and path of every generated file, in a unified project and in one with two repositories. |
| DeliveryFiles.SourcePathMeans | internal/gitlab/source_repository.go:15 | A source path is a list of non-empty names of letters, digits, dots, dashes and underscores, joined by slashes. |
| DeliveryFiles.AcceptableMeans | internal/gitlab/source_repository.go:488-498 | A file is refused exactly for its path, for two dots in it, for more than a mebibyte, for being the marker, and for a path listed before. |
| DeliveryFiles.OriginsDiffer | internal/gitlab/generator.go:47-59 | Paths of different services, environments or kinds of files differ. |
| DeliveryFiles.CollectSourceFiles | internal/gitlab/source_repository.go:488-498 | The list holds the marker and every file once, or the call is refused exactly when a path is malformed, repeated or its content too large. |
| DeliveryFiles.WriteSourceFiles | internal/gitlab/source_repository.go:488-501 | Success leaves the branch with the marker and every file; other paths stay. |
| Cidr.OverlapIsBaseContainment | internal/environment/repository.go:2063-2065 | Two canonical blocks (section 3.1 of RFC 4632) share an address exactly when one contains the base address of the other. |
| Cidr.InsideIsBaseAndPrefix | internal/environment/repository.go:2116-2123 | A block lies inside another exactly when its base does and its prefix is not shorter. |
| Cidr.DisjointBlocksFit | internal/environment/repository.go:2107-2131 | The sizes of pairwise disjoint blocks inside a block add up to at most its size. |
| Cidr.SizeIsCardinality | internal/environment/repository.go:2107-2131 | The size of a block is the number of its addresses. |
| Cidr.PrefixSharesOut | internal/environment/repository.go:2063-2065 | The blocks of one prefix share out the 32-bit address space evenly, and two addresses are in one block exactly if their first bits agree. |
| Cidr.CanonicalIsFirst | internal/environment/repository.go:2063-2065 | A block is canonical exactly if no address of it lies below the one written. |
| Network.ValidateNetwork | internal/environment/repository.go:2023-2133 | The loops over zones and subnets accept exactly the specified networks, in whatever order the maps are walked. |
| Network.CheckSubnets | internal/environment/repository.go:2107-2131 | The nested loops accept exactly the subnets that are well placed and pairwise apart. |
| Network.ExistingIsAcceptedExactly | internal/environment/repository.go:2023-2133 | A network on an existing VPC is accepted exactly if its identifiers, its blocks and its zones are good. |
| Network.CreateIsAcceptedExactly | internal/environment/repository.go:2023-2133 | A network with a VPC of its own is accepted exactly if its blocks, zones, switches, selections and subnets are good. |
| Network.SubnetsAreAcceptedExactly | internal/environment/repository.go:2083-2131 | Its subnets are good exactly if each group has three, one in each zone, canonical, inside the VPC, and all six pairwise apart. |
| Network.AcceptanceIsDisjointness | internal/environment/repository.go:2052-2131 | Once a network is well formed it is accepted exactly when VPC and service range are disjoint, every subnet lies inside the VPC, and the subnets are pairwise disjoint as sets of addresses. |
| Network.AcceptedNetworkIsSound | internal/environment/repository.go:2052-2131 | An accepted network that is to be created has six pairwise disjoint canonical subnets inside the VPC and apart from the service range, whose sizes add up to at most the size of the VPC. |
| Region.ConfigureRegion | internal/environment/region.go:11-51 | The method rewrites a document as specified, and refuses malformed regions and documents without a network. |
| Region.MoveWrites | internal/environment/region.go:21-40 | The move writes the three zones of the target and, in their order, the blocks of the old zones, or the default blocks where there were none. |
| Region.MoveLeavesTheRest | internal/environment/region.go:11-51 | Everything else in the cluster section and in the node groups stays. |
| Region.RegionIsCode | internal/environment/repository.go:28 | A region that is accepted is two letters, perhaps -gov, a word and a digit. |
| Region.CodeIsRegion | internal/environment/repository.go:28 | And every such text is accepted. |
| Region.MoveKeepsValidity | internal/environment/region.go:11-51 | A network accepted for one region is accepted for every other after the move. |
| Region.MoveKeepsBlocks | internal/environment/region.go:21-40 | A network to be created keeps its blocks in the same order of zones. |
| Region.MovedGroupsAreAvailable | internal/environment/region.go:41-49 | Every node group that is an object asks for the available zones; anything else stays. |
| Region.SecondMoveChangesNothing | internal/environment/region.go:11-51 | Moving twice is moving once. |
| MergeMissing.Merge | internal/environment/defaults.go:1466-1479 | The recursive loop computes the completed document, in whatever order the defaults are walked. |
| MergeMissing.LeavesStay | internal/environment/defaults.go:1466-1479 | No default ever replaces a leaf of the user, at any depth. |
| MergeMissing.DefaultsArrive | internal/environment/defaults.go:1466-1479 | Every default is there afterwards unless the user has something else on the way. |
| MergeMissing.NothingElseChanges | internal/environment/defaults.go:1466-1479 | Where the defaults say nothing the document stays as it is. |
| MergeMissing.NothingIsMadeUp | internal/environment/defaults.go:1466-1479 | Whatever is there afterwards was in the document or in the defaults. |
| MergeMissing.SecondMergeChangesNothing | internal/environment/defaults.go:1466-1479 | Merging the same defaults again changes nothing. |
| DefaultsUpgrade.ApplyDefaults | internal/environment/defaults.go:506-952 | The in-place method changes the modelled sections as specified. |
| DefaultsUpgrade.GroupNamesStay | internal/environment/defaults.go:565-580 | If node groups existed, exactly their names exist afterwards. |
| DefaultsUpgrade.NamespacesStay | internal/environment/defaults.go:619-625 | No namespace is removed, and each has a name and nothing else. |
| DefaultsUpgrade.UpgradeIsClosed | internal/environment/defaults.go:720-926 | After one upgrade a component is on exactly when it was on or an enabled component needs it; everything an enabled component needs is on; the namespace of every enabled component is registered. |
| DefaultsExact.PulledMeans | internal/environment/defaults.go:730-806 | What an upgrade switches on: the needs of an enabled collector, Tempo among them if its destination is on with the defaults filled in, and Prometheus for Loki. |
| DefaultsExact.NamespacesExactly | internal/environment/defaults.go:720-901 | The namespaces afterwards are exactly those there were, those of enabled components, and with Loki those of the whole logging set. |
| DefaultsExact.StackHasOneNamespace | internal/environment/defaults.go:807-885 | An enabled stack ends up in one namespace: the one of its values, or else its own; any other stays. |
| DefaultsExact.OnlyTheStacksMove | internal/environment/defaults.go:819-885 | ClickVisual and EFK move, each on its own, and no other component. |
| DefaultsExact.ValuesAreFilledIn | internal/environment/defaults.go:720-728 | The values of the collector are filled in from the defaults; those of other components stay. |
| DefaultsExact.UpgradeMeans | internal/environment/defaults.go:506-952 | What an upgrade writes into the catalog, if there is one, and into the namespaces, if there are any, with those of Consul and etcd. |
| DefaultsExact.OtherSettingsStay | internal/environment/defaults.go:720-901 | Of what is modelled: switching on and moving leave every other setting of a component alone. |
| DefaultsExact.OtherSectionsStay | internal/environment/defaults.go:506-952 | Of what is modelled: beyond node groups, namespaces and components, and within each node group that stays, the document is what the merge with the defaults made it. |
| DefaultsExact.OtherComponentsStay | internal/environment/defaults.go:720-926 | Of what is modelled: beside the catalog the components stay, and without a catalog all of them do. |
| Defaults.SwitchedOnExactly | internal/environment/defaults.go:720-806 | The exact set of components that end up on. |
| Defaults.OnePassCloses | internal/environment/defaults.go:730-806 | One pass closes the set under collector to Prometheus, Loki, Jaeger and a wanted Tempo, and Loki to Prometheus. |
| Defaults.EnabledNamespacesAreRegistered | internal/environment/defaults.go:886-901 | The namespace of every enabled catalog component is registered. |
| DefaultsUpgrade.DeleteNewGroups | internal/environment/defaults.go:570-580 | The loop deletes exactly the groups the document did not have. |
| DefaultsUpgrade.RegisterEnabled | internal/environment/defaults.go:890-901 | The loop registers exactly the namespaces of enabled components, in whatever order the catalog is walked. |
| Scheduling.SchedulingPlan | internal/environment/scheduling.go:84-143 | The loops over groups, labels and taints compute the canonical plan. |
| Scheduling.PlanMeans | internal/environment/scheduling.go:84-143 | The plan has one entry for each group that is an object, with its placement, and says whether scheduling is on. |
| Scheduling.EntryMeans | internal/environment/scheduling.go:94-141 | An entry: the settings of the group, capacity and image type with their defaults, and types, zones and taints in order. |
| Scheduling.PlacementsMatchExactly | internal/environment/scheduling.go:94-141 | Two groups have the same entry exactly when they place alike up to the order of types, zones and taints. |
| Scheduling.SameSchedulingPlan | internal/environment/scheduling.go:145-147 | The comparison by deep equality is equality of plans. |
| Scheduling.SameMeansNoChange | internal/environment/scheduling.go:145-174 | Plans are the same exactly when the comparison reports no change. |
| Scheduling.ComparisonIsDetermined | internal/environment/scheduling.go:152-174 | The comparison is one definite result, whatever order the maps are walked in. |
| Scheduling.AppendOnlyIsTransitive | internal/environment/scheduling.go:149-174 | Append-only changes add up to an append-only change, with the added names of both. |
| Scheduling.CompareSchedulingPlans | internal/environment/scheduling.go:152-174 | The loops list exactly the added, removed and modified names, sorted. |
| NewScheduling.NormalizeManagedNodeGroupTaints | internal/environment/scheduling.go:58-82 | Exactly the business groups carry the one taint, every other group none. |
| NewScheduling.NormalizedMeans | internal/environment/scheduling.go:58-82 | The taint a business group gets; no other setting of any group changes. |
| NewScheduling.SecondNormalizationChangesNothing | internal/environment/scheduling.go:58-82 | Normalizing taints twice is normalizing them once. |
| NewScheduling.FreshName | internal/environment/scheduling.go:225-229 | The loop ends, because each name it tries is another name of the map, and finds the first free candidate. |
| NewScheduling.ConfigureNewEnvironmentScheduling | internal/environment/scheduling.go:179-230 | The method splits the groups as specified, or switches scheduling off for an existing cluster. |
| NewScheduling.SchedulingMeans | internal/environment/scheduling.go:179-204 | The switch is written, and nothing else beside the groups. |
| NewScheduling.NoGroupIsLost | internal/environment/scheduling.go:205-229 | No group is lost or overwritten, and only one may get another label. |
| NewScheduling.ApplicationRoleExactly | internal/environment/scheduling.go:205-215 | There is a business group afterwards exactly when there was one, or the group with the least name is an object. |
| NewScheduling.PlatformRoleExactly | internal/environment/scheduling.go:205-229 | There is no platform group afterwards exactly when there was no business group and the group with the least name was the only platform group. |
| NewScheduling.LonePlatformGroupIsLost | internal/environment/scheduling.go:205-218 | A single platform group becomes the business group and none takes its place. |
| Ordering.SortedIsCanonical | internal/environment/scheduling.go:114-140 | Sorting forgets the order of a list and nothing else. |
| Ordering.SortStrings | internal/cicd/jenkins.go:864-870 | The in-place insertion sort of the Jenkins client sorts its array. |
| DomainRoutes.NormalizeDomainRoutes | internal/environment/repository.go:150-196 | The loops over domains and routes normalize each domain as specified. |
| DomainRoutes.RoutedMeans | internal/environment/repository.go:150-196 | The routes afterwards, one by one: those of the domain, cleaned, or the one its old fields stand for; other fields stay, and domains for TCP stay as a whole. |
| DomainRoutes.RoutesStayExactly | internal/environment/repository.go:171-188 | The routes served stay, with path and type filled in, exactly when there is no routes entry or a non-empty list. |
| DomainRoutes.RoutedIsRouted | internal/environment/repository.go:181-194 | Afterwards all routes are filled in and the legacy fields mirror route 0. |
| DomainRoutes.SecondRoutingChangesNothing | internal/environment/repository.go:150-196 | Normalizing routes twice is normalizing them once. |
| DomainRoutes.NormalizeDomainBackendProtocols | internal/environment/repository.go:223-288 | The loop normalizes the backend protocol of each domain as specified. |
| DomainRoutes.BackendMeans | internal/environment/repository.go:223-288 | The protocol is the configured one, or else a guess from the protocol at the edge and the old annotations. |
| DomainRoutes.AnnotationsMean | internal/environment/repository.go:259-287 | Of the two annotations that name a protocol exactly the one of the ingress class is left, and only for HTTPS and gRPC; every other annotation stays. |
| DomainRoutes.TcpMeans | internal/environment/repository.go:223-288 | A domain for TCP has neither afterwards, and no protocol. |
| DomainRoutes.SecondBackingChangesNothing | internal/environment/repository.go:223-288 | Normalizing backend protocols twice is normalizing them once. |
| DomainRoutes.BackingKeepsRoutes | internal/environment/repository.go:223-288 | Backend protocols have no effect on routes or on their mirror. |
| DomainRoutes.ReloadChangesNothing | internal/environment/repository.go:117-118 | A document that was normalized by both and is normalized again stays the same. |
| JavaHeap.ParseJavaHeapBytes | internal/environment/repository.go:1331-1374 | The loop reads both sizes, or nothing if one is missing, given twice or too large. |
| JavaHeap.WrittenIsRead | internal/environment/repository.go:34 | What is written as an option is read as one, in any case of its letters, unless a word character follows. |
| JavaHeap.WrittenHasBytes | internal/environment/repository.go:1331-1374 | It asks for its number of bytes, or of kibi-, mebi-, gibi- or tebibytes with a unit, and is a start or a maximum size by its letter. |
| JavaHeap.FoldMeans | internal/environment/repository.go:1331-1374 | Sizes are read exactly if every option can be read and neither is given twice. |
| JavaHeap.FoldReads | internal/environment/repository.go:1331-1374 | And they are those of the options. |
| JavaHeap.GuardIsExact | internal/environment/repository.go:1353-1356 | The overflow guard refuses exactly the products that exceed 64 bits. |
| JavaHeap.ParseMemory | internal/environment/repository.go:1376-1401 | A memory quantity that is read fits into 64 bits. |
| JavaHeap.QuantityIsRead | internal/environment/repository.go:1376-1401 | Digits, a unit and perhaps an i are read as the number times the unit, unless that exceeds 64 bits. |
| JavaHeap.ReadIsQuantity | internal/environment/repository.go:1376-1401 | Nothing else is read. |
| JavaHeap.HeapTextReadsBack | internal/environment/repository.go:1403-1408 | A formatted size reads back as the size rounded down to a mebibyte. |
| JavaHeap.RewrittenReadsBack | internal/environment/repository.go:1433-1438 | The rewritten option text scans as the rewritten options between the old text: no option is lost, and none appears. |
| HeapRepair.NormalizeLegacyEFKHeap | internal/environment/repository.go:1410-1439 | The method repairs the settings as specified and leaves everything else. |
| HeapRepair.RepairMeans | internal/environment/repository.go:1410-1439 | Exactly which settings are left alone: the repair writes only if limit and sizes can be read, the limit is at least 2 MiB and the sizes differ or exceed half of it, and then only the options. |
| HeapRepair.ValidatorMeans | internal/environment/repository.go:1297-1322 | What the validator asks of these settings. |
| HeapRepair.RepairedFits | internal/environment/repository.go:1428-1438 | After a rewrite both sizes are the same positive size, at most half of the memory limit and less than a mebibyte short of it. |
| HeapRepair.HeapFitsExactly | internal/environment/repository.go:1423-1431 | After the repair the heap fits exactly when limit and sizes can be read and the limit is at least 2 MiB or the heap did fit. |
| HeapRepair.OtherTextStays | internal/environment/repository.go:1433-1438 | All text between the options stays. |
| HeapRepair.SecondRepairChangesNothing | internal/environment/repository.go:1410-1439 | A second repair changes nothing. |
| HeapRepair.RepairMeetsValidatorExactly | internal/environment/repository.go:1297-1322 | A rewritten document is accepted by the validator exactly when the old text has no line break and its length, less the two old options and plus two options of the new size, is at most 100. |
| HeapRepair.RepairCanBeRefused | internal/environment/repository.go:1410-1439 | An input of 100 characters, two gibibyte sizes and a limit of 3Gi: the repair writes 106 characters, which the validator refuses. |

## Left out

- ControlReady.ReadyIsKeptExactly: says what happens when operations run one after the other; edits in Jenkins by its administrators are not part of the model.
- RotationModel.RotationIsSafe: the code does not check what its hypotheses say, that no other place holds a token of the name, that one operation runs at a time, and that a failed save stored nothing; `RotationLimits` shows that each is needed. A place is a pair of a record key and a Jenkins identifier: that a shortened key or the former key of a delivery credential can share one half with another place is not modelled.
- SessionPruning.PruningIsInvisible: takes the critical sections in the order of the instants they read. `Login` and `Authenticate` read the clock before they take the lock, so under concurrent requests a section can come after one with a later instant.
- JenkinsPolls.PollIsExactExactly: leaves out a cut control sequence that ends in ESC [ in front of the reader, where two scanners that are out of step can show equal bytes by accident; `EveryContinuationIsExact` covers it.
- BuildProgress.PercentNeverFalls: counts hundredths of stages, where the code adds 0.35 in floating point and can be one percent lower after rounding.
- BuildProgress.Builds.ListBuilds: takes the identifiers of the listed builds, without the page of at most 200.
- ControlPlane.Service.TriggerBuild: the checks of services, parameters, webhook deliveries and source preflight are one answer, and all builds of the project are searched for a coalesced one instead of the newest 200.
- ControlPlane.Service.SaveJob: the checks of names, content, branches, path ownership and repository URLs that do not concern environments are one answer; parameters and manifest URLs are not part of the record.
- ControlPlane.Service.SyncCredential: the encrypted secret is one flag.
- MarkerFold.MarkerProgress: the service keys of a job are normalized when it is saved, so they are never empty.
- DeliveryFiles.GenerateDeliveryFiles: lists paths without contents, and takes the services in the order given, where the code sorts them by key first.
- DefaultsUpgrade.ApplyDefaults: leaves out the migrations of network zones, subnet types, data services, alert templates, charts and collector destinations, the removal of `values.namespaces` from ClickVisual, the heap repair and the taints; the last two are modelled on their own.
- DefaultsExact.OtherSectionsStay: the migrations that are left out change more of the document; so for `DefaultsExact.OtherSettingsStay` (charts and images) and `DefaultsExact.OtherComponentsStay` (data services).
- DefaultsExact.StackHasOneNamespace: leaves out the namespaces Elasticsearch allows, which the code derives from the catalog.
- Network.ValidateNetwork: the reader of CIDR texts is a parameter; IPv6 is refused by it.
- CredentialSync.Synchronizer.SyncDelivery: the answers of the remote calls are given beforehand, and errors are not told apart beyond conflict and failure.
- CredentialSync.Synchronizer.SyncSourceRoot: what is read and asked on the way, such as the readable repositories, and which record was found and whether it belongs to the platform, is given as answers; errors are not told apart beyond conflict and failure.
- Keys of projects, connections and jobs are taken trimmed and in lower case; MySQL compares them without case.
- One project at a time; deleting a whole project and the records of other projects are not modelled.
- Lengths count characters, where the code counts bytes: the limits of `Login` on user name and password, the 100 of the heap options, the mebibyte of a source file. For texts outside ASCII the code refuses more.
- Upper and lower case are those of ASCII; other letters keep their case.
- Nested maps are values: that two places of a document share one map, and a change through one shows in the other, is not modelled.
- Passwords, hashes, encrypted secrets, digests and random tokens are opaque; new tokens differ from all old ones.
- HTTP, crumbs, redirects, tunnels, SQL, Redis and processes: a call is a step that ends in one of the ways the code tells apart.
- `StartDemoBuild` and `StartGitCredentialProbe` store "ready" by hand and are outside the synchronization protocol.
- Texts of Jenkinsfiles, Dockerfiles, manifests, alert templates and default documents.
- The other field checks of `Validate`, and its parsing of charts, storage and ports.
- Listing pages of GitLab and Jenkins.
