/** The life of a build: `TriggerBuild`, `refreshBuild`, `filterBuildStages` and `CancelBuild` of
    internal/cicd/service.go, with `refresh` and `stageProgress` of internal/cicd/jenkins.go. */
module BuildProgress {
  import opened Options
  import opened Stages
  import opened Documents
  import MarkerFold

  /** `number` is 0 as long as Jenkins has not started the build. */
  datatype Build = Build(number: int, status: BuildStatus, progress: int, services: seq<string>,
                         stages: seq<Stage>, current: string)

  // ---------------------------------------------------------------- the percentage of a stage list

  /** What the user sees of the stages of a build. */
  datatype View = View(stages: seq<Stage>, progress: int, current: string)

  predicate Allowed(stage: Stage, services: seq<string>) {
    stage.service == "" || Lower(Trim(stage.service)) in services
  }

  /** The stages of the selected services, and those of no service. */
  function Kept(stages: seq<Stage>, services: seq<string>): (kept: seq<Stage>)
    ensures |kept| <= |stages|
  {
    if stages == [] then []
    else
      var before, last := Kept(stages[..|stages| - 1], services), stages[|stages| - 1];
      if Allowed(last, services) then before + [last] else before
  }

  lemma KeptNext(stages: seq<Stage>, services: seq<string>, i: nat)
    requires i < |stages|
    ensures Kept(stages[..i + 1], services) ==
      if Allowed(stages[i], services) then Kept(stages[..i], services) + [stages[i]] else Kept(stages[..i], services)
  {
    assert stages[..i + 1][..i] == stages[..i];
  }

  function Percent(stages: seq<Stage>): (percent: nat)
    requires stages != []
    ensures percent <= 100
  {
    PercentBound(stages);
    MarkerFold.Quotient(Done(stages), |stages|)
  }

  lemma PercentBound(stages: seq<Stage>)
    requires stages != []
    ensures MarkerFold.Quotient(Done(stages), |stages|) <= 100
  {
    DoneIsAtMostAll(stages);
    MarkerFold.QuotientBound(Done(stages), |stages|, 100);
  }

  /** What is shown for a computed percentage. */
  function Shown(percent: int, status: BuildStatus): int {
    if status == Succeeded then 100
    else if status == Running && percent >= 100 then 95
    else percent
  }

  /** `filterBuildStages`; a build without services shows everything. */
  function Filtered(all: View, services: seq<string>, status: BuildStatus): View {
    if services == [] then all
    else
      var kept := Kept(all.stages, services);
      if kept == [] then View([], all.progress, "")
      else View(kept, Shown(Percent(kept), status), if status == Succeeded then "" else Current(kept))
  }

  /** One more stage is kept. */
  lemma OneMoreKept(kept: seq<Stage>, stage: Stage)
    ensures Done(kept + [stage]) == Done(kept) + Weight(stage.status)
    ensures Current(kept + [stage]) ==
      if stage.status.InProgress? && Current(kept) == "" then Label(stage) else Current(kept)
  {
    assert (kept + [stage])[..|kept|] == kept;
  }

  /** The loop of `filterBuildStages`. */
  method KeepStages(stages: seq<Stage>, services: seq<string>) returns (kept: seq<Stage>, done: nat, current: string)
    ensures kept == Kept(stages, services) && done == Done(kept) && current == Current(kept)
  {
    kept, done, current := [], 0, "";
    var i := 0;
    while i < |stages|
      invariant 0 <= i <= |stages|
      invariant kept == Kept(stages[..i], services)
      invariant done == Done(kept) && current == Current(kept)
    {
      var stage := stages[i];
      KeptNext(stages, services, i);
      if Allowed(stage, services) {
        OneMoreKept(kept, stage);
        kept := kept + [stage];
        done := done + Weight(stage.status);
        if stage.status.InProgress? && current == "" {
          current := Label(stage);
        }
      }
      i := i + 1;
    }
    assert stages[..i] == stages;
  }

  method FilterBuildStages(all: View, services: seq<string>, status: BuildStatus) returns (view: View)
    ensures view == Filtered(all, services, status)
    ensures services == [] ==> view == all
    ensures services != [] ==> view.stages == Kept(all.stages, services)
    ensures services != [] && view.stages == [] ==> view.progress == all.progress && view.current == ""
    ensures services != [] && view.stages != [] ==>
      && view.current == (if status == Succeeded then "" else Current(view.stages))
      && view.progress == (if status == Succeeded then 100
           else if status == Running && Percent(view.stages) == 100 then 95 else Percent(view.stages))
  {
    if services == [] {
      return all;
    }
    var kept, done, current := KeepStages(all.stages, services);
    if kept == [] {
      return View([], all.progress, "");
    }
    PercentBound(kept);
    var progress: int := MarkerFold.Quotient(done, |kept|);
    if status == Running && progress >= 100 {
      progress := 95;
    }
    if status == Succeeded {
      progress, current := 100, "";
    }
    return View(kept, progress, current);
  }

  /** `stageProgress`: the stages Jenkins describes, each with the full name it shows. */
  function Described(stages: seq<Stage>, names: seq<string>, status: BuildStatus): View
    requires |names| == |stages|
  {
    View(stages, Shown(if stages == [] then 10 else Percent(stages), status), RunningName(stages, names))
  }

  /** The full name of the first running stage. */
  function RunningName(stages: seq<Stage>, names: seq<string>): string
    requires |names| == |stages|
  {
    if stages == [] then ""
    else
      var before := RunningName(stages[..|stages| - 1], names[..|stages| - 1]);
      if before == "" && stages[|stages| - 1].status.InProgress? then names[|stages| - 1] else before
  }

  method StageProgress(stages: seq<Stage>, names: seq<string>, status: BuildStatus) returns (view: View)
    requires |names| == |stages|
    ensures view == Described(stages, names, status)
    ensures view.stages == stages && view.current == RunningName(stages, names)
    ensures view.progress == if status == Succeeded then 100 else if stages == [] then 10
      else if status == Running && Percent(stages) == 100 then 95 else Percent(stages)
  {
    var done, current := 0, "";
    var i := 0;
    while i < |stages|
      invariant 0 <= i <= |stages|
      invariant done == Done(stages[..i]) && current == RunningName(stages[..i], names[..i])
    {
      DoneNext(stages, i);
      assert stages[..i + 1][..i] == stages[..i] && names[..i + 1][..i] == names[..i];
      done := done + Weight(stages[i].status);
      if stages[i].status.InProgress? && current == "" {
        current := names[i];
      }
      i := i + 1;
    }
    assert stages[..i] == stages && names[..i] == names;
    var progress: int := 10;
    if |stages| > 0 {
      PercentBound(stages);
      progress := MarkerFold.Quotient(done, |stages|);
    }
    if status == Running && progress >= 100 {
      progress := 95;
    }
    if status == Succeeded {
      progress := 100;
    }
    return View(stages, progress, current);
  }

  /** `markerProgress`, for a Jenkins without stage view. */
  function Logged(logs: string, services: seq<string>, status: BuildStatus): View {
    var stages := MarkerFold.EndedAll(MarkerFold.Folded(MarkerFold.Events(logs, services)), status);
    DoneIsAtMostAll(stages);
    View(stages, MarkerFold.MarkerPercent(Done(stages), MarkerFold.Expected(|services|, |stages|), status), Current(stages))
  }

  // ---------------------------------------------------------------- Jenkins' answers

  datatype Result = Success | Aborted | NotBuilt | Failure | Unstable | NoResult

  function MapResult(result: Result): BuildStatus {
    match result
    case Success => Succeeded
    case Aborted => Canceled
    case NotBuilt => Canceled
    case Failure => Failed
    case Unstable => Failed
    case NoResult => Unknown
  }

  /** The state of a started build. */
  datatype RunAnswer = RunLost | Building | Completed(result: Result)

  /** The state of a queue item; an item that has expired may be found among the started builds. */
  datatype QueueAnswer =
    | QueueLost
    | Expired(found: bool, number: int, run: RunAnswer)
    | CanceledInQueue
    | Started(number: int)
    | StillQueued

  datatype StageAnswer =
    | StageView(stages: seq<Stage>, names: seq<string>)
    | FullLog(logs: string, jobServices: seq<string>)
    | NothingKnown

  datatype Answers = Answers(reachable: bool, queue: QueueAnswer, run: RunAnswer, view: StageAnswer)

  predicate WellFormed(a: Answers) {
    a.view.StageView? ==> |a.view.stages| == |a.view.names|
  }

  // ---------------------------------------------------------------- one refresh

  /** `refresh` of a started build; nothing when Jenkins gives no answer. */
  function Ran(build: Build, run: RunAnswer): Option<Build> {
    match run
    case RunLost => None
    case Building => Some(build.(status := Running, progress := if build.progress < 15 then 15 else build.progress))
    case Completed(result) => Some(build.(status := MapResult(result), progress := 100))
  }

  /** `refresh` of a queued build, with `recoverExpiredQueueItem`. */
  function Dequeued(build: Build, queue: QueueAnswer): Option<Build> {
    match queue
    case QueueLost => None
    case Expired(found, number, run) =>
      if !found || number <= 0 then None
      else Ran(build.(number := number, status := Running, progress := if build.progress < 10 then 10 else build.progress), run)
    case CanceledInQueue => Some(build.(status := Canceled))
    case Started(number) => Some(build.(number := number, status := Running, progress := 10))
    case StillQueued => Some(build)
  }

  function Staged(build: Build, view: StageAnswer): Build
    requires view.StageView? ==> |view.stages| == |view.names|
  {
    match view
    case StageView(stages, names) => WithView(build, Filtered(Described(stages, names, build.status), build.services, build.status))
    case FullLog(logs, services) => WithView(build, Filtered(Logged(logs, services, build.status), build.services, build.status))
    case NothingKnown => build
  }

  function WithView(build: Build, view: View): Build {
    build.(stages := view.stages, progress := view.progress, current := view.current)
  }

  /** The record `refreshBuild` saves. */
  function Refreshed(build: Build, a: Answers): Build
    requires WellFormed(a)
  {
    var looked := if !a.reachable then None else if build.number == 0 then Dequeued(build, a.queue) else Ran(build, a.run);
    if looked.None? then build
    else
      var staged := if looked.value.number > 0 then Staged(looked.value, a.view) else looked.value;
      if staged.status == Succeeded then staged.(progress := 100) else staged
  }

  // ---------------------------------------------------------------- the life of a build

  function Triggered(services: seq<string>): Build {
    Build(0, Queued, 5, services, [], "")
  }

  /** `ListBuilds` refreshes builds that are queued or running; reading logs refreshes whatever has no number yet. */
  predicate IsRefreshed(build: Build) {
    build.status == Queued || build.status == Running || build.number == 0
  }

  datatype Step = Refresh(answers: Answers, saved: bool) | Cancel(accepted: bool, saved: bool)

  function Apply(build: Build, s: Step): Build
    requires s.Refresh? ==> WellFormed(s.answers)
  {
    match s
    case Refresh(answers, saved) => if IsRefreshed(build) && saved then Refreshed(build, answers) else build
    case Cancel(accepted, saved) => if accepted && saved then build.(status := Canceled) else build
  }

  /** What listing a build does to its record. */
  function Listed(build: Build, a: Answers, saved: bool): Build
    requires WellFormed(a)
  {
    if build.status == Queued || build.status == Running then Apply(build, Refresh(a, saved)) else build
  }

  /** It is refreshed exactly if it is queued or running. */
  lemma ListingRefreshesActive(build: Build, a: Answers, saved: bool)
    requires WellFormed(a)
    ensures build.status in {Queued, Running} ==> Listed(build, a, saved) == Apply(build, Refresh(a, saved))
    ensures build.status !in {Queued, Running} ==> Listed(build, a, saved) == build
  {
  }

  /** The first `n` of these keys have their new values, and nothing else changed. */
  ghost predicate Written<V>(before: map<string, V>, after: map<string, V>, keys: seq<string>, values: seq<V>, n: nat)
    requires n <= |keys| == |values|
  {
    && after.Keys == before.Keys
    && (forall key | key in after && key !in keys[..n] :: after[key] == before[key])
    && (forall k | 0 <= k < n :: keys[k] in after && after[keys[k]] == values[k])
  }

  lemma WrittenNext<V>(before: map<string, V>, now: map<string, V>, after: map<string, V>, keys: seq<string>, values: seq<V>, n: nat)
    requires n < |keys| == |values| && keys[n] in before && (forall i, j | 0 <= i < j < |keys| :: keys[i] != keys[j])
    requires Written(before, now, keys, values, n) && after == now[keys[n] := values[n]]
    ensures now[keys[n]] == before[keys[n]] && Written(before, after, keys, values, n + 1)
  {
    assert keys[..n + 1] == keys[..n] + [keys[n]];
  }

  predicate WellFormedRun(steps: seq<Step>) {
    forall s | s in steps && s.Refresh? :: WellFormed(s.answers)
  }

  function After(build: Build, steps: seq<Step>): Build
    requires WellFormedRun(steps)
    decreases |steps|
  {
    if steps == [] then build else After(Apply(build, steps[0]), steps[1..])
  }

  /** Nothing unfinished shows 100 percent, and success shows nothing less. */
  predicate Truthful(build: Build) {
    && 0 <= build.progress <= 100
    && (build.status == Queued || build.status == Running ==> build.progress < 100)
    && (build.status == Succeeded ==> build.progress == 100)
    && (build.number == 0 ==> build.progress < 100)
  }

  lemma ViewIsTruthful(view: View, services: seq<string>, status: BuildStatus)
    requires 0 <= view.progress <= 100 && (status == Running ==> view.progress < 100) && (status == Succeeded ==> view.progress == 100)
    ensures var filtered := Filtered(view, services, status);
      && 0 <= filtered.progress <= 100 && (status == Running ==> filtered.progress < 100)
      && (status == Succeeded ==> filtered.progress == 100)
  {
  }

  lemma StagedIsTruthful(build: Build, view: StageAnswer)
    requires view.StageView? ==> |view.stages| == |view.names|
    requires build.status != Queued && build.number > 0 && 0 <= build.progress <= 100
    requires (build.status == Running ==> build.progress < 100) && (build.status == Succeeded ==> build.progress == 100)
    ensures Truthful(Staged(build, view)) && Staged(build, view).status == build.status && Staged(build, view).number == build.number
  {
    match view
    case StageView(stages, names) => ViewIsTruthful(Described(stages, names, build.status), build.services, build.status);
    case FullLog(logs, services) =>
      var stages := MarkerFold.EndedAll(MarkerFold.Folded(MarkerFold.Events(logs, services)), build.status);
      DoneIsAtMostAll(stages);
      MarkerFold.MarkersShowNoEarlyEnd(Done(stages), MarkerFold.Expected(|services|, |stages|), build.status);
      ViewIsTruthful(Logged(logs, services, build.status), build.services, build.status);
    case NothingKnown =>
  }

  /** A build that may be refreshed answers truthfully afterwards, whatever Jenkins says or fails to say. */
  lemma RefreshIsTruthful(build: Build, a: Answers)
    requires Truthful(build) && IsRefreshed(build) && WellFormed(a)
    ensures Truthful(Refreshed(build, a))
  {
    var looked := if !a.reachable then None else if build.number == 0 then Dequeued(build, a.queue) else Ran(build, a.run);
    if looked.Some? && looked.value.number > 0 {
      StagedIsTruthful(looked.value, a.view);
    }
  }

  lemma {:induction false} RunIsTruthful(build: Build, steps: seq<Step>)
    requires Truthful(build) && WellFormedRun(steps)
    ensures Truthful(After(build, steps))
    decreases |steps|
  {
    if steps != [] {
      assert steps[0] in steps;
      if steps[0].Refresh? && IsRefreshed(build) {
        RefreshIsTruthful(build, steps[0].answers);
      }
      RunIsTruthful(Apply(build, steps[0]), steps[1..]);
    }
  }

  /** Over its whole life, however the calls to Jenkins and to the store end: a build that is queued or runs shows less
      than 100 percent, a build that has succeeded shows 100. */
  lemma ProgressIsTruthful(services: seq<string>, steps: seq<Step>)
    requires WellFormedRun(steps)
    ensures var build := After(Triggered(services), steps);
      && 0 <= build.progress <= 100
      && (build.status == Queued || build.status == Running ==> build.progress < 100)
      && (build.status == Succeeded ==> build.progress == 100)
  {
    RunIsTruthful(Triggered(services), steps);
  }

  /** The guard matters: refreshing a build that has ended could show a running build at 100 percent. */
  lemma RefreshingAnEndedBuildIsNot(build: Build)
    requires Truthful(build) && build.number > 0 && build.progress == 100
    ensures !Truthful(Refreshed(build, Answers(true, QueueLost, Building, NothingKnown)))
  {
  }

  /** What has ended under its number stays as it is until somebody cancels it. */
  lemma {:induction false} EndedStaysEnded(build: Build, steps: seq<Step>)
    requires WellFormedRun(steps) && build.number != 0 && build.status != Queued && build.status != Running
    ensures var after := After(build, steps);
      && after == build.(status := after.status) && (after.status == build.status || after.status == Canceled)
    decreases |steps|
  {
    if steps != [] {
      EndedStaysEnded(Apply(build, steps[0]), steps[1..]);
    }
  }

  /** What has ended is over for good exactly if it got a number: without one it is still refreshed, and Jenkins can
      report it as running again. */
  lemma EndedIsFinalExactly(build: Build)
    requires build.status != Queued && build.status != Running
    ensures build.number != 0 <==>
      forall steps | WellFormedRun(steps) :: After(build, steps).status != Queued && After(build, steps).status != Running
  {
    if build.number != 0 {
      forall steps | WellFormedRun(steps) ensures After(build, steps).status != Queued && After(build, steps).status != Running {
        EndedStaysEnded(build, steps);
      }
    } else {
      var steps := [Refresh(Answers(true, Started(7), RunLost, NothingKnown), true)];
      assert WellFormedRun(steps) && After(build, steps) == Apply(build, steps[0]);
      assert Apply(build, steps[0]).status == Running;
    }
  }

  // ---------------------------------------------------------------- what Jenkins answered

  /** The record follows what Jenkins says about the run. */
  predicate Reports(before: Build, run: RunAnswer, after: Build) {
    match run
    case RunLost => after == before
    case Building => after.status == Running
    case Completed(result) =>
      && (after.status == Succeeded <==> result == Success)
      && (after.status == Failed <==> result in {Failure, Unstable})
      && (after.status == Canceled <==> result in {Aborted, NotBuilt})
      && (after.status == Unknown <==> result == NoResult)
      && (after.status == Succeeded ==> after.progress == 100)
  }

  /** The record of a build without a number follows what Jenkins says about the queue item. */
  predicate LeavesQueue(before: Build, queue: QueueAnswer, after: Build) {
    match queue
    case QueueLost => after == before
    case StillQueued => after == before.(progress := if before.status == Succeeded then 100 else before.progress)
    case CanceledInQueue => after == before.(status := Canceled)
    case Started(number) =>
      && after.status == Running && after.number == number
      && (number <= 0 ==> after == before.(number := number, status := Running, progress := 10))
    case Expired(found, number, run) =>
      if found && number > 0 && run != RunLost then after.number == number && Reports(before, run, after) else after == before
  }

  lemma StagedKeeps(build: Build, view: StageAnswer)
    requires view.StageView? ==> |view.stages| == |view.names|
    ensures Staged(build, view) == build.(stages := Staged(build, view).stages, progress := Staged(build, view).progress,
                                          current := Staged(build, view).current)
  {
  }

  lemma RefreshReports(build: Build, a: Answers)
    requires WellFormed(a)
    ensures !a.reachable ==> Refreshed(build, a) == build
    ensures a.reachable && build.number != 0 ==> Reports(build, a.run, Refreshed(build, a)) && Refreshed(build, a).number == build.number
    ensures a.reachable && build.number == 0 ==> LeavesQueue(build, a.queue, Refreshed(build, a))
    ensures Refreshed(build, a).services == build.services
  {
    var looked := if !a.reachable then None else if build.number == 0 then Dequeued(build, a.queue) else Ran(build, a.run);
    if looked.Some? {
      StagedKeeps(looked.value, a.view);
    }
  }

  /** Jenkins answered with the state of a build that has a number. */
  predicate Heard(before: Build, a: Answers) {
    && a.reachable
    && (before.number != 0 ==> before.number > 0 && a.run != RunLost)
    && (before.number == 0 ==>
          || (a.queue.Started? && a.queue.number > 0)
          || (a.queue.Expired? && a.queue.found && a.queue.number > 0 && a.queue.run != RunLost))
  }

  /** The percentage without stages: 10 when Jenkins starts the build, at least 15 while it runs, 100 at its end. */
  function PlainPercent(before: Build, a: Answers): int {
    if before.number == 0 && a.queue.Started? then 10
    else if (if before.number != 0 then a.run else if a.queue.Expired? then a.queue.run else RunLost).Completed? then 100
    else if before.progress < 15 then 15
    else before.progress
  }

  /** The percentage of a stage list; a running build shows at most 95. */
  function StagePercent(stages: seq<Stage>, status: BuildStatus): int
    requires stages != []
  {
    if status == Succeeded then 100 else if status == Running && Percent(stages) == 100 then 95 else Percent(stages)
  }

  /** The stages shown behind `view`: those Jenkins describes, else those of the log, else what was shown before. */
  predicate Shows(before: Build, plain: int, view: StageAnswer, after: Build)
    requires view.StageView? ==> |view.stages| == |view.names|
  {
    match view
    case NothingKnown => after.stages == before.stages && after.current == before.current && after.progress == plain
    case StageView(stages, names) =>
      && after.stages == (if before.services == [] then stages else Kept(stages, before.services))
      && (after.stages != [] ==> after.progress == StagePercent(after.stages, after.status))
      && (stages == [] ==> after.progress == if after.status == Succeeded then 100 else 10)
      && after.current == (if before.services == [] then RunningName(stages, names)
           else if after.status == Succeeded then "" else Current(after.stages))
    case FullLog(logs, services) =>
      var shown := MarkerFold.EndedAll(MarkerFold.Folded(MarkerFold.Events(logs, services)), after.status);
      && after.stages == (if before.services == [] then shown else Kept(shown, before.services))
      && (before.services != [] && after.stages != [] ==> after.progress == StagePercent(after.stages, after.status))
      && after.current == (if before.services != [] && after.status == Succeeded then "" else Current(after.stages))
  }

  lemma StagedShows(build: Build, plain: int, view: StageAnswer, after: Build)
    requires view.StageView? ==> |view.stages| == |view.names|
    requires build.progress == plain && (build.status == Succeeded ==> plain == 100)
    requires var staged := Staged(build, view); after == if staged.status == Succeeded then staged.(progress := 100) else staged
    ensures Shows(build, plain, view, after)
  {
    match view
    case NothingKnown =>
    case StageView(stages, names) =>
      var all := Described(stages, names, build.status);
      FilteredShows(all, build.services, build.status);
    case FullLog(logs, services) =>
      FilteredShows(Logged(logs, services, build.status), build.services, build.status);
  }

  lemma FilteredShows(all: View, services: seq<string>, status: BuildStatus)
    ensures var view := Filtered(all, services, status);
      && view.stages == (if services == [] then all.stages else Kept(all.stages, services))
      && (services != [] && view.stages != [] ==> view.progress == StagePercent(view.stages, status))
      && (services == [] || view.stages == [] ==> view.progress == all.progress)
      && view.current == (if services == [] then all.current else if status == Succeeded then "" else Current(view.stages))
  {
  }

  /** The record before its stages are looked at. */
  lemma HeardMeans(build: Build, a: Answers) returns (looked: Build)
    requires WellFormed(a) && Heard(build, a)
    ensures var staged := Staged(looked, a.view);
      Refreshed(build, a) == if staged.status == Succeeded then staged.(progress := 100) else staged
    ensures looked.progress == PlainPercent(build, a) && (looked.status == Succeeded ==> looked.progress == 100)
    ensures looked == build.(number := looked.number, status := looked.status, progress := looked.progress)
  {
    looked := if build.number == 0 then Dequeued(build, a.queue).value else Ran(build, a.run).value;
  }

  lemma UnheardShows(build: Build, a: Answers)
    requires WellFormed(a) && !Heard(build, a)
    ensures Refreshed(build, a).stages == build.stages && Refreshed(build, a).current == build.current
  {
  }

  lemma SameShows(looked: Build, before: Build, plain: int, view: StageAnswer, after: Build)
    requires view.StageView? ==> |view.stages| == |view.names|
    requires looked == before.(number := looked.number, status := looked.status, progress := looked.progress)
    ensures Shows(looked, plain, view, after) == Shows(before, plain, view, after)
  {
  }

  /** What a refresh shows. Without an answer about a started build nothing of it changes. */
  lemma RefreshShows(build: Build, a: Answers)
    requires WellFormed(a)
    ensures Heard(build, a) ==> Shows(build, PlainPercent(build, a), a.view, Refreshed(build, a))
    ensures !Heard(build, a) ==> Refreshed(build, a).stages == build.stages && Refreshed(build, a).current == build.current
  {
    if Heard(build, a) {
      var looked := HeardMeans(build, a);
      StagedShows(looked, PlainPercent(build, a), a.view, Refreshed(build, a));
      SameShows(looked, build, PlainPercent(build, a), a.view, Refreshed(build, a));
    } else {
      UnheardShows(build, a);
    }
  }

  /** Jenkins said in this step that the build ended like this, and the answer was saved. */
  predicate Answered(s: Step, results: set<Result>) {
    && s.Refresh? && s.saved && s.answers.reachable
    && ((s.answers.run.Completed? && s.answers.run.result in results)
        || (s.answers.queue.Expired? && s.answers.queue.run.Completed? && s.answers.queue.run.result in results))
  }

  lemma StepIsAnswered(build: Build, s: Step)
    requires s.Refresh? ==> WellFormed(s.answers)
    ensures var after := Apply(build, s);
      && (after.status == Succeeded ==> build.status == Succeeded || Answered(s, {Success}))
      && (after.status == Failed ==> build.status == Failed || Answered(s, {Failure, Unstable}))
      && (after.status == Unknown ==> build.status == Unknown || Answered(s, {NoResult}))
  {
    if s.Refresh? {
      RefreshReports(build, s.answers);
    }
  }

  lemma {:induction false} StatusIsAnswered(build: Build, steps: seq<Step>)
    requires WellFormedRun(steps)
    ensures var after := After(build, steps);
      && (after.status == Succeeded ==> build.status == Succeeded || exists s | s in steps :: Answered(s, {Success}))
      && (after.status == Failed ==> build.status == Failed || exists s | s in steps :: Answered(s, {Failure, Unstable}))
      && (after.status == Unknown ==> build.status == Unknown || exists s | s in steps :: Answered(s, {NoResult}))
    decreases |steps|
  {
    if steps != [] {
      assert steps[0] in steps;
      StepIsAnswered(build, steps[0]);
      StatusIsAnswered(Apply(build, steps[0]), steps[1..]);
    }
  }

  /** Over the whole life of a build: it is shown as succeeded, or as failed, only if Jenkins said so in an answer that
      was saved. */
  lemma OutcomeIsJenkins(services: seq<string>, steps: seq<Step>)
    requires WellFormedRun(steps)
    ensures After(Triggered(services), steps).status == Succeeded ==> exists s | s in steps :: Answered(s, {Success})
    ensures After(Triggered(services), steps).status == Failed ==> exists s | s in steps :: Answered(s, {Failure, Unstable})
  {
    StatusIsAnswered(Triggered(services), steps);
  }

  // ---------------------------------------------------------------- what the stages show

  /** The kept stages are a filter: piece by piece, by the trimmed lower-case name of the service. */
  lemma {:induction false} KeptIsAFilter(before: seq<Stage>, after: seq<Stage>, stage: Stage, services: seq<string>)
    ensures Kept(before + after, services) == Kept(before, services) + Kept(after, services)
    ensures Kept([stage], services) == if stage.service == "" || Lower(Trim(stage.service)) in services then [stage] else []
    decreases |after|
  {
    assert [stage][..0] == [] && Kept([], services) == [];
    if after == [] {
      assert before + after == before;
    } else {
      var n := |after| - 1;
      assert (before + after)[..|before| + n] == before + after[..n];
      KeptIsAFilter(before, after[..n], stage, services);
    }
  }

  /** The first running stage with a name. */
  lemma {:induction false} CurrentIsFirst(stages: seq<Stage>) returns (i: nat)
    ensures i <= |stages| && forall k | 0 <= k < i :: stages[k].status == InProgress ==> Label(stages[k]) == ""
    ensures i == |stages| ==> Current(stages) == ""
    ensures i < |stages| ==> stages[i].status == InProgress && Current(stages) == Label(stages[i]) != ""
  {
    if stages == [] {
      i := 0;
    } else {
      i := CurrentIsFirst(stages[..|stages| - 1]);
      if i == |stages| - 1 && !(stages[i].status == InProgress && Label(stages[i]) != "") {
        i := |stages|;
      }
    }
  }

  lemma {:induction false} RunningNameIsFirst(stages: seq<Stage>, names: seq<string>) returns (i: nat)
    requires |names| == |stages|
    ensures i <= |stages| && forall k | 0 <= k < i :: stages[k].status == InProgress ==> names[k] == ""
    ensures i == |stages| ==> RunningName(stages, names) == ""
    ensures i < |stages| ==> stages[i].status == InProgress && RunningName(stages, names) == names[i] != ""
  {
    if stages == [] {
      i := 0;
    } else {
      i := RunningNameIsFirst(stages[..|stages| - 1], names[..|stages| - 1]);
      if i == |stages| - 1 && !(stages[i].status == InProgress && names[i] != "") {
        i := |stages|;
      }
    }
  }

  /** The percentage is the share of the stages that ended, a running one counting 0.35, rounded down. */
  lemma PercentIsShare(stages: seq<Stage>)
    requires stages != []
    ensures var share := 100 * |Which(stages, {Passed, Broken, Stopped, Skipped})| + 35 * |Which(stages, {InProgress})|;
      Percent(stages) * |stages| <= share < (Percent(stages) + 1) * |stages|
  {
    DoneCounts(stages);
    MarkerFold.QuotientBrackets(Done(stages), |stages|);
  }

  // ---------------------------------------------------------------- progress goes up

  /** The same stages, none of which went back. */
  predicate Advances(before: seq<Stage>, after: seq<Stage>) {
    Forward(before, after) && forall i | 0 <= i < |before| :: before[i].service == after[i].service
  }

  lemma {:induction false} KeptAdvances(before: seq<Stage>, after: seq<Stage>, services: seq<string>)
    requires Advances(before, after)
    ensures Advances(Kept(before, services), Kept(after, services))
  {
    if before != [] {
      var n := |before| - 1;
      KeptAdvances(before[..n], after[..n], services);
    }
  }

  lemma QuotientGrows(x: nat, y: nat, d: nat)
    requires d > 0 && x <= y
    ensures MarkerFold.Quotient(x, d) <= MarkerFold.Quotient(y, d)
  {
    MarkerFold.QuotientBrackets(x, d);
    MarkerFold.QuotientBrackets(y, d);
    MarkerFold.SmallerFactor(MarkerFold.Quotient(x, d), MarkerFold.Quotient(y, d) + 1, d);
  }

  /** Moving stages forward never lowers the computed percentage. */
  lemma PercentNeverFalls(before: seq<Stage>, after: seq<Stage>, services: seq<string>)
    requires Advances(before, after) && Kept(before, services) != []
    ensures Kept(after, services) != [] && Percent(Kept(before, services)) <= Percent(Kept(after, services))
  {
    KeptAdvances(before, after, services);
    ForwardDoesMore(Kept(before, services), Kept(after, services));
    QuotientGrows(Done(Kept(before, services)), Done(Kept(after, services)), |Kept(before, services)|);
  }

  /** The percentage shown while a build runs falls in exactly one case: all stages are done, so 95 is shown, and more
      than 95 was shown before. */
  lemma ShownFallsOnlyAtTheEnd(before: View, after: View, services: seq<string>)
    requires Advances(before.stages, after.stages) && services != [] && Kept(before.stages, services) != []
    ensures Kept(after.stages, services) != []
    ensures Filtered(after, services, Running).progress < Filtered(before, services, Running).progress
       <==> Percent(Kept(after.stages, services)) == 100 && 95 < Percent(Kept(before.stages, services)) < 100
  {
    PercentNeverFalls(before.stages, after.stages, services);
  }

  lemma FewStagesAreCoarse(done: nat, n: nat)
    requires 0 < n <= 16 && done <= 100 * n - 65
    ensures MarkerFold.Quotient(done, n) <= 95
  {
    MarkerFold.QuotientBrackets(done, n);
    MarkerFold.SmallerFactor(MarkerFold.Quotient(done, n), 96, n);
  }

  lemma {:induction false} OneShort(stages: seq<Stage>)
    requires Done(stages) < 100 * |stages|
    ensures Done(stages) <= 100 * |stages| - 65
  {
    if stages != [] {
      var front := stages[..|stages| - 1];
      DoneIsAtMostAll(front);
      if Done(front) < 100 * |front| {
        OneShort(front);
      }
    }
  }

  lemma FullPercentIsAllDone(stages: seq<Stage>)
    requires stages != []
    ensures Percent(stages) == 100 <==> Done(stages) == 100 * |stages|
  {
    var n := |stages|;
    DoneIsAtMostAll(stages);
    MarkerFold.QuotientBrackets(Done(stages), n);
    if Done(stages) == 100 * n {
      MarkerFold.SmallerFactor(100, Percent(stages) + 1, n);
    }
  }

  /** With at most 16 stages the percentage a running build shows never falls. */
  lemma SmallBuildsNeverFall(before: View, after: View, services: seq<string>)
    requires Advances(before.stages, after.stages) && services != []
    requires 0 < |Kept(before.stages, services)| <= 16
    ensures Filtered(before, services, Running).progress <= Filtered(after, services, Running).progress
  {
    var kept := Kept(before.stages, services);
    ShownFallsOnlyAtTheEnd(before, after, services);
    FullPercentIsAllDone(kept);
    DoneIsAtMostAll(kept);
    if Done(kept) < 100 * |kept| {
      OneShort(kept);
      FewStagesAreCoarse(Done(kept), |kept|);
    }
  }

  lemma {:induction false} PassedAreDone(n: nat, stage: Stage)
    requires stage.status == Passed && stage.service == ""
    ensures Done(seq(n, i => stage)) == 100 * n && Kept(seq(n, i => stage), ["a"]) == seq(n, i => stage)
  {
    if n > 0 {
      assert seq(n, i => stage)[..n - 1] == seq(n - 1, i => stage);
      PassedAreDone(n - 1, stage);
    }
  }

  lemma OneMoreStage(stages: seq<Stage>, stage: Stage)
    requires stage.service == "" && Kept(stages, ["a"]) == stages
    ensures Done(stages + [stage]) == Done(stages) + Weight(stage.status)
    ensures Kept(stages + [stage], ["a"]) == stages + [stage]
  {
    assert (stages + [stage])[..|stages|] == stages;
  }

  /** The percentage a running build shows falls although no stage goes back. */
  ghost predicate Falls(before: View, after: View, services: seq<string>) {
    && Advances(before.stages, after.stages)
    && Filtered(after, services, Running).progress < Filtered(before, services, Running).progress
  }

  /** Seventeen stages are enough: 96 percent with the last one running, 95 when it has passed too. */
  lemma SeventeenStagesFall()
    ensures exists before: View, after: View :: |before.stages| == 17 && Falls(before, after, ["a"])
  {
    var passed, running := Stage("s", "", "build", Passed), Stage("s", "", "build", InProgress);
    var sixteen := seq(16, i => passed);
    PassedAreDone(16, passed);
    OneMoreStage(sixteen, running);
    OneMoreStage(sixteen, passed);
    var before, after := View(sixteen + [running], 0, ""), View(sixteen + [passed], 0, "");
    assert MarkerFold.Quotient(1635, 17) == 96 && MarkerFold.Quotient(1700, 17) == 100;
    assert Percent(before.stages) == 96 && Percent(after.stages) == 100;
    assert |before.stages| == 17 && Falls(before, after, ["a"]);
  }

  // ---------------------------------------------------------------- the service

  /** The build records of the service. */
  class Builds {
    var records: map<string, Build>

    ghost predicate Valid()
      reads this
    {
      forall id | id in records :: Truthful(records[id])
    }

    constructor ()
      ensures Valid() && records == map[]
    {
      records := map[];
    }

    /** The last step of `TriggerBuild`. */
    method Trigger(id: string, services: seq<string>)
      requires Valid()
      modifies this
      ensures Valid() && records == old(records)[id := Triggered(services)]
      ensures records[id] == Build(0, Queued, 5, services, [], "")
    {
      records := records[id := Build(0, Queued, 5, services, [], "")];
    }

    /** `refreshBuild`: ask Jenkins, recompute the stages, save. */
    method RefreshBuild(id: string, a: Answers, saved: bool)
      requires Valid() && id in records && IsRefreshed(records[id]) && WellFormed(a)
      modifies this
      ensures Valid()
      ensures records == old(records)[id := Apply(old(records)[id], Refresh(a, saved))]
      ensures !saved || !a.reachable ==> records == old(records)
      ensures saved && a.reachable && old(records)[id].number != 0 ==>
        && Reports(old(records)[id], a.run, records[id]) && records[id].number == old(records)[id].number
      ensures saved && a.reachable && old(records)[id].number == 0 ==> LeavesQueue(old(records)[id], a.queue, records[id])
      ensures records[id].services == old(records)[id].services
      ensures saved && Heard(old(records)[id], a) ==> Shows(old(records)[id], PlainPercent(old(records)[id], a), a.view, records[id])
    {
      var build := records[id];
      RefreshReports(build, a);
      RefreshShows(build, a);
      RefreshIsTruthful(build, a);
      var refreshed := LookAgain(build, a);
      if saved {
        records := records[id := refreshed];
      }
    }

    /** What Jenkins says about a build. */
    method LookAgain(before: Build, a: Answers) returns (build: Build)
      requires WellFormed(a)
      ensures build == Refreshed(before, a)
    {
      var looked := None;
      if a.reachable {
        looked := if before.number == 0 then Dequeued(before, a.queue) else Ran(before, a.run);
      }
      if looked.None? {
        return before;
      }
      build := looked.value;
      if build.number > 0 {
        build := TakeStages(build, a.view);
      }
      if build.status == Succeeded {
        build := build.(progress := 100);
      }
    }

    /** The stages of a started build, from the stage view or else from the log. */
    method TakeStages(build: Build, view: StageAnswer) returns (staged: Build)
      requires view.StageView? ==> |view.stages| == |view.names|
      ensures staged == Staged(build, view)
    {
      match view
      case StageView(stages, names) =>
        var described := StageProgress(stages, names, build.status);
        var shown := FilterBuildStages(described, build.services, build.status);
        return WithView(build, shown);
      case FullLog(logs, services) =>
        var stages, progress, current := MarkerFold.MarkerProgress(logs, services, build.status);
        var shown := FilterBuildStages(View(stages, progress, current), build.services, build.status);
        return WithView(build, shown);
      case NothingKnown =>
        return build;
    }

    /** `ListBuilds` refreshes every build that is queued or runs, and no other. */
    method ListBuilds(ids: seq<string>, answers: seq<Answers>, saves: seq<bool>)
      requires Valid() && |answers| == |ids| == |saves| && (forall i | 0 <= i < |ids| :: ids[i] in records && WellFormed(answers[i]))
      requires forall i, j | 0 <= i < j < |ids| :: ids[i] != ids[j]
      modifies this
      ensures Valid() && records.Keys == old(records).Keys
      ensures forall id | id in records && id !in ids :: records[id] == old(records)[id]
      ensures forall i | 0 <= i < |ids| :: records[ids[i]] == Listed(old(records)[ids[i]], answers[i], saves[i])
    {
      ghost var before := records;
      ghost var listed := seq(|ids|, k requires 0 <= k < |ids| => Listed(before[ids[k]], answers[k], saves[k]));
      var i := 0;
      while i < |ids|
        invariant 0 <= i <= |ids| && Valid() && Written(before, records, ids, listed, i)
      {
        ghost var now := records;
        assert ids[i] !in ids[..i];
        ListOne(ids[i], answers[i], saves[i]);
        WrittenNext(before, now, records, ids, listed, i);
        i := i + 1;
      }
      assert ids[..i] == ids;
    }

    method ListOne(id: string, a: Answers, saved: bool)
      requires Valid() && id in records && WellFormed(a)
      modifies this
      ensures Valid() && records == old(records)[id := Listed(old(records)[id], a, saved)]
    {
      if records[id].status == Queued || records[id].status == Running {
        RefreshBuild(id, a, saved);
      }
    }

    /** `CancelBuild` marks the record once Jenkins has accepted the stop. */
    method CancelBuild(id: string, accepted: bool, saved: bool) returns (canceled: bool)
      requires Valid() && id in records
      modifies this
      ensures Valid() && records == old(records)[id := Apply(old(records)[id], Cancel(accepted, saved))]
      ensures canceled <==> accepted && saved
      ensures records == if canceled then old(records)[id := old(records)[id].(status := Canceled)] else old(records)
    {
      if !accepted {
        return false;
      }
      if !saved {
        return false;
      }
      records := records[id := records[id].(status := Canceled)];
      return true;
    }
  }
}
