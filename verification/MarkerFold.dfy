/** `markerProgress` of internal/cicd/service.go: build stages read from the markers in a build log. */
module MarkerFold {
  import opened Options
  import opened Documents
  import opened Texts
  import opened Stages

  // ---------------------------------------------------------------- one line

  datatype Report = Report(service: string, kind: string, status: StageStatus)

  function StageName(kind: string): string {
    if kind == "checkout" then "检出源码"
    else if kind == "build" then "编译与测试"
    else if kind == "image" then "构建镜像"
    else if kind == "deploy" then "部署到 Kubernetes"
    else kind
  }

  function MarkerStatus(value: string): StageStatus {
    var text := Lower(Trim(value));
    if text in ["success", "succeeded"] then Passed
    else if text in ["failure", "failed"] then Broken
    else if text in ["canceled", "cancelled", "aborted"] then Stopped
    else InProgress
  }

  /** The marker in a line, if there is one. */
  function ReadMarker(line: string): (report: Option<Report>)
    ensures report.Some? ==> IsKey(report.value.service)
  {
    var place := IndexFrom(line, "@@OPS_STAGE|", 0);
    if place < 0 then None
    else
      var parts := Split(Trim(line[place..]), '|');
      if |parts| < 4 || !IsKey(Lower(Trim(parts[1]))) then None
      else Some(Report(Lower(Trim(parts[1])), Lower(Trim(parts[2])), MarkerStatus(parts[3])))
  }

  // ---------------------------------------------------------------- what a marker line means

  /** The words for a status, in any case and between blanks; every other word says that the stage runs. */
  lemma StatusWords(word: string)
    ensures var text := Lower(Trim(word));
      && (MarkerStatus(word) == Passed <==> text == "success" || text == "succeeded")
      && (MarkerStatus(word) == Broken <==> text == "failure" || text == "failed")
      && (MarkerStatus(word) == Stopped <==> text == "canceled" || text == "cancelled" || text == "aborted")
      && MarkerStatus(word) in {Passed, Broken, Stopped, InProgress}
  {
    var text := Lower(Trim(word));
    WordsDiffer(text);
  }

  /** The names the kinds of stages are shown by. */
  lemma StageNamesAre(kind: string)
    ensures StageName("checkout") == "检出源码" && StageName("build") == "编译与测试"
    ensures StageName("image") == "构建镜像" && StageName("deploy") == "部署到 Kubernetes"
    ensures kind !in {"checkout", "build", "image", "deploy"} ==> StageName(kind) == kind
  {
  }

  lemma WordsDiffer(text: string)
    ensures text in ["success", "succeeded"] <==> text == "success" || text == "succeeded"
    ensures text in ["failure", "failed"] <==> text == "failure" || text == "failed"
    ensures text in ["canceled", "cancelled", "aborted"] <==> text == "canceled" || text == "cancelled" || text == "aborted"
    ensures text == "success" || text == "succeeded" ==> text[0] == 's'
    ensures text == "failure" || text == "failed" ==> text[0] == 'f'
    ensures text == "canceled" || text == "cancelled" || text == "aborted" ==> text[0] == 'c' || text[0] == 'a'
  {
  }

  /** A field of a marker: nothing that would end it or be trimmed off. */
  predicate IsField(text: string) { '|' !in text && Trimmed(text) && Lower(text) == text }

  /** Written behind any text, a marker reads back. */
  lemma MarkerReadsBack(before: string, service: string, kind: string, status: string)
    requires IsKey(service) && IsField(kind) && IsField(status) && status != ""
    requires forall k | 0 <= k < |before| :: !OccursAt(before + Marker(service, kind, status), "@@OPS_STAGE|", k)
    ensures ReadMarker(before + Marker(service, kind, status)) == Some(Report(service, kind, MarkerStatus(status)))
  {
    var marker := Marker(service, kind, status);
    var line := before + marker;
    assert line[|before|..] == marker && marker[..12] == "@@OPS_STAGE|";
    assert line[|before|..|before| + 12] == "@@OPS_STAGE|" && OccursAt(line, "@@OPS_STAGE|", |before|);
    IndexIsFirst(line, "@@OPS_STAGE|", 0);
    MarkerParts(service, kind, status);
    KeyIsField(service);
  }

  function Marker(service: string, kind: string, status: string): string {
    "@@OPS_STAGE|" + service + "|" + kind + "|" + status
  }

  lemma MarkerParts(service: string, kind: string, status: string)
    requires '|' !in service && IsField(kind) && IsField(status) && status != ""
    ensures Trim(Marker(service, kind, status)) == Marker(service, kind, status)
    ensures Split(Marker(service, kind, status), '|') == ["@@OPS_STAGE", service, kind, status]
  {
    MarkerIsTrimmed("@@OPS_STAGE|" + service + "|" + kind + "|", status);
    var tag := "@@OPS_STAGE";
    assert tag + ['|'] == "@@OPS_STAGE|";
    assert Marker(service, kind, status) == tag + ['|'] + (service + ['|'] + (kind + ['|'] + status));
    FourParts(tag, service, kind, status);
  }

  lemma MarkerIsTrimmed(front: string, status: string)
    requires front != "" && front[0] == '@' && status != "" && Trimmed(status)
    ensures Trim(front + status) == front + status
  {
    assert (front + status)[|front + status| - 1] == status[|status| - 1];
  }

  lemma FourParts(a: string, b: string, c: string, d: string)
    requires '|' !in a && '|' !in b && '|' !in c && '|' !in d
    ensures Split(a + ['|'] + (b + ['|'] + (c + ['|'] + d)), '|') == [a, b, c, d]
  {
    SplitUndoesJoin(d, '|', "");
    SplitUndoesJoin(c, '|', d);
    SplitUndoesJoin(b, '|', c + ['|'] + d);
    SplitUndoesJoin(a, '|', b + ['|'] + (c + ['|'] + d));
  }

  lemma KeyIsField(service: string)
    requires IsKey(service)
    ensures IsField(service)
  {
    assert forall i | 0 <= i < |service| :: LowerAlphanumeric(service[i]) || service[i] == '-';
    var lower := Lower(service);
    assert forall i | 0 <= i < |service| :: lower[i] == service[i];
    assert lower == service;
  }

  lemma OtherLinesSayNothing(line: string)
    requires !Contains(line, "@@OPS_STAGE|")
    ensures ReadMarker(line) == None
  {
    var place := IndexFrom(line, "@@OPS_STAGE|", 0);
    assert place >= 0 ==> place + 12 <= |line|;
  }

  function StageOf(report: Report): Stage {
    Stage(StageName(report.kind), report.service, report.kind, report.status)
  }

  function StageKey(service: string, kind: string): string { service + "/" + kind }

  lemma FirstSlash(service: string, kind: string)
    requires IsKey(service)
    ensures var key := StageKey(service, kind);
      && key[|service|] == '/' && (forall i | 0 <= i < |service| :: key[i] != '/')
      && key[..|service|] == service && key[|service| + 1..] == kind
  {
  }

  /** Different stages never share a key, because no service key contains a slash. */
  lemma KeysAreDistinct(a: Report, b: Report)
    requires IsKey(a.service) && IsKey(b.service)
    requires StageKey(a.service, a.kind) == StageKey(b.service, b.kind)
    ensures a.service == b.service && a.kind == b.kind
  {
    FirstSlash(a.service, a.kind);
    FirstSlash(b.service, b.kind);
    assert |a.service| == |b.service|;
  }

  // ---------------------------------------------------------------- the specification

  /** The reports of a log, in order. */
  function Reports(lines: seq<string>): (reports: seq<Report>)
    ensures forall r | r in reports :: IsKey(r.service)
  {
    if lines == [] then []
    else
      var before, last := Reports(lines[..|lines| - 1]), ReadMarker(lines[|lines| - 1]);
      if last.None? then before else before + [last.value]
  }

  /** Line by line, nothing else. */
  lemma {:induction false} ReportsLineByLine(before: seq<string>, after: seq<string>, line: string)
    ensures Reports(before + after) == Reports(before) + Reports(after)
    ensures Reports([line]) == if ReadMarker(line).Some? then [ReadMarker(line).value] else []
    decreases |after|
  {
    assert [line][..0] == [] && Reports([]) == [];
    if after == [] {
      assert before + after == before;
    } else {
      var n := |after| - 1;
      assert (before + after)[..|before| + n] == before + after[..n];
      ReportsLineByLine(before, after[..n], line);
    }
  }

  /** What happens to a stage: it is reported, or it is taken to run unless it is known already. */
  datatype Event = Reported(key: string, stage: Stage) | Presumed(key: string, stage: Stage)

  function ReportEvents(reports: seq<Report>): (events: seq<Event>)
    ensures |events| == |reports|
    ensures forall i | 0 <= i < |reports| ::
      events[i] == Reported(StageKey(reports[i].service, reports[i].kind), StageOf(reports[i]))
  {
    if reports == [] then []
    else
      var last := reports[|reports| - 1];
      ReportEvents(reports[..|reports| - 1]) + [Reported(StageKey(last.service, last.kind), StageOf(last))]
  }

  /** The keys seen, in the order of their first appearance. */
  function Seen(events: seq<Event>): seq<string> {
    if events == [] then []
    else
      var before, key := Seen(events[..|events| - 1]), events[|events| - 1].key;
      if key in before then before else before + [key]
  }

  /** The last stage reported under a key; a presumption only counts where nothing was known. */
  function LastStage(events: seq<Event>, key: string): Option<Stage> {
    if events == [] then None
    else
      var before, event := LastStage(events[..|events| - 1], key), events[|events| - 1];
      if event.key != key || (event.Presumed? && before.Some?) then before else Some(event.stage)
  }

  lemma {:induction false} SeenIsWhatHasAStage(events: seq<Event>, key: string)
    ensures key in Seen(events) <==> LastStage(events, key).Some?
    ensures key in Seen(events) <==> exists i | 0 <= i < |events| :: events[i].key == key
  {
    if events != [] {
      var front := events[..|events| - 1];
      SeenIsWhatHasAStage(front, key);
      if key in Seen(front) {
        var i :| 0 <= i < |front| && front[i].key == key;
        assert events[i].key == key;
      }
      if i :| 0 <= i < |events| && events[i].key == key {
        assert i < |front| ==> front[i].key == key;
      }
    }
  }

  predicate Distinct(keys: seq<string>) {
    forall i, j | 0 <= i < j < |keys| :: keys[i] != keys[j]
  }

  lemma {:induction false} SeenOnce(events: seq<Event>)
    ensures Distinct(Seen(events))
  {
    if events != [] {
      SeenOnce(events[..|events| - 1]);
    }
  }

  /** One key was seen before the other ever was. */
  ghost predicate Precedes(events: seq<Event>, a: string, b: string) {
    exists k | 0 <= k < |events| :: events[k].key == a && NotSeenBefore(events, b, k)
  }

  predicate NotSeenBefore(events: seq<Event>, key: string, k: nat)
    requires k < |events|
  {
    forall m | 0 <= m <= k :: events[m].key != key
  }

  /** First-appearance order: of two keys, the one that comes first was seen before the other ever was. */
  lemma {:induction false} SeenInOrder(events: seq<Event>, i: nat, j: nat)
    requires i < j < |Seen(events)|
    ensures Precedes(events, Seen(events)[i], Seen(events)[j])
  {
    var front, a, b := events[..|events| - 1], Seen(events)[i], Seen(events)[j];
    var k: nat;
    if j < |Seen(front)| {
      SeenInOrder(front, i, j);
      k :| k < |front| && front[k].key == a && NotSeenBefore(front, b, k);
    } else {
      SeenIsWhatHasAStage(front, a);
      SeenIsWhatHasAStage(front, b);
      k :| k < |front| && front[k].key == a;
      assert forall m | 0 <= m < |front| :: front[m].key != b;
    }
    assert events[k].key == a;
    forall m | 0 <= m <= k ensures events[m].key != b {
      assert front[m] == events[m];
    }
    assert NotSeenBefore(events, b, k);
  }

  /** A stage carries the status of the last report about it. */
  lemma {:induction false} LastReportWins(events: seq<Event>, i: nat)
    requires i < |events| && events[i].Reported?
    requires forall j | i < j < |events| :: events[j].key == events[i].key ==> events[j].Presumed?
    ensures LastStage(events, events[i].key) == Some(events[i].stage)
  {
    if i < |events| - 1 {
      var front := events[..|events| - 1];
      assert front[i] == events[i];
      LastReportWins(front, i);
    }
  }

  /** One stage per key, in the order of first appearance. */
  function Folded(events: seq<Event>): (stages: seq<Stage>)
    ensures |stages| == |Seen(events)|
    ensures forall i | 0 <= i < |stages| :: LastStage(events, Seen(events)[i]) == Some(stages[i])
  {
    var keys := Seen(events);
    seq(|keys|, i requires 0 <= i < |keys| => SeenStage(events, keys[i]))
  }

  function SeenStage(events: seq<Event>, key: string): (stage: Stage)
    requires key in Seen(events)
    ensures LastStage(events, key) == Some(stage)
  {
    SeenIsWhatHasAStage(events, key);
    LastStage(events, key).value
  }

  predicate SameStage(a: Report, b: Report) { a.service == b.service && a.kind == b.kind }

  lemma LastIsFolded(events: seq<Event>, i: nat)
    requires i < |events| && events[i].Reported?
    requires forall k | i < k < |events| :: events[k].key != events[i].key
    ensures events[i].stage in Folded(events)
  {
    LastReportWins(events, i);
    SeenIsWhatHasAStage(events, events[i].key);
    var at :| 0 <= at < |Seen(events)| && Seen(events)[at] == events[i].key;
    assert Folded(events)[at] == events[i].stage;
  }

  /** The last report about a service and kind is what its stage shows; reports about others never interfere. */
  lemma LastReportIsShown(reports: seq<Report>, i: nat)
    requires i < |reports| && forall r | r in reports :: IsKey(r.service)
    requires forall k | i < k < |reports| :: !SameStage(reports[k], reports[i])
    ensures StageOf(reports[i]) in Folded(ReportEvents(reports))
  {
    var events := ReportEvents(reports);
    forall k | i < k < |events| ensures events[k].key != events[i].key {
      assert reports[k] in reports && reports[i] in reports;
      if events[k].key == events[i].key {
        KeysAreDistinct(reports[k], reports[i]);
      }
    }
    LastIsFolded(events, i);
  }

  /** Where a stage that was only ever reported comes from. */
  lemma {:induction false} LastStageOrigin(events: seq<Event>, key: string) returns (i: nat)
    requires LastStage(events, key).Some? && forall e | e in events :: e.Reported?
    ensures i < |events| && events[i].key == key && Some(events[i].stage) == LastStage(events, key)
    ensures forall k | i < k < |events| :: events[k].key != key
  {
    var front, last := events[..|events| - 1], events[|events| - 1];
    assert last in events;
    if last.key == key {
      i := |front|;
    } else {
      i := LastStageOrigin(front, key);
    }
  }

  /** The report a stage comes from: the last one about its service and kind. */
  ghost predicate IsSource(reports: seq<Report>, i: nat, stage: Stage) {
    && i < |reports| && stage == StageOf(reports[i])
    && forall k | i < k < |reports| :: !SameStage(reports[k], reports[i])
  }

  /** No stage is made up, and none is shown twice: it is the last report about its service and kind. */
  lemma ShownIsLastReport(reports: seq<Report>, j: nat)
    requires j < |Folded(ReportEvents(reports))|
    ensures exists i :: IsSource(reports, i, Folded(ReportEvents(reports))[j])
    ensures forall other | 0 <= other < |Folded(ReportEvents(reports))| && other != j ::
      Seen(ReportEvents(reports))[other] != Seen(ReportEvents(reports))[j]
  {
    var events := ReportEvents(reports);
    SeenOnce(events);
    var i := LastStageOrigin(events, Seen(events)[j]);
    forall k | i < k < |reports| ensures !SameStage(reports[k], reports[i]) {
      assert events[k].key != events[i].key;
    }
    assert IsSource(reports, i, Folded(events)[j]);
  }

  // ---------------------------------------------------------------- the begin of a deployment

  const BEGIN := "@@OPS_DEPLOY_BEGIN"

  /** Whether the deployment that began concerns a service. */
  predicate Deploys(logs: string, service: string, events: seq<Event>) {
    StageKey(service, "checkout") in Seen(events) || Contains(logs, "@@OPS_DEPLOY|" + service + "|")
  }

  function DeployEvent(service: string): Event {
    Presumed(StageKey(service, "deploy"), Stage("更新部署清单", service, "deploy", InProgress))
  }

  /** The reports followed by the deploy stages that began without a report. */
  function WithDeploys(logs: string, services: seq<string>, events: seq<Event>): seq<Event> {
    if services == [] then events
    else
      var before, service := WithDeploys(logs, services[..|services| - 1], events), services[|services| - 1];
      if Deploys(logs, service, before) then before + [DeployEvent(service)] else before
  }

  predicate Begins(logs: string, service: string, events: seq<Event>) {
    (exists i | 0 <= i < |events| :: events[i].key == service + "/checkout") || Contains(logs, "@@OPS_DEPLOY|" + service + "|")
  }

  /** The deploy stage of a service that was not reported. */
  function PresumedDeploy(service: string): Event {
    Presumed(service + "/deploy", Stage("更新部署清单", service, "deploy", InProgress))
  }

  /** Behind the reports stand the deploy stages of exactly the services of the job that ran or are named in the log. */
  lemma {:induction false} DeploysAreAdded(logs: string, services: seq<string>, events: seq<Event>, service: string)
    ensures var all := WithDeploys(logs, services, events);
      && events <= all && (forall e | e in all[|events|..] :: e == PresumedDeploy(e.stage.service))
      && (PresumedDeploy(service) in all[|events|..] <==> service in services && Begins(logs, service, events))
  {
    if services != [] {
      var n := |services| - 1;
      var before, last := WithDeploys(logs, services[..n], events), services[n];
      DeploysAreAdded(logs, services[..n], events, service);
      assert services == services[..n] + [last];
      DeploysIsBegins(logs, last, events, before);
      DeployIsAdded(before, events, last, Deploys(logs, last, before), WithDeploys(logs, services, events), service);
    }
  }

  lemma DeployIsAdded(before: seq<Event>, events: seq<Event>, last: string, begins: bool, all: seq<Event>, service: string)
    requires events <= before && all == if begins then before + [DeployEvent(last)] else before
    ensures events <= all && all[|events|..] == before[|events|..] + if begins then [PresumedDeploy(last)] else []
    ensures PresumedDeploy(service) == PresumedDeploy(last) ==> service == last
  {
    assert DeployEvent(last) == PresumedDeploy(last) by {
      assert StageKey(last, "deploy") == last + "/deploy";
    }
  }

  lemma DeploysIsBegins(logs: string, service: string, events: seq<Event>, before: seq<Event>)
    requires events <= before && forall e | e in before[|events|..] :: e == PresumedDeploy(e.stage.service)
    ensures Deploys(logs, service, before) <==> Begins(logs, service, events)
  {
    var key := service + "/checkout";
    SeenIsWhatHasAStage(before, key);
    assert key == StageKey(service, "checkout");
    forall i | |events| <= i < |before| ensures before[i].key != key {
      var other := before[|events|..][i - |events|];
      assert other in before[|events|..];
      var k := other.stage.service + "/deploy";
      assert k[|k| - 1] == 'y' && key[|key| - 1] == 't';
    }
    assert forall i | 0 <= i < |events| :: before[i] == events[i];
  }

  lemma EventsAre(logs: string, services: seq<string>)
    ensures var reported := ReportEvents(Reports(Split(logs, '\n')));
      Events(logs, services) == if Contains(logs, "@@OPS_DEPLOY_BEGIN") then WithDeploys(logs, services, reported) else reported
  {
  }

  function Events(logs: string, services: seq<string>): seq<Event> {
    var reported := ReportEvents(Reports(Split(logs, '\n')));
    if Contains(logs, BEGIN) then WithDeploys(logs, services, reported) else reported
  }

  // ---------------------------------------------------------------- status and percentage

  /** A stage that still runs when the build has failed or was canceled ended with it. */
  function Ended(stage: Stage, build: BuildStatus): Stage {
    if stage.status != InProgress then stage
    else match build
         case Failed => stage.(status := Broken)
         case Canceled => stage.(status := Stopped)
         case _ => stage
  }

  function EndedAll(stages: seq<Stage>, build: BuildStatus): (ended: seq<Stage>)
    ensures |ended| == |stages|
    ensures forall i | 0 <= i < |stages| :: ended[i] == Ended(stages[i], build)
  {
    seq(|stages|, i requires 0 <= i < |stages| => Ended(stages[i], build))
  }

  function Expected(services: nat, stages: nat): nat {
    if services * 3 < stages then stages else services * 3
  }

  /** The part of 90 that is done, rounded down; `done` counts hundredths of a stage. */
  function Share(done: nat, expected: nat): nat
    requires expected > 0
  {
    Quotient(done * 90, 100 * expected)
  }

  function Quotient(x: nat, d: nat): nat
    requires d > 0
  {
    x / d
  }

  lemma QuotientBrackets(x: nat, d: nat)
    requires d > 0
    ensures Quotient(x, d) * d <= x < (Quotient(x, d) + 1) * d
  {
    assert x == x / d * d + x % d;
  }

  lemma SmallerFactor(a: int, b: int, d: nat)
    requires d > 0 && a * d < b * d
    ensures a < b
  {
    assert (b - a) * d > 0;
  }

  lemma QuotientBound(x: nat, d: nat, bound: nat)
    requires d > 0 && x <= bound * d
    ensures Quotient(x, d) <= bound
  {
    QuotientBrackets(x, d);
    assert (bound + 1) * d == bound * d + d;
    SmallerFactor(Quotient(x, d), bound + 1, d);
  }

  lemma ShareBound(done: nat, expected: nat)
    requires expected > 0 && done <= 100 * expected
    ensures Share(done, expected) <= 90
  {
    QuotientBound(done * 90, 100 * expected, 90);
  }

  function MarkerPercent(done: nat, expected: nat, build: BuildStatus): (percent: nat)
    requires done <= 100 * expected
  {
    if build == Succeeded then 100 else if expected == 0 then 10 else 5 + Share(done, expected)
  }

  /** The percentage stays between 5 and 95 until the build has succeeded, and only then is 100. */
  lemma MarkersShowNoEarlyEnd(done: nat, expected: nat, build: BuildStatus)
    requires done <= 100 * expected
    ensures build == Succeeded ==> MarkerPercent(done, expected, build) == 100
    ensures build != Succeeded ==> 5 <= MarkerPercent(done, expected, build) <= 95
  {
    if expected > 0 {
      ShareBound(done, expected);
    }
  }

  /** 5 percent for the start and 90 for the stages done, of as many as are expected or there, rounded down. */
  predicate IsShare(percent: int, done: nat, expected: nat, found: nat) {
    var all := 100 * if found > expected then found else expected;
    if all == 0 then percent == 10 else (percent - 5) * all <= done * 90 < (percent - 4) * all
  }

  lemma PercentIsShare(done: nat, services: nat, stages: nat, build: BuildStatus)
    requires done <= 100 * Expected(services, stages)
    ensures build == Succeeded ==> MarkerPercent(done, Expected(services, stages), build) == 100
    ensures build != Succeeded ==> IsShare(MarkerPercent(done, Expected(services, stages), build), done, 3 * services, stages)
  {
    var expected := Expected(services, stages);
    if expected > 0 {
      QuotientBrackets(done * 90, 100 * expected);
    }
  }

  /** A build that failed or was canceled has no running stage; nothing else about the stages changes. */
  lemma NothingRunsOn(stages: seq<Stage>, build: BuildStatus, i: nat)
    requires i < |stages|
    ensures EndedAll(stages, build)[i] == stages[i].(status :=
      if stages[i].status != InProgress then stages[i].status
      else if build == Failed then Broken else if build == Canceled then Stopped else InProgress)
  {
  }

  // ---------------------------------------------------------------- the fold

  datatype State = State(stage: Stage, order: nat)

  /** The states follow the events: one per key seen, numbered by first appearance, so the numbers are a bijection
      onto 0 .. n-1. */
  ghost predicate Follows(states: map<string, State>, order: nat, events: seq<Event>) {
    && order == |Seen(events)|
    && (forall key | key in states :: key in Seen(events))
    && forall i | 0 <= i < order :: FollowsAt(states, events, i)
  }

  ghost predicate FollowsAt(states: map<string, State>, events: seq<Event>, i: nat)
    requires i < |Seen(events)|
  {
    var key := Seen(events)[i];
    key in states && states[key].order == i && LastStage(events, key) == Some(states[key].stage)
  }

  /** Taking up one event, as both loops do it. */
  function Take(states: map<string, State>, order: nat, event: Event): (map<string, State>, nat) {
    if event.key !in states then (states[event.key := State(event.stage, order)], order + 1)
    else if event.Presumed? then (states, order)
    else (states[event.key := State(event.stage, states[event.key].order)], order)
  }

  lemma TakeFollows(states: map<string, State>, order: nat, events: seq<Event>, event: Event)
    requires Follows(states, order, events)
    ensures var (states', order') := Take(states, order, event); Follows(states', order', events + [event])
  {
    var all := events + [event];
    assert all[..|all| - 1] == events;
    var (states', order') := Take(states, order, event);
    SeenOnce(events);
    assert event.key in states <==> event.key in Seen(events) by {
      if event.key in Seen(events) {
        var i :| 0 <= i < |Seen(events)| && Seen(events)[i] == event.key;
        assert FollowsAt(states, events, i);
      }
    }
    SeenIsWhatHasAStage(events, event.key);
    forall i | 0 <= i < order' ensures FollowsAt(states', all, i) {
      if i < order {
        assert FollowsAt(states, events, i);
      }
    }
  }

  lemma FollowsNext(states: map<string, State>, order: nat, lines: seq<string>, i: nat)
    requires i < |lines|
    requires var before, marker := ReportEvents(Reports(lines[..i])), ReadMarker(lines[i]);
      Follows(states, order, if marker.None? then before
                             else before + [Reported(StageKey(marker.value.service, marker.value.kind), StageOf(marker.value))])
    ensures Follows(states, order, ReportEvents(Reports(lines[..i + 1])))
  {
    ReportsNext(lines, i);
  }

  lemma ReportsNext(lines: seq<string>, i: nat)
    requires i < |lines|
    ensures var before, marker := Reports(lines[..i]), ReadMarker(lines[i]);
      Reports(lines[..i + 1]) == if marker.None? then before else before + [marker.value]
  {
    assert lines[..i + 1][..i] == lines[..i];
  }

  method TakeReport(found: map<string, State>, numbered: nat, key: string, stage: Stage, ghost events: seq<Event>)
    returns (states: map<string, State>, order: nat)
    requires Follows(found, numbered, events)
    ensures Follows(states, order, events + [Reported(key, stage)])
  {
    TakeFollows(found, numbered, events, Reported(key, stage));
    if key in found {
      return found[key := State(stage, found[key].order)], numbered;
    }
    return found[key := State(stage, numbered)], numbered + 1;
  }

  method FoldReports(lines: seq<string>) returns (states: map<string, State>, order: nat)
    ensures Follows(states, order, ReportEvents(Reports(lines)))
  {
    states, order := map[], 0;
    var i := 0;
    while i < |lines|
      invariant 0 <= i <= |lines|
      invariant Follows(states, order, ReportEvents(Reports(lines[..i])))
    {
      ghost var events := ReportEvents(Reports(lines[..i]));
      var marker := ReadMarker(lines[i]);
      if marker.Some? {
        var report := marker.value;
        states, order := TakeReport(states, order, StageKey(report.service, report.kind), StageOf(report), events);
      }
      FollowsNext(states, order, lines, i);
      i := i + 1;
    }
    assert lines[..|lines|] == lines;
  }

  lemma CheckoutSeen(states: map<string, State>, order: nat, events: seq<Event>, key: string)
    requires Follows(states, order, events)
    ensures key in states <==> key in Seen(events)
  {
    if key in Seen(events) {
      var i :| 0 <= i < |Seen(events)| && Seen(events)[i] == key;
      assert FollowsAt(states, events, i);
    }
  }

  method AddDeploys(logs: string, services: seq<string>, found: map<string, State>, numbered: nat, ghost events: seq<Event>)
    returns (states: map<string, State>, order: nat)
    requires Follows(found, numbered, events)
    ensures Follows(states, order, WithDeploys(logs, services, events))
  {
    states, order := found, numbered;
    var i := 0;
    while i < |services|
      invariant 0 <= i <= |services|
      invariant Follows(states, order, WithDeploys(logs, services[..i], events))
    {
      ghost var before := WithDeploys(logs, services[..i], events);
      assert services[..i + 1][..i] == services[..i];
      var service := services[i];
      CheckoutSeen(states, order, before, StageKey(service, "checkout"));
      if StageKey(service, "checkout") in states || Contains(logs, "@@OPS_DEPLOY|" + service + "|") {
        TakeFollows(states, order, before, DeployEvent(service));
        var key := StageKey(service, "deploy");
        if key !in states {
          states, order := states[key := State(Stage("更新部署清单", service, "deploy", InProgress), order)], order + 1;
        }
      }
      i := i + 1;
    }
    assert services[..|services|] == services;
  }

  // ---------------------------------------------------------------- sorting by order number

  predicate Ascending(states: seq<State>) {
    forall i, j | 0 <= i < j < |states| :: states[i].order < states[j].order
  }

  /** The place of a state in an ascending list. */
  function Place(states: seq<State>, order: nat): (place: nat)
    ensures place <= |states|
  {
    if states == [] || states[|states| - 1].order < order then |states| else Place(states[..|states| - 1], order)
  }

  lemma {:induction false} PlaceSplits(states: seq<State>, order: nat)
    requires Ascending(states)
    ensures forall i | 0 <= i < |states| :: states[i].order < order <==> i < Place(states, order)
  {
    if states != [] {
      var front, last := states[..|states| - 1], states[|states| - 1];
      if order <= last.order {
        PlaceSplits(front, order);
        forall i | 0 <= i < |states| ensures states[i].order < order <==> i < Place(front, order) {
          assert i < |front| ==> front[i] == states[i];
        }
      }
    }
  }

  function Inserted<T>(list: seq<T>, item: T, place: nat): (longer: seq<T>)
    requires place <= |list|
    ensures |longer| == |list| + 1
    ensures forall i | 0 <= i < |longer| :: longer[i] == if i < place then list[i] else if i == place then item else list[i - 1]
  {
    list[..place] + [item] + list[place..]
  }

  lemma InsertKeepsAscending(states: seq<State>, state: State)
    requires Ascending(states) && forall i | 0 <= i < |states| :: states[i].order != state.order
    ensures Ascending(Inserted(states, state, Place(states, state.order)))
  {
    var place := Place(states, state.order);
    PlaceSplits(states, state.order);
    InsertBetween(states, state, place);
  }

  lemma InsertBetween(states: seq<State>, state: State, place: nat)
    requires Ascending(states) && place <= |states|
    requires forall i | 0 <= i < place :: states[i].order < state.order
    requires forall i | place <= i < |states| :: state.order < states[i].order
    ensures Ascending(Inserted(states, state, place))
  {
    var all := Inserted(states, state, place);
    forall i, j | 0 <= i < j < |all| ensures all[i].order < all[j].order {
      var a, b := if i < place then i else i - 1, if j < place then j else j - 1;
      if i != place && j != place {
        assert states[a].order < states[b].order;
      }
    }
  }

  /** These are the states of these keys. */
  ghost predicate StatesOf(ordered: seq<State>, keys: seq<string>, states: map<string, State>) {
    && |ordered| == |keys|
    && forall i | 0 <= i < |keys| :: keys[i] in states && ordered[i] == states[keys[i]]
  }

  lemma InsertKeepsStates(ordered: seq<State>, keys: seq<string>, states: map<string, State>, key: string, place: nat)
    requires StatesOf(ordered, keys, states) && key in states && place <= |keys|
    ensures StatesOf(Inserted(ordered, states[key], place), Inserted(keys, key, place), states)
    ensures forall k :: k in Inserted(keys, key, place) <==> k == key || k in keys
  {
    var longer := Inserted(keys, key, place);
    forall k | k in keys ensures k in longer {
      var i :| 0 <= i < |keys| && keys[i] == k;
      assert longer[if i < place then i else i + 1] == k;
    }
    assert longer[place] == key;
  }

  /** The states in ascending order, however the map hands them out. */
  method Ordered(states: map<string, State>) returns (ordered: seq<State>, ghost keys: seq<string>)
    requires forall a, b | a in states && b in states && a != b :: states[a].order != states[b].order
    ensures Ascending(ordered) && StatesOf(ordered, keys, states)
    ensures forall key | key in states :: key in keys
  {
    ordered, keys := [], [];
    var rest := states.Keys;
    while rest != {}
      invariant rest <= states.Keys && Ascending(ordered) && StatesOf(ordered, keys, states)
      invariant forall key | key in states :: key in rest || key in keys
      invariant forall key | key in keys :: key !in rest
      decreases rest
    {
      var key :| key in rest;
      var place := Place(ordered, states[key].order);
      forall i | 0 <= i < |ordered| ensures ordered[i].order != states[key].order {
        assert keys[i] in keys;
      }
      InsertKeepsAscending(ordered, states[key]);
      InsertKeepsStates(ordered, keys, states, key, place);
      ordered, keys := Inserted(ordered, states[key], place), Inserted(keys, key, place);
      rest := rest - {key};
    }
  }

  lemma {:induction false} AscendingAtLeast(ordered: seq<State>, i: nat)
    requires Ascending(ordered) && i < |ordered|
    ensures i <= ordered[i].order
  {
    if i > 0 {
      AscendingAtLeast(ordered, i - 1);
    }
  }

  /** Numbers 0 .. n-1 in ascending order: the i-th state has number i. */
  lemma {:induction false} AscendingIsNumbered(ordered: seq<State>, keys: seq<string>, states: map<string, State>, events: seq<Event>, i: nat)
    requires Follows(states, |Seen(events)|, events) && Ascending(ordered) && StatesOf(ordered, keys, states)
    requires forall key | key in states :: key in keys
    requires i < |Seen(events)|
    ensures Seen(events)[i] in states && i < |ordered| && ordered[i] == states[Seen(events)[i]] && ordered[i].order == i
    ensures forall k | 0 <= k < i :: ordered[k].order == k
  {
    assert FollowsAt(states, events, i);
    var at :| 0 <= at < |keys| && keys[at] == Seen(events)[i];
    if i > 0 {
      AscendingIsNumbered(ordered, keys, states, events, i - 1);
    }
    AscendingAtLeast(ordered, at);
    assert at == i;
  }

  lemma OrderedIsFolded(ordered: seq<State>, keys: seq<string>, states: map<string, State>, events: seq<Event>)
    requires Follows(states, |Seen(events)|, events) && Ascending(ordered) && StatesOf(ordered, keys, states)
    requires forall key | key in states :: key in keys
    ensures |ordered| == |Folded(events)|
    ensures forall i | 0 <= i < |ordered| :: ordered[i].stage == Folded(events)[i]
  {
    var n := |Seen(events)|;
    forall i | 0 <= i < n ensures i < |ordered| && ordered[i].stage == Folded(events)[i] {
      AscendingIsNumbered(ordered, keys, states, events, i);
      assert FollowsAt(states, events, i);
    }
    if n > 0 {
      AscendingIsNumbered(ordered, keys, states, events, n - 1);
    }
    if |ordered| > 0 {
      AscendingAtLeast(ordered, |ordered| - 1);
      var i :| 0 <= i < n && Seen(events)[i] == keys[|ordered| - 1];
      assert FollowsAt(states, events, i);
    }
  }

  // ---------------------------------------------------------------- the whole

  /** `markerProgress`: one stage per (service, kind) in first-appearance order with its last reported status, then
      the adjustments; the result is a function of the log, so the order in which the map is walked is invisible. */
  method MarkerProgress(logs: string, services: seq<string>, build: BuildStatus)
    returns (stages: seq<Stage>, progress: int, current: string)
    ensures stages == EndedAll(Folded(Events(logs, services)), build)
    ensures Done(stages) <= 100 * Expected(|services|, |stages|)
    ensures progress == MarkerPercent(Done(stages), Expected(|services|, |stages|), build)
    ensures current == Current(stages)
    ensures build == Succeeded ==> progress == 100
    ensures build != Succeeded ==> IsShare(progress, Done(stages), 3 * |services|, |stages|)
  {
    var ordered := OrderedStages(logs, services);
    var done;
    stages, done, current := Finish(ordered, build);
    assert stages == EndedAll(Folded(Events(logs, services)), build);
    DoneIsAtMostAll(stages);
    MarkersShowNoEarlyEnd(done, Expected(|services|, |stages|), build);
    PercentIsShare(done, |services|, |stages|, build);
    var expected := |services| * 3;
    if expected < |stages| {
      expected := |stages|;
    }
    progress := 10;
    if expected > 0 {
      progress := 5 + Share(done, expected);
    }
    if build == Succeeded {
      progress := 100;
    } else if progress > 95 {
      progress := 95;
    }
  }

  /** The fold over the lines, the begun deployments, and the sort. */
  method OrderedStages(logs: string, services: seq<string>) returns (ordered: seq<State>)
    ensures |ordered| == |Folded(Events(logs, services))|
    ensures forall i | 0 <= i < |ordered| :: ordered[i].stage == Folded(Events(logs, services))[i]
  {
    var lines := Split(logs, '\n');
    var states, order := FoldReports(lines);
    if Contains(logs, BEGIN) {
      states, order := AddDeploys(logs, services, states, order, ReportEvents(Reports(lines)));
    }
    ghost var events := Events(logs, services);
    NumbersDiffer(states, order, events);
    ghost var keys;
    ordered, keys := Ordered(states);
    OrderedIsFolded(ordered, keys, states, events);
  }

  lemma NumbersDiffer(states: map<string, State>, order: nat, events: seq<Event>)
    requires Follows(states, order, events)
    ensures forall a, b | a in states && b in states && a != b :: states[a].order != states[b].order
  {
    forall a, b | a in states && b in states && a != b ensures states[a].order != states[b].order {
      var i :| 0 <= i < |Seen(events)| && Seen(events)[i] == a;
      var j :| 0 <= j < |Seen(events)| && Seen(events)[j] == b;
      assert FollowsAt(states, events, i) && FollowsAt(states, events, j);
    }
  }

  /** The last loop: end what ended with the build, and count. */
  method Finish(ordered: seq<State>, build: BuildStatus) returns (stages: seq<Stage>, done: nat, current: string)
    ensures |stages| == |ordered|
    ensures forall i | 0 <= i < |stages| :: stages[i] == Ended(ordered[i].stage, build)
    ensures done == Done(stages) && current == Current(stages)
  {
    stages, done, current := [], 0, "";
    var i := 0;
    while i < |ordered|
      invariant 0 <= i == |stages| <= |ordered|
      invariant forall k | 0 <= k < i :: stages[k] == Ended(ordered[k].stage, build)
      invariant done == Done(stages) && current == Current(stages)
    {
      var stage := ordered[i].stage;
      if stage.status == InProgress {
        match build
        case Failed => stage := stage.(status := Broken);
        case Canceled => stage := stage.(status := Stopped);
        case _ =>
      }
      assert (stages + [stage])[..|stages|] == stages;
      stages := stages + [stage];
      done := done + Weight(stage.status);
      if stage.status.InProgress? && current == "" {
        current := Label(stage);
      }
      i := i + 1;
    }
  }
}
