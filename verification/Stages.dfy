/** Build stages and the percentage computed from them, shared by the Jenkins stage view and the log markers. */
module Stages {
  /** `Other` is Jenkins' word for anything the platform has no name for. */
  datatype BuildStatus = Queued | Running | Succeeded | Failed | Canceled | Unknown

  datatype StageStatus = Waiting | InProgress | Passed | Broken | Stopped | Skipped

  datatype Stage = Stage(name: string, service: string, kind: string, status: StageStatus)

  /** Hundredths of a stage that are done; a running stage counts 0.35. */
  function Weight(status: StageStatus): nat {
    match status
    case Waiting => 0
    case InProgress => 35
    case _ => 100
  }

  function Done(stages: seq<Stage>): nat {
    if stages == [] then 0 else Done(stages[..|stages| - 1]) + Weight(stages[|stages| - 1].status)
  }

  /** The part of a stage list that has been looked at grows by one stage. */
  lemma DoneNext(stages: seq<Stage>, i: nat)
    requires i < |stages|
    ensures Done(stages[..i + 1]) == Done(stages[..i]) + Weight(stages[i].status)
  {
    assert stages[..i + 1][..i] == stages[..i];
  }

  lemma {:induction false} DoneIsAtMostAll(stages: seq<Stage>)
    ensures Done(stages) <= 100 * |stages|
  {
    if stages != [] {
      DoneIsAtMostAll(stages[..|stages| - 1]);
    }
  }

  /** The places of the stages with one of these statuses. */
  ghost function Which(stages: seq<Stage>, statuses: set<StageStatus>): set<int> {
    set i | 0 <= i < |stages| && stages[i].status in statuses
  }

  lemma WhichNext(stages: seq<Stage>, statuses: set<StageStatus>)
    requires stages != []
    ensures var last := |stages| - 1;
      |Which(stages, statuses)| == |Which(stages[..last], statuses)| + if stages[last].status in statuses then 1 else 0
  {
    var last := |stages| - 1;
    assert Which(stages, statuses) == Which(stages[..last], statuses) + if stages[last].status in statuses then {last} else {};
  }

  lemma {:induction false} DoneCounts(stages: seq<Stage>)
    ensures Done(stages) == 100 * |Which(stages, {Passed, Broken, Stopped, Skipped})| + 35 * |Which(stages, {InProgress})|
  {
    if stages != [] {
      DoneCounts(stages[..|stages| - 1]);
      WhichNext(stages, {Passed, Broken, Stopped, Skipped});
      WhichNext(stages, {InProgress});
    }
  }

  /** No stage went back. */
  predicate Forward(before: seq<Stage>, after: seq<Stage>) {
    && |before| == |after|
    && forall i | 0 <= i < |before| :: Weight(before[i].status) <= Weight(after[i].status)
  }

  lemma {:induction false} ForwardDoesMore(before: seq<Stage>, after: seq<Stage>)
    requires Forward(before, after)
    ensures Done(before) <= Done(after)
  {
    if before != [] {
      var b, a := before[..|before| - 1], after[..|after| - 1];
      forall i | 0 <= i < |b| ensures Weight(b[i].status) <= Weight(a[i].status) {
        assert b[i] == before[i] && a[i] == after[i];
      }
      ForwardDoesMore(b, a);
    }
  }

  /** The name shown for the stage that runs now. */
  function Label(stage: Stage): string {
    if stage.service == "" then stage.name else stage.service + " / " + stage.name
  }

  /** A stage is shown with its service in front, if it has one. */
  lemma LabelMeans(stage: Stage)
    ensures stage.service == "" ==> Label(stage) == stage.name
    ensures stage.service != "" ==> Label(stage) == stage.service + " / " + stage.name
  {
  }

  /** The first running stage. */
  function Current(stages: seq<Stage>): string {
    if stages == [] then ""
    else
      var before := Current(stages[..|stages| - 1]);
      if before == "" && stages[|stages| - 1].status.InProgress? then Label(stages[|stages| - 1]) else before
  }

}
