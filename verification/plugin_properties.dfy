/** Properties of whole scenarios: sequences of plugin events from scenario
    start to scenario end. */
module PluginProperties {
  import opened Wrappers
  import opened Files
  import opened Host
  import opened CaptureModes
  import opened CapturePolicy
  import opened RuntimeConfigs
  import opened Playwright
  import opened PwPlugin

  /** A trace is kept exactly when the mode is `ALWAYS`, `ON_RESCHEDULE` on a
      rescheduled run, or `ON_FAILURE` on a failed one. Then exactly one
      artifact (the zip) is attached and the file stays; otherwise nothing is
      attached and any staged file is gone. */
  lemma TraceLifecycle(m: Machine, id: string, res: ScenarioResult, isFailed: bool, listing: seq<Path>)
    requires Consistent(m.fs)
    ensures
      var resched := m.plugin.prevScenarioId == Some(id);
      var mode := m.plugin.traceMode;
      var kept := mode == Always || (mode == OnReschedule && resched) || (mode == OnFailure && isFailed);
      var m1 := OnScenarioRun(m, id);
      var e := OnScenarioEnd(m1, res, isFailed, listing);
      && ArtifactCount(e.result) == ArtifactCount(res) + (if kept then 1 else 0)
      && (kept ==> m1.plugin.capturedTrace.Some?
                   && TraceArtifact(m1.plugin.capturedTrace.value) in e.result.artifacts
                   && m1.plugin.capturedTrace.value in e.fs.files)
      && (!kept && m1.plugin.capturedTrace.Some? ==> m1.plugin.capturedTrace.value !in e.fs.files)
  {
  }

  /** With screenshots `ON_RESCHEDULE`, the first run of a scenario stages
      nothing, and running the same scenario again right after captures. */
  lemma RescheduleCapturesOnSecondRun(m: Machine, id: string, step: string, pagesOf: ContextId -> seq<PageId>,
                                      failsOn: PageId -> bool, res: ScenarioResult, isFailed: bool, listing: seq<Path>)
    requires Consistent(m.fs)
    requires m.plugin.screenshotsMode == OnReschedule && m.plugin.prevScenarioId != Some(id)
    ensures
      var m1 := OnScenarioRun(m, id);
      var e := OnScenarioEnd(m1, res, isFailed, listing);
      var m2 := OnScenarioRun(m1.(fs := e.fs), id);
      && !m1.config.captureScreenshots
      && OnStepEnd(m1, step, pagesOf, failsOn) == StepOutcome(m1, None, [])
      && m2.config.captureScreenshots
  {
  }

  lemma ScreenshotNames(a: string, b: string)
    ensures ScreenshotName(1, a) == "step01_" + a + "_.png"
    ensures ScreenshotName(2, b) == "step02_" + b + "_.png"
  {
  }

  /** Screenshots `ALWAYS`, trace and video `NEVER`, one open page, two steps
      with different names: the scenario result gains exactly two artifacts,
      the png screenshots numbered 01 and 02, each placed with its step. */
  lemma TwoStepsTwoScreenshots(m: Machine, id: string, a: string, b: string, pagesOf: ContextId -> seq<PageId>,
                               failsOn: PageId -> bool, res: ScenarioResult, isFailed: bool, listing: seq<Path>)
    requires Consistent(m.fs)
    requires m.plugin.screenshotsMode == Always && m.plugin.traceMode == Never && m.plugin.videoMode == Never
    requires |OpenPages(m.config.browserContexts, pagesOf)| == 1
    requires !failsOn(OpenPages(m.config.browserContexts, pagesOf)[0])
    requires a != b
    ensures
      var m1 := OnScenarioRun(m, id);
      var o1 := OnStepEnd(m1, a, pagesOf, failsOn);
      var o2 := OnStepEnd(o1.machine, b, pagesOf, failsOn);
      var e := OnScenarioEnd(o2.machine, res, isFailed, listing);
      var shots := o2.machine.plugin.shots;
      && o1.raised.None? && o2.raised.None?
      && |shots| == 2
      && shots[0].step == a && shots[0].path.name == "step01_" + a + "_.png"
      && shots[1].step == b && shots[1].path.name == "step02_" + b + "_.png"
      && Placed(e.result, a, ScreenshotArtifact(shots[0].path))
      && Placed(e.result, b, ScreenshotArtifact(shots[1].path))
      && ArtifactCount(e.result) == ArtifactCount(res) + 2
  {
    var m1 := OnScenarioRun(m, id);
    assert m1.config.browserContexts == m.config.browserContexts;
    var o1 := OnStepEnd(m1, a, pagesOf, failsOn);
    var o2 := OnStepEnd(o1.machine, b, pagesOf, failsOn);
    assert o2.machine.plugin.shots[0] == o1.machine.plugin.shots[0];
    ScreenshotNames(a, b);
  }

  /** The same scenario with the source's keyed staging: with one open page
      and two different step names every dictionary assignment adds a new
      key, so the outcome is the corrected one's. */
  lemma TwoStepsTwoScreenshotsAsWritten(m: Machine, id: string, a: string, b: string, pagesOf: ContextId -> seq<PageId>,
                                        failsOn: PageId -> bool, res: ScenarioResult, isFailed: bool, listing: seq<Path>)
    requires Consistent(m.fs)
    requires m.plugin.screenshotsMode == Always && m.plugin.traceMode == Never && m.plugin.videoMode == Never
    requires |OpenPages(m.config.browserContexts, pagesOf)| == 1
    requires !failsOn(OpenPages(m.config.browserContexts, pagesOf)[0])
    requires a != b
    ensures
      var m1 := OnScenarioRun(m, id);
      var o1 := OnStepEndAsWritten(m1, a, pagesOf, failsOn);
      var o2 := OnStepEndAsWritten(o1.machine, b, pagesOf, failsOn);
      var e := OnScenarioEnd(o2.machine, res, isFailed, listing);
      var shots := o2.machine.plugin.shots;
      && o1.raised.None? && o2.raised.None?
      && |shots| == 2
      && shots[0].step == a && shots[0].path.name == "step01_" + a + "_.png"
      && shots[1].step == b && shots[1].path.name == "step02_" + b + "_.png"
      && Placed(e.result, a, ScreenshotArtifact(shots[0].path))
      && Placed(e.result, b, ScreenshotArtifact(shots[1].path))
      && ArtifactCount(e.result) == ArtifactCount(res) + 2
  {
    var m1 := OnScenarioRun(m, id);
    assert m1.config.browserContexts == m.config.browserContexts;
    OnStepEndAgreesOnOnePage(m1, a, pagesOf, failsOn);
    var o1 := OnStepEnd(m1, a, pagesOf, failsOn);
    assert o1.machine.plugin.shots == [o1.machine.plugin.shots[0]];
    assert ShotSteps(o1.machine.plugin.shots) == {a};
    OnStepEndAgreesOnOnePage(o1.machine, b, pagesOf, failsOn);
    TwoStepsTwoScreenshots(m, id, a, b, pagesOf, failsOn, res, isFailed, listing);
  }

  /** Every screenshot file the step handler creates is staged, so at scenario
      end each one is either attached where its step is or deleted. */
  lemma EveryScreenshotResolved(m: Machine, step: string, pagesOf: ContextId -> seq<PageId>, failsOn: PageId -> bool,
                                res: ScenarioResult, isFailed: bool, listing: seq<Path>)
    requires Consistent(m.fs)
    requires OnStepEnd(m, step, pagesOf, failsOn).raised.None?
    requires var o := OnStepEnd(m, step, pagesOf, failsOn);
      o.machine.plugin.capturedVideo.Some? ==> Lists(o.machine.fs, o.machine.plugin.capturedVideo.value, listing)
    ensures
      var o := OnStepEnd(m, step, pagesOf, failsOn);
      var e := OnScenarioEnd(o.machine, res, isFailed, listing);
      var shots := o.machine.plugin.shots;
      forall f :: f in o.machine.fs.files && f !in m.fs.files ==>
        if ShouldRetain(m.plugin.screenshotsMode, isFailed)
        then exists i :: 0 <= i < |shots| && shots[i].path == f && Placed(e.result, shots[i].step, ScreenshotArtifact(f))
        else f !in e.fs.files
  {
  }

  /** One registered context (number 0) showing two pages; no screenshot
      call fails. */
  function TwoPages(c: ContextId): seq<PageId> { [1, 2] }
  function NeverFails(pg: PageId): bool { false }

  /** A fresh scenario with screenshots `ALWAYS` and an empty file system. */
  function Example(): Machine {
    Machine(Init(Defaults()).(screenshotsMode := Always),
            Fresh().(captureScreenshots := true, browserContexts := [0]),
            Fs({}, {}, 0))
  }

  /** The source's keyed staging, on one step with two open pages: two
      screenshot files are written, the first entry is replaced by the
      second, and after the scenario ends the first file is still on disk
      while no artifact refers to it. */
  lemma AsWrittenLeavesScreenshotBehind(step: string)
    ensures
      var o := OnStepEndAsWritten(Example(), step, TwoPages, NeverFails);
      var e := OnScenarioEnd(o.machine, ScenarioResult("s", [], []), false, []);
      var first := Tmp(0, ScreenshotName(1, step));
      && first in o.machine.fs.files
      && first in e.fs.files
      && forall x :: x in e.result.artifacts ==> x.path != first
  {
    var m0 := Example();
    assert OpenPages([0], TwoPages) == [1, 2];
    var first := Tmp(0, ScreenshotName(1, step));
    var second := Tmp(1, ScreenshotName(2, step));
    var m1 := m0.(plugin := m0.plugin.(shots := [Shot(step, first)]), fs := Fs({first}, {}, 1));
    var m2 := m1.(plugin := m1.plugin.(shots := [Shot(step, second)]), fs := Fs({first, second}, {}, 2));
    assert Put([Shot(step, first)], Shot(step, second)) == [Shot(step, second)];
    assert ShootAllAsWritten(m1, step, [2], NeverFails) == StepOutcome(m2, None, [second]);
    assert Put([], Shot(step, first)) == [Shot(step, first)];
    assert ShootAllAsWritten(m0, step, [1, 2], NeverFails) == StepOutcome(m2, None, [first, second]);
    var o := OnStepEndAsWritten(m0, step, TwoPages, NeverFails);
    assert o == StepOutcome(m2, None, [first, second]);
    var res := ScenarioResult("s", [], []);
    var e := OnScenarioEnd(m2, res, false, []);
    assert EndTrace(m2.plugin, m2.fs, res, false) == Ended(m2.fs, res);
    assert EndVideo(m2.plugin, m2.fs, res, false, []) == Ended(m2.fs, res);
    assert AttachShots([Shot(step, second)], res) == AttachToStep(res, step, ScreenshotArtifact(second));
    assert e.result.artifacts == [ScreenshotArtifact(second)];
  }

  /** The same step with the corrected staging: both files are staged, and
      both end up attached to the scenario result. */
  lemma CorrectedAttachesBothScreenshots(step: string)
    ensures
      var o := OnStepEnd(Example(), step, TwoPages, NeverFails);
      var e := OnScenarioEnd(o.machine, ScenarioResult("s", [], []), false, []);
      var shots := o.machine.plugin.shots;
      && o.raised.None?
      && |shots| == 2 && shots[0].path != shots[1].path
      && shots[0].path.name == ScreenshotName(1, step) && shots[1].path.name == ScreenshotName(2, step)
      && e.result.steps == [] && |e.result.artifacts| == 2
      && ScreenshotArtifact(shots[0].path) in e.result.artifacts
      && ScreenshotArtifact(shots[1].path) in e.result.artifacts
  {
  }
}
