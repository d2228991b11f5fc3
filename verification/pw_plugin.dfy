/** `PlaywrightPlugin`: the event handlers that push parsed arguments into the
    runtime configuration and drive artifact capture per scenario. Each
    handler is a function from the machine state before the event to the
    state after it. */
module PwPlugin {
  import opened Wrappers
  import opened Errors
  import opened Values
  import opened Files
  import opened Playwright
  import opened Host
  import opened Browsers
  import opened CaptureModes
  import opened CapturePolicy
  import opened RuntimeConfigs

  /** The static plugin configuration (the `Playwright` config class). */
  datatype PluginConfig = PluginConfig(
    browser: PlaywrightBrowser,
    headed: bool,
    slowmo: int,
    remote: bool,
    remoteEndpoint: string,
    captureScreenshots: CaptureMode,
    captureVideo: CaptureMode,
    captureTrace: CaptureMode,
    timeout: Option<int>,
    navigationTimeout: Option<int>,
    browserTimeout: Option<int>)

  /** The defaults the config class declares. */
  function Defaults(): (c: PluginConfig)
    ensures c.browser == Chromium && !c.headed && c.slowmo == 0
    ensures !c.remote && c.remoteEndpoint == "ws://localhost:3000"
    ensures c.captureScreenshots == Never && c.captureVideo == Never && c.captureTrace == Never
    ensures c.timeout.None? && c.navigationTimeout.None? && c.browserTimeout.None?
  {
    PluginConfig(Chromium, false, 0, false, "ws://localhost:3000", Never, Never, Never, None, None, None)
  }

  /** A staged screenshot: the step it was taken after and its file. */
  datatype Shot = Shot(step: string, path: Path)

  /** The plugin's own fields: its static configuration, the capture modes in
      force, the previous scenario's id and the artifacts staged for the
      current scenario. */
  datatype PluginState = PluginState(
    config: PluginConfig,
    screenshotsMode: CaptureMode,
    videoMode: CaptureMode,
    traceMode: CaptureMode,
    prevScenarioId: Option<string>,
    capturedTrace: Option<Path>,
    capturedVideo: Option<Path>,
    shots: seq<Shot>)

  /** The plugin as constructed: modes from the configuration, nothing staged,
      no previous scenario. */
  function Init(config: PluginConfig): (p: PluginState)
    ensures p.config == config
    ensures p.screenshotsMode == config.captureScreenshots && p.videoMode == config.captureVideo
    ensures p.traceMode == config.captureTrace
    ensures p.prevScenarioId.None? && p.capturedTrace.None? && p.capturedVideo.None? && p.shots == []
  {
    PluginState(config, config.captureScreenshots, config.captureVideo, config.captureTrace, None, None, None, [])
  }

  /** The parsed command-line values the plugin reads. */
  datatype Args = Args(
    browser: PlaywrightBrowser,
    headed: bool,
    slowmo: int,
    device: Option<string>,
    remote: bool,
    remoteEndpoint: string,
    screenshots: CaptureMode,
    video: CaptureMode,
    trace: CaptureMode)

  /** Everything the handlers read and write: the plugin, the runtime
      configuration it shares with the factories, and the file system. */
  datatype Machine = Machine(plugin: PluginState, config: RuntimeConfig, fs: Fs)

  /** `o` replaced by `v` when `v` is set. */
  function Override(o: Option<int>, v: Option<int>): (r: Option<int>)
    ensures v.Some? ==> r == v
    ensures v.None? ==> r == o
  {
    if v.Some? then v else o
  }

  // ---------------------------------------------------------------------
  // on_arg_parsed

  /** `on_arg_parsed`: copies the parsed values into the runtime configuration
      and the plugin, failing on a negative slowmo; the static timeouts
      overwrite the configured ones only when they are set. */
  function OnArgParsed(m: Machine, args: Args): (r: Result<Machine, Error>)
    ensures r.Failure? <==> args.slowmo < 0
    ensures r.Failure? ==> r.error == ValueError(SlowmoMessage)
    ensures r.Success? ==>
      var c := r.value.config;
      && c.browserName == args.browser && c.headed == args.headed && c.slowmo == args.slowmo
      && c.deviceName == args.device && c.remote == args.remote && c.remoteEndpoint == args.remoteEndpoint
      && c.timeout == Override(m.config.timeout, m.plugin.config.timeout)
      && c.navigationTimeout == Override(m.config.navigationTimeout, m.plugin.config.navigationTimeout)
      && c.browserTimeout == Override(m.config.browserTimeout, m.plugin.config.browserTimeout)
      && c.deviceOptions == m.config.deviceOptions && c.browserContexts == m.config.browserContexts
      && c.captureTrace == m.config.captureTrace && c.traceOptions == m.config.traceOptions
      && c.captureVideo == m.config.captureVideo && c.videoOptions == m.config.videoOptions
      && c.captureScreenshots == m.config.captureScreenshots
      && Valid(c)
    ensures r.Success? ==>
      && r.value.plugin == m.plugin.(screenshotsMode := args.screenshots, videoMode := args.video, traceMode := args.trace)
      && r.value.fs == m.fs
  {
    var c1 := SetHeaded(SetBrowser(m.config, args.browser), args.headed);
    match SetSlowmo(c1, args.slowmo)
    case Failure(e) => Failure(e)
    case Success(c2) =>
      var c3 := SetRemoteEndpoint(SetRemote(SetDevice(c2, args.device), args.remote), args.remoteEndpoint);
      var declared := m.plugin.config;
      var c4 := if declared.timeout.Some? then SetTimeout(c3, declared.timeout.value) else c3;
      var c5 := if declared.navigationTimeout.Some? then SetNavigationTimeout(c4, declared.navigationTimeout.value) else c4;
      var c6 := if declared.browserTimeout.Some? then SetBrowserTimeout(c5, declared.browserTimeout.value) else c5;
      var p := m.plugin.(screenshotsMode := args.screenshots, videoMode := args.video, traceMode := args.trace);
      Success(Machine(p, c6, m.fs))
  }

  // ---------------------------------------------------------------------
  // on_scenario_run

  /** A staged artifact location and the configuration and file system after
      staging. */
  datatype Staged = Staged(path: Option<Path>, config: RuntimeConfig, fs: Fs)

  /** The trace options pushed for a trace staged at `t`. */
  function TraceOptionsFor(t: Path): Options {
    map["path" := VPath(t), "screenshots" := VBool(true), "snapshots" := VBool(true)]
  }

  /** The video options pushed for a video directory `d`. */
  function VideoOptionsFor(d: Path): Options {
    map["record_video_dir" := VPath(d), "record_video_size" := VNone]
  }

  /** Trace staging: the toggle goes on, with a fresh temporary `.zip` file
      recorded in the trace options, exactly when the mode says to capture;
      otherwise the toggle goes off and the options are left as they were. */
  function StageTrace(c: RuntimeConfig, fs: Fs, mode: CaptureMode, isRescheduled: bool): (r: Staged)
    requires Consistent(fs)
    ensures r.config.captureTrace <==> ShouldCapture(mode, isRescheduled)
    ensures r.path.Some? <==> ShouldCapture(mode, isRescheduled)
    ensures r.path.Some? ==>
      && r.path.value !in fs.files && r.path.value !in fs.dirs
      && r.fs.files == fs.files + {r.path.value} && r.fs.dirs == fs.dirs
      && r.config.traceOptions == TraceOptionsFor(r.path.value)
      && r.path.value.name == "pw_trace_" + ".zip"
    ensures r.path.None? ==> r.fs == fs && r.config.traceOptions == c.traceOptions
    ensures r.config.(captureTrace := c.captureTrace, traceOptions := c.traceOptions) == c
    ensures Consistent(r.fs) && r.fs.next >= fs.next
    ensures Valid(c) ==> Valid(r.config)
  {
    var off := SetCaptureTrace(c, false);
    if ShouldCapture(mode, isRescheduled) then
      var (t, fs') := CreateTmpFile(fs, "pw_trace_", ".zip");
      Staged(Some(t), SetTraceOptions(SetCaptureTrace(off, true), TraceOptionsFor(t)), fs')
    else
      Staged(None, off, fs)
  }

  /** Video staging: the toggle goes on, with a fresh empty temporary
      directory recorded in the video options, exactly when the mode says to
      capture; otherwise the toggle goes off and the options are left alone. */
  function StageVideo(c: RuntimeConfig, fs: Fs, mode: CaptureMode, isRescheduled: bool): (r: Staged)
    requires Consistent(fs)
    ensures r.config.captureVideo <==> ShouldCapture(mode, isRescheduled)
    ensures r.path.Some? <==> ShouldCapture(mode, isRescheduled)
    ensures r.path.Some? ==>
      && r.path.value !in fs.files && r.path.value !in fs.dirs
      && r.fs.dirs == fs.dirs + {r.path.value} && r.fs.files == fs.files
      && (forall p :: p in r.fs.files ==> !IsFileIn(r.fs, p, r.path.value))
      && r.config.videoOptions == VideoOptionsFor(r.path.value)
      && r.path.value.name == "pw_video_"
    ensures r.path.None? ==> r.fs == fs && r.config.videoOptions == c.videoOptions
    ensures r.config.(captureVideo := c.captureVideo, videoOptions := c.videoOptions) == c
    ensures Consistent(r.fs) && r.fs.next >= fs.next
    ensures Valid(c) ==> Valid(r.config)
  {
    var off := SetCaptureVideo(c, false);
    if ShouldCapture(mode, isRescheduled) then
      var (d, fs') := CreateTmpDir(fs, "pw_video_");
      Staged(Some(d), SetVideoOptions(SetCaptureVideo(off, true), VideoOptionsFor(d)), fs')
    else
      Staged(None, off, fs)
  }

  /** `on_scenario_run`: the scenario counts as rescheduled exactly when its id
      equals the previous scenario's; the id is remembered; each kind of
      artifact is staged afresh according to its mode; no screenshot is
      staged yet. */
  function OnScenarioRun(m: Machine, uniqueId: string): (r: Machine)
    requires Consistent(m.fs)
    ensures r.plugin.prevScenarioId == Some(uniqueId)
    ensures var resched := m.plugin.prevScenarioId == Some(uniqueId);
      && (r.config.captureTrace <==> ShouldCapture(m.plugin.traceMode, resched))
      && (r.plugin.capturedTrace.Some? <==> ShouldCapture(m.plugin.traceMode, resched))
      && (r.config.captureVideo <==> ShouldCapture(m.plugin.videoMode, resched))
      && (r.plugin.capturedVideo.Some? <==> ShouldCapture(m.plugin.videoMode, resched))
      && (r.config.captureScreenshots <==> ShouldCapture(m.plugin.screenshotsMode, resched))
    ensures r.plugin.capturedTrace.Some? ==>
      && r.plugin.capturedTrace.value !in m.fs.files && r.plugin.capturedTrace.value in r.fs.files
      && r.config.traceOptions == TraceOptionsFor(r.plugin.capturedTrace.value)
    ensures r.plugin.capturedVideo.Some? ==>
      && r.plugin.capturedVideo.value !in m.fs.dirs && r.plugin.capturedVideo.value in r.fs.dirs
      && (forall p :: p in r.fs.files ==> !IsFileIn(r.fs, p, r.plugin.capturedVideo.value))
      && r.config.videoOptions == VideoOptionsFor(r.plugin.capturedVideo.value)
    ensures r.plugin.capturedTrace.None? ==> r.config.traceOptions == m.config.traceOptions
    ensures r.plugin.capturedVideo.None? ==> r.config.videoOptions == m.config.videoOptions
    ensures r.plugin.shots == []
    ensures r.plugin.(prevScenarioId := m.plugin.prevScenarioId, capturedTrace := m.plugin.capturedTrace,
                      capturedVideo := m.plugin.capturedVideo, shots := m.plugin.shots) == m.plugin
    ensures r.config.(captureTrace := m.config.captureTrace, traceOptions := m.config.traceOptions,
                      captureVideo := m.config.captureVideo, videoOptions := m.config.videoOptions,
                      captureScreenshots := m.config.captureScreenshots) == m.config
    ensures m.fs.files <= r.fs.files && m.fs.dirs <= r.fs.dirs && Consistent(r.fs)
    ensures Valid(m.config) ==> Valid(r.config)
  {
    var resched := m.plugin.prevScenarioId == Some(uniqueId);
    var trace := StageTrace(m.config, m.fs, m.plugin.traceMode, resched);
    var video := StageVideo(trace.config, trace.fs, m.plugin.videoMode, resched);
    var config := SetCaptureScreenshots(video.config, ShouldCapture(m.plugin.screenshotsMode, resched));
    var plugin := m.plugin.(prevScenarioId := Some(uniqueId), capturedTrace := trace.path,
                            capturedVideo := video.path, shots := []);
    Machine(plugin, config, video.fs)
  }

  // ---------------------------------------------------------------------
  // on_step_end

  /** The character of the decimal digit `d`. */
  function DigitChar(d: nat): (c: char)
    requires d < 10
    ensures '0' <= c <= '9' && c as int - '0' as int == d
  {
    ('0' as int + d) as char
  }

  /** The decimal digits of `n`. */
  function Digits(n: nat): (s: string)
    ensures |s| >= 1
    decreases n
  {
    if n < 10 then [DigitChar(n)] else Digits(n / 10) + [DigitChar(n % 10)]
  }

  /** Digits are digit characters, with no leading zero unless `n` is 0. */
  lemma {:induction false} DigitsShape(n: nat)
    ensures forall i :: 0 <= i < |Digits(n)| ==> '0' <= Digits(n)[i] <= '9'
    ensures n > 0 ==> Digits(n)[0] != '0'
    ensures n >= 10 ==> |Digits(n)| >= 2
    decreases n
  {
    if n >= 10 {
      DigitsShape(n / 10);
    }
  }

  /** Different numbers have different digits. */
  lemma {:induction false} DigitsInjective(a: nat, b: nat)
    requires Digits(a) == Digits(b)
    ensures a == b
    decreases a
  {
    DigitsShape(a);
    DigitsShape(b);
    var s := Digits(a);
    assert DigitChar(a % 10) == s[|s| - 1] == DigitChar(b % 10);
    if a >= 10 && b >= 10 {
      assert Digits(a / 10) == s[..|s| - 1] == Digits(b / 10);
      DigitsInjective(a / 10, b / 10);
    }
  }

  /** Zero-padding keeps different numbers apart. */
  lemma Pad2Injective(a: nat, b: nat)
    requires Pad2(a) == Pad2(b)
    ensures a == b
  {
    DigitsShape(a);
    DigitsShape(b);
    if a < 10 && b < 10 {
      assert Digits(a) == Pad2(a)[1..] == Digits(b);
    }
    DigitsInjective(a, b);
  }

  /** The padded number is all digits. */
  lemma Pad2Digits(n: nat)
    ensures forall i :: 0 <= i < |Pad2(n)| ==> '0' <= Pad2(n)[i] <= '9'
  {
    DigitsShape(n);
  }

  /** `f"{n:02}"`: at least two digits, zero-padded. */
  function Pad2(n: nat): (s: string)
    ensures |s| >= 2
  {
    if n < 10 then "0" + Digits(n) else Digits(n)
  }

  /** The temporary-file prefix of the `n`-th screenshot, taken after `step`. */
  function ScreenshotPrefix(n: nat, step: string): string {
    "step" + Pad2(n) + "_" + step + "_"
  }

  /** The name of the `n`-th screenshot of a scenario (the random middle part
      of the real name is carried by the path's number). */
  function ScreenshotName(n: nat, step: string): string {
    ScreenshotPrefix(n, step) + ".png"
  }

  /** Screenshots of one step with different numbers never share a name: the
      padded number ends at the first `_` after `step`. */
  lemma ScreenshotNameInjective(a: nat, b: nat, step: string)
    ensures ScreenshotName(a, step) == ScreenshotName(b, step) ==> a == b
  {
    if ScreenshotName(a, step) == ScreenshotName(b, step) {
      var p, q := Pad2(a), Pad2(b);
      var name := ScreenshotName(a, step);
      Pad2Digits(a);
      Pad2Digits(b);
      assert name == "step" + p + ("_" + step + "_.png");
      assert name == "step" + q + ("_" + step + "_.png");
      if |p| == |q| {
        assert p == name[4..4 + |p|] == q;
        Pad2Injective(a, b);
      }
    }
  }

  /** Every open page, context by context in registration order. */
  function OpenPages(contexts: seq<ContextId>, pagesOf: ContextId -> seq<PageId>): seq<PageId> {
    if |contexts| == 0 then [] else pagesOf(contexts[0]) + OpenPages(contexts[1..], pagesOf)
  }

  function ShotPaths(shots: seq<Shot>): set<Path> {
    set s | s in shots :: s.path
  }

  lemma ShotPathsGrow(a: seq<Shot>, b: seq<Shot>)
    requires a <= b
    ensures ShotPaths(a) <= ShotPaths(b)
  {
  }

  function ShotSteps(shots: seq<Shot>): set<string> {
    set s | s in shots :: s.step
  }

  /** At most one staged screenshot per step name (a dictionary's keys). */
  predicate UniqueSteps(shots: seq<Shot>) {
    forall i, j :: 0 <= i < j < |shots| ==> shots[i].step != shots[j].step
  }

  /** No screenshot call on any of `pages` fails. */
  predicate NoneFails(pages: seq<PageId>, failsOn: PageId -> bool) {
    forall i :: 0 <= i < |pages| ==> !failsOn(pages[i])
  }

  /** How many pages a handler that stops at the first failing screenshot
      call gets to: all of them, or up to and including the failing one. */
  function Attempted(pages: seq<PageId>, failsOn: PageId -> bool): (n: nat)
    ensures n <= |pages|
  {
    if |pages| == 0 then 0 else if failsOn(pages[0]) then 1 else 1 + Attempted(pages[1..], failsOn)
  }

  /** Every page is attempted when none fails; otherwise the last page
      attempted is the first failing one. */
  lemma {:induction false} AttemptedStopsAtFirstFailure(pages: seq<PageId>, failsOn: PageId -> bool)
    ensures var n := Attempted(pages, failsOn);
      && (NoneFails(pages, failsOn) ==> n == |pages|)
      && (!NoneFails(pages, failsOn) ==> 0 < n && failsOn(pages[n - 1]) && NoneFails(pages[..n - 1], failsOn))
    decreases |pages|
  {
    if |pages| > 0 && !failsOn(pages[0]) {
      AttemptedStopsAtFirstFailure(pages[1..], failsOn);
      var n := Attempted(pages, failsOn);
      assert forall i :: 1 <= i < |pages| ==> pages[i] == pages[1..][i - 1];
      if !NoneFails(pages, failsOn) {
        var pre, tailPre := pages[..n - 1], pages[1..][..n - 2];
        forall i | 0 <= i < |pre| ensures !failsOn(pre[i]) {
          if i > 0 { assert pre[i] == tailPre[i - 1]; }
        }
      }
    }
  }

  /** The outcome of a step-end handler: the machine afterwards, the
      exception a failing screenshot call raised, if any, and the temporary
      files the handler created, one per page attempted, in page order. */
  datatype StepOutcome = StepOutcome(machine: Machine, raised: Option<Error>, taken: seq<Path>)

  /** `on_step_end` with one staged screenshot per screenshot taken: every
      open page of every registered context is photographed into a fresh
      temporary file numbered by the count of screenshots staged so far, and
      every file taken is staged. A failing screenshot call raises and stops
      the handler; its empty temporary file stays unstaged. */
  function OnStepEnd(m: Machine, step: string, pagesOf: ContextId -> seq<PageId>, failsOn: PageId -> bool): (r: StepOutcome)
    requires Consistent(m.fs)
    ensures !m.config.captureScreenshots ==> r == StepOutcome(m, None, [])
    ensures r.machine.config == m.config
    ensures r.machine.plugin.(shots := m.plugin.shots) == m.plugin
    ensures Consistent(r.machine.fs) && m.fs.files <= r.machine.fs.files && r.machine.fs.dirs == m.fs.dirs
    ensures m.plugin.shots <= r.machine.plugin.shots
    ensures forall j :: |m.plugin.shots| <= j < |r.machine.plugin.shots| ==>
      var s := r.machine.plugin.shots[j];
      s.step == step && s.path.name == ScreenshotName(j + 1, step) && s.path !in m.fs.files
    ensures r.raised.None? ==>
      forall f :: f in r.machine.fs.files && f !in m.fs.files ==> f in ShotPaths(r.machine.plugin.shots)
    ensures r.raised.None? && m.config.captureScreenshots ==>
      |r.machine.plugin.shots| == |m.plugin.shots| + |OpenPages(m.config.browserContexts, pagesOf)|
    ensures r.raised.None? <==> !m.config.captureScreenshots || NoneFails(OpenPages(m.config.browserContexts, pagesOf), failsOn)
    ensures m.config.captureScreenshots ==> |r.taken| == Attempted(OpenPages(m.config.browserContexts, pagesOf), failsOn)
    ensures r.machine.fs.files == m.fs.files + (set p | p in r.taken)
    ensures r.raised.None? ==> r.machine.plugin.shots == m.plugin.shots + ShotsOf(step, r.taken)
    ensures r.raised.Some? ==>
      && |r.taken| > 0
      && r.machine.plugin.shots + [Shot(step, r.taken[|r.taken| - 1])] == m.plugin.shots + ShotsOf(step, r.taken)
  {
    if !m.config.captureScreenshots then StepOutcome(m, None, [])
    else
      var pages := OpenPages(m.config.browserContexts, pagesOf);
      ShootAllRaisesIffSomeFails(m, step, pages, failsOn);
      ShootAllFiles(m, step, pages, failsOn);
      ShootAllStagesTaken(m, step, pages, failsOn);
      ShootAllStagesBeforeFailure(m, step, pages, failsOn);
      ShootAll(m, step, pages, failsOn)
  }

  function ShootAll(m: Machine, step: string, pages: seq<PageId>, failsOn: PageId -> bool): (r: StepOutcome)
    requires Consistent(m.fs)
    ensures r.machine.config == m.config
    ensures r.machine.plugin.(shots := m.plugin.shots) == m.plugin
    ensures Consistent(r.machine.fs) && m.fs.files <= r.machine.fs.files && r.machine.fs.dirs == m.fs.dirs
    ensures m.plugin.shots <= r.machine.plugin.shots
    ensures forall j :: |m.plugin.shots| <= j < |r.machine.plugin.shots| ==>
      var s := r.machine.plugin.shots[j];
      s.step == step && s.path.name == ScreenshotName(j + 1, step) && s.path !in m.fs.files
    ensures r.raised.None? ==>
      forall f :: f in r.machine.fs.files && f !in m.fs.files ==> f in ShotPaths(r.machine.plugin.shots)
    ensures r.raised.None? ==> |r.machine.plugin.shots| == |m.plugin.shots| + |pages|
    ensures r.raised.Some? ==> r.raised == Some(PlaywrightError)
    decreases |pages|
  {
    if |pages| == 0 then StepOutcome(m, None, [])
    else
      var n := |m.plugin.shots| + 1;
      var (path, fs') := CreateTmpFile(m.fs, ScreenshotPrefix(n, step), ".png");
      if failsOn(pages[0]) then StepOutcome(m.(fs := fs'), Some(PlaywrightError), [path])
      else
        var m' := m.(plugin := m.plugin.(shots := m.plugin.shots + [Shot(step, path)]), fs := fs');
        var r := ShootAll(m', step, pages[1..], failsOn);
        assert m'.plugin.shots <= r.machine.plugin.shots;
        assert r.machine.plugin.shots[|m.plugin.shots|] == Shot(step, path);
        ShotPathsGrow(m'.plugin.shots, r.machine.plugin.shots);
        r.(taken := [path] + r.taken)
  }

  /** The handler raises exactly when a screenshot call on some page fails. */
  lemma {:induction false} ShootAllRaisesIffSomeFails(m: Machine, step: string, pages: seq<PageId>, failsOn: PageId -> bool)
    requires Consistent(m.fs)
    ensures ShootAll(m, step, pages, failsOn).raised.None? <==> NoneFails(pages, failsOn)
    ensures |ShootAll(m, step, pages, failsOn).taken| == Attempted(pages, failsOn)
    decreases |pages|
  {
    if |pages| > 0 && !failsOn(pages[0]) {
      var (path, fs') := CreateTmpFile(m.fs, ScreenshotPrefix(|m.plugin.shots| + 1, step), ".png");
      var m' := m.(plugin := m.plugin.(shots := m.plugin.shots + [Shot(step, path)]), fs := fs');
      ShootAllRaisesIffSomeFails(m', step, pages[1..], failsOn);
      var r' := ShootAll(m', step, pages[1..], failsOn);
      assert ShootAll(m, step, pages, failsOn) == r'.(taken := [path] + r'.taken);
      assert forall i :: 1 <= i < |pages| ==> pages[i] == pages[1..][i - 1];
    }
  }

  /** Each of `paths`, in order, staged as a screenshot of `step`. */
  function ShotsOf(step: string, paths: seq<Path>): (r: seq<Shot>)
    ensures |r| == |paths|
  {
    if |paths| == 0 then [] else [Shot(step, paths[0])] + ShotsOf(step, paths[1..])
  }

  /** Staging one more file ahead of others is staging the longer list. */
  lemma AppendShots(prefix: seq<Shot>, step: string, path: Path, t: seq<Path>)
    ensures (prefix + [Shot(step, path)]) + ShotsOf(step, t) == prefix + ShotsOf(step, [path] + t)
  {
    assert ([path] + t)[1..] == t;
  }

  /** The corrected handler adds exactly the files it created. */
  lemma {:induction false} ShootAllFiles(m: Machine, step: string, pages: seq<PageId>, failsOn: PageId -> bool)
    requires Consistent(m.fs)
    ensures var r := ShootAll(m, step, pages, failsOn);
      r.machine.fs.files == m.fs.files + (set p | p in r.taken)
    decreases |pages|
  {
    if |pages| > 0 {
      var (path, fs') := CreateTmpFile(m.fs, ScreenshotPrefix(|m.plugin.shots| + 1, step), ".png");
      if !failsOn(pages[0]) {
        var m' := m.(plugin := m.plugin.(shots := m.plugin.shots + [Shot(step, path)]), fs := fs');
        ShootAllFiles(m', step, pages[1..], failsOn);
        var r' := ShootAll(m', step, pages[1..], failsOn);
        var r := ShootAll(m, step, pages, failsOn);
        assert r == r'.(taken := [path] + r'.taken);
        assert (set p | p in r.taken) == {path} + (set p | p in r'.taken);
      }
    }
  }

  /** When no call fails, the corrected handler stages every file it
      created, in order. */
  lemma {:induction false} ShootAllStagesTaken(m: Machine, step: string, pages: seq<PageId>, failsOn: PageId -> bool)
    requires Consistent(m.fs)
    ensures var r := ShootAll(m, step, pages, failsOn);
      r.raised.None? ==> r.machine.plugin.shots == m.plugin.shots + ShotsOf(step, r.taken)
    decreases |pages|
  {
    if |pages| > 0 && !failsOn(pages[0]) {
      var (path, fs') := CreateTmpFile(m.fs, ScreenshotPrefix(|m.plugin.shots| + 1, step), ".png");
      var m' := m.(plugin := m.plugin.(shots := m.plugin.shots + [Shot(step, path)]), fs := fs');
      ShootAllStagesTaken(m', step, pages[1..], failsOn);
      var r' := ShootAll(m', step, pages[1..], failsOn);
      assert ShootAll(m, step, pages, failsOn) == r'.(taken := [path] + r'.taken);
      AppendShots(m.plugin.shots, step, path, r'.taken);
    }
  }

  /** When a call fails, the corrected handler has staged every file it
      created except the failing call's, which is the last one created. */
  lemma {:induction false} ShootAllStagesBeforeFailure(m: Machine, step: string, pages: seq<PageId>, failsOn: PageId -> bool)
    requires Consistent(m.fs)
    ensures var r := ShootAll(m, step, pages, failsOn);
      r.raised.Some? ==>
        && |r.taken| > 0
        && r.machine.plugin.shots + [Shot(step, r.taken[|r.taken| - 1])] == m.plugin.shots + ShotsOf(step, r.taken)
    decreases |pages|
  {
    if |pages| > 0 {
      var (path, fs') := CreateTmpFile(m.fs, ScreenshotPrefix(|m.plugin.shots| + 1, step), ".png");
      if failsOn(pages[0]) {
        assert ShootAll(m, step, pages, failsOn) == StepOutcome(m.(fs := fs'), Some(PlaywrightError), [path]);
        assert ShotsOf(step, [path]) == [Shot(step, path)];
      } else {
        var m' := m.(plugin := m.plugin.(shots := m.plugin.shots + [Shot(step, path)]), fs := fs');
        ShootAllStagesBeforeFailure(m', step, pages[1..], failsOn);
        var r' := ShootAll(m', step, pages[1..], failsOn);
        assert ShootAll(m, step, pages, failsOn) == r'.(taken := [path] + r'.taken);
        AppendShots(m.plugin.shots, step, path, r'.taken);
      }
    }
  }

  /** `self._captured_screenshots[step] = path`: a dictionary assignment,
      replacing in place the entry of an already staged step. */
  function Put(shots: seq<Shot>, s: Shot): (r: seq<Shot>)
    ensures s in r
    ensures forall t :: t in r ==> t == s || t in shots
  {
    if |shots| == 0 then [s]
    else if shots[0].step == s.step then [s] + shots[1..]
    else [shots[0]] + Put(shots[1..], s)
  }

  /** Assigning a key adds it to the keys and grows the dictionary only when
      the key is new. */
  lemma {:induction false} PutSteps(shots: seq<Shot>, s: Shot)
    ensures ShotSteps(Put(shots, s)) == ShotSteps(shots) + {s.step}
    ensures |Put(shots, s)| == |shots| + (if s.step in ShotSteps(shots) then 0 else 1)
    decreases |shots|
  {
    if |shots| > 0 {
      var r := Put(shots, s);
      ShotStepsCons(shots);
      ShotStepsCons(r);
      if shots[0].step == s.step {
        assert r[1..] == shots[1..];
      } else {
        PutSteps(shots[1..], s);
        assert r[1..] == Put(shots[1..], s);
      }
    }
  }

  /** Assigning a new key appends its entry. */
  lemma {:induction false} PutNew(shots: seq<Shot>, s: Shot)
    requires s.step !in ShotSteps(shots)
    ensures Put(shots, s) == shots + [s]
    decreases |shots|
  {
    if |shots| > 0 {
      ShotStepsCons(shots);
      PutNew(shots[1..], s);
      assert shots == [shots[0]] + shots[1..];
    }
  }

  /** Assigning a key keeps every other key's entry. */
  lemma {:induction false} PutKeepsOthers(shots: seq<Shot>, s: Shot)
    ensures forall t :: t in shots && t.step != s.step ==> t in Put(shots, s)
    decreases |shots|
  {
    if |shots| > 0 && shots[0].step != s.step {
      PutKeepsOthers(shots[1..], s);
      forall t | t in shots && t.step != s.step ensures t in Put(shots, s) {
        if t != shots[0] {
          var k :| 0 <= k < |shots| && shots[k] == t;
          assert shots[1..][k - 1] == t;
        }
      }
    }
  }

  /** Assigning a key keeps the keys unique. */
  lemma {:induction false} PutUnique(shots: seq<Shot>, s: Shot)
    requires UniqueSteps(shots)
    ensures UniqueSteps(Put(shots, s))
    decreases |shots|
  {
    if |shots| > 0 {
      UniqueTail(shots);
      if shots[0].step == s.step {
        UniqueCons(s, shots[1..]);
      } else {
        PutUnique(shots[1..], s);
        PutSteps(shots[1..], s);
        UniqueCons(shots[0], Put(shots[1..], s));
      }
    }
  }

  lemma ShotStepsCons(shots: seq<Shot>)
    requires |shots| > 0
    ensures ShotSteps(shots) == {shots[0].step} + ShotSteps(shots[1..])
  {
  }

  /** A non-empty sequence has unique steps exactly when its tail does and
      its head's step is not among the tail's. */
  lemma UniqueTail(shots: seq<Shot>)
    requires |shots| > 0
    ensures UniqueSteps(shots) <==> UniqueSteps(shots[1..]) && shots[0].step !in ShotSteps(shots[1..])
  {
  }

  lemma UniqueCons(s: Shot, tail: seq<Shot>)
    requires UniqueSteps(tail) && s.step !in ShotSteps(tail)
    ensures UniqueSteps([s] + tail)
  {
  }

  /** `on_step_end` as the source writes it: every open page is photographed,
      but the staged screenshots are a dictionary keyed by step name, so each
      page's file replaces the previous page's entry for the same step (and a
      later step of the same name replaces an earlier one's). The staged set
      grows by at most one entry per step. */
  function OnStepEndAsWritten(m: Machine, step: string, pagesOf: ContextId -> seq<PageId>, failsOn: PageId -> bool): (r: StepOutcome)
    requires Consistent(m.fs)
    ensures !m.config.captureScreenshots ==> r == StepOutcome(m, None, [])
    ensures r.machine.config == m.config
    ensures r.machine.plugin.(shots := m.plugin.shots) == m.plugin
    ensures Consistent(r.machine.fs) && m.fs.files <= r.machine.fs.files && r.machine.fs.dirs == m.fs.dirs
    ensures |r.machine.plugin.shots| <= |m.plugin.shots| + (if step in ShotSteps(m.plugin.shots) then 0 else 1)
    ensures ShotSteps(r.machine.plugin.shots) <= ShotSteps(m.plugin.shots) + {step}
    ensures forall t :: t in m.plugin.shots && t.step != step ==> t in r.machine.plugin.shots
    ensures forall t :: t in r.machine.plugin.shots && t !in m.plugin.shots ==>
      t.step == step && t.path !in m.fs.files && t.path in r.machine.fs.files
    ensures UniqueSteps(m.plugin.shots) ==> UniqueSteps(r.machine.plugin.shots)
    ensures r.raised.None? <==> !m.config.captureScreenshots || NoneFails(OpenPages(m.config.browserContexts, pagesOf), failsOn)
    ensures m.config.captureScreenshots ==> |r.taken| == Attempted(OpenPages(m.config.browserContexts, pagesOf), failsOn)
    ensures forall i :: 0 <= i < |r.taken| ==> r.taken[i].name == ScreenshotName(KeyedNumber(m.plugin.shots, step, i), step)
    ensures r.machine.fs.files == m.fs.files + (set p | p in r.taken)
    ensures (set p | p in r.taken) !! m.fs.files && NoRepeats(r.taken)
    ensures r.raised.None? && m.config.captureScreenshots && |OpenPages(m.config.browserContexts, pagesOf)| > 0 ==>
      && |r.taken| > 0
      && step in ShotSteps(r.machine.plugin.shots)
      && Shot(step, r.taken[|r.taken| - 1]) in r.machine.plugin.shots
    ensures UniqueSteps(m.plugin.shots) && r.raised.None? && |r.taken| > 0 ==>
      forall t :: t in r.machine.plugin.shots && t.step == step ==> t == Shot(step, r.taken[|r.taken| - 1])
  {
    if !m.config.captureScreenshots then StepOutcome(m, None, [])
    else
      var pages := OpenPages(m.config.browserContexts, pagesOf);
      ShootAllAsWrittenRaisesIffSomeFails(m, step, pages, failsOn);
      ShootAllAsWrittenNames(m, step, pages, failsOn);
      ShootAllAsWrittenFiles(m, step, pages, failsOn);
      ShootAllAsWrittenKeepsLast(m, step, pages, failsOn);
      var r := ShootAllAsWritten(m, step, pages, failsOn);
      assert UniqueSteps(m.plugin.shots) && r.raised.None? && |r.taken| > 0 ==>
        forall t :: t in r.machine.plugin.shots && t.step == step ==> t == Shot(step, r.taken[|r.taken| - 1]) by {
        if UniqueSteps(m.plugin.shots) && r.raised.None? && |r.taken| > 0 {
          forall t | t in r.machine.plugin.shots && t.step == step ensures t == Shot(step, r.taken[|r.taken| - 1]) {
            UniqueEntry(r.machine.plugin.shots, t, Shot(step, r.taken[|r.taken| - 1]));
          }
        }
      }
      r
  }

  function ShootAllAsWritten(m: Machine, step: string, pages: seq<PageId>, failsOn: PageId -> bool): (r: StepOutcome)
    requires Consistent(m.fs)
    ensures r.machine.config == m.config
    ensures r.machine.plugin.(shots := m.plugin.shots) == m.plugin
    ensures Consistent(r.machine.fs) && m.fs.files <= r.machine.fs.files && r.machine.fs.dirs == m.fs.dirs
    ensures |r.machine.plugin.shots| <= |m.plugin.shots| + (if step in ShotSteps(m.plugin.shots) then 0 else 1)
    ensures ShotSteps(r.machine.plugin.shots) <= ShotSteps(m.plugin.shots) + {step}
    ensures step in ShotSteps(m.plugin.shots) ==> step in ShotSteps(r.machine.plugin.shots)
    ensures forall t :: t in m.plugin.shots && t.step != step ==> t in r.machine.plugin.shots
    ensures forall t :: t in r.machine.plugin.shots && t !in m.plugin.shots ==>
      t.step == step && t.path !in m.fs.files && t.path in r.machine.fs.files
    ensures UniqueSteps(m.plugin.shots) ==> UniqueSteps(r.machine.plugin.shots)
    decreases |pages|
  {
    if |pages| == 0 then StepOutcome(m, None, [])
    else
      var n := |m.plugin.shots| + 1;
      var (path, fs') := CreateTmpFile(m.fs, ScreenshotPrefix(n, step), ".png");
      if failsOn(pages[0]) then StepOutcome(m.(fs := fs'), Some(PlaywrightError), [path])
      else
        var m' := m.(plugin := m.plugin.(shots := Put(m.plugin.shots, Shot(step, path))), fs := fs');
        PutSteps(m.plugin.shots, Shot(step, path));
        PutKeepsOthers(m.plugin.shots, Shot(step, path));
        assert UniqueSteps(m.plugin.shots) ==> UniqueSteps(m'.plugin.shots) by {
          if UniqueSteps(m.plugin.shots) { PutUnique(m.plugin.shots, Shot(step, path)); }
        }
        var r := ShootAllAsWritten(m', step, pages[1..], failsOn);
        r.(taken := [path] + r.taken)
  }

  /** The size of the staged dictionary once `step` has been assigned. */
  function KeyedSize(shots: seq<Shot>, step: string): nat {
    |shots| + (if step in ShotSteps(shots) then 0 else 1)
  }

  /** The number in the name of the file the as-written handler creates for
      page `i` (counting from 0): one more than the dictionary's size just
      before that page, which stops changing once the first page's file has
      been assigned to `step`. */
  function KeyedNumber(shots: seq<Shot>, step: string, i: nat): nat {
    if i == 0 then |shots| + 1 else KeyedSize(shots, step) + 1
  }

  /** The as-written handler raises exactly when a screenshot call on some
      page fails, and creates one file per page attempted. */
  lemma {:induction false} ShootAllAsWrittenRaisesIffSomeFails(m: Machine, step: string, pages: seq<PageId>, failsOn: PageId -> bool)
    requires Consistent(m.fs)
    ensures ShootAllAsWritten(m, step, pages, failsOn).raised.None? <==> NoneFails(pages, failsOn)
    ensures |ShootAllAsWritten(m, step, pages, failsOn).taken| == Attempted(pages, failsOn)
    decreases |pages|
  {
    if |pages| > 0 && !failsOn(pages[0]) {
      var (path, fs') := CreateTmpFile(m.fs, ScreenshotPrefix(|m.plugin.shots| + 1, step), ".png");
      var m' := m.(plugin := m.plugin.(shots := Put(m.plugin.shots, Shot(step, path))), fs := fs');
      ShootAllAsWrittenRaisesIffSomeFails(m', step, pages[1..], failsOn);
      var r' := ShootAllAsWritten(m', step, pages[1..], failsOn);
      assert ShootAllAsWritten(m, step, pages, failsOn) == r'.(taken := [path] + r'.taken);
      assert forall i :: 1 <= i < |pages| ==> pages[i] == pages[1..][i - 1];
    }
  }

  /** Each file the as-written handler creates is named after the size the
      dictionary had just before its page. */
  lemma {:induction false} ShootAllAsWrittenNames(m: Machine, step: string, pages: seq<PageId>, failsOn: PageId -> bool)
    requires Consistent(m.fs)
    ensures var r := ShootAllAsWritten(m, step, pages, failsOn);
      forall i :: 0 <= i < |r.taken| ==> r.taken[i].name == ScreenshotName(KeyedNumber(m.plugin.shots, step, i), step)
    decreases |pages|
  {
    if |pages| > 0 && !failsOn(pages[0]) {
      var (path, fs') := CreateTmpFile(m.fs, ScreenshotPrefix(|m.plugin.shots| + 1, step), ".png");
      var m' := m.(plugin := m.plugin.(shots := Put(m.plugin.shots, Shot(step, path))), fs := fs');
      PutSteps(m.plugin.shots, Shot(step, path));
      ShootAllAsWrittenNames(m', step, pages[1..], failsOn);
      assert forall i: nat :: KeyedNumber(m'.plugin.shots, step, i) == KeyedNumber(m.plugin.shots, step, i + 1);
    }
  }

  /** With at most one open page and a step name not staged yet, the
      dictionary assignment is an append, so the as-written handler and the
      corrected one do the same. */
  lemma ShootAllAgreesOnOnePage(m: Machine, step: string, pages: seq<PageId>, failsOn: PageId -> bool)
    requires Consistent(m.fs) && |pages| <= 1 && step !in ShotSteps(m.plugin.shots)
    ensures ShootAllAsWritten(m, step, pages, failsOn) == ShootAll(m, step, pages, failsOn)
  {
    if |pages| == 1 && !failsOn(pages[0]) {
      var (path, fs') := CreateTmpFile(m.fs, ScreenshotPrefix(|m.plugin.shots| + 1, step), ".png");
      PutNew(m.plugin.shots, Shot(step, path));
    }
  }

  lemma OnStepEndAgreesOnOnePage(m: Machine, step: string, pagesOf: ContextId -> seq<PageId>, failsOn: PageId -> bool)
    requires Consistent(m.fs)
    requires |OpenPages(m.config.browserContexts, pagesOf)| <= 1 && step !in ShotSteps(m.plugin.shots)
    ensures OnStepEndAsWritten(m, step, pagesOf, failsOn) == OnStepEnd(m, step, pagesOf, failsOn)
  {
    if m.config.captureScreenshots {
      ShootAllAgreesOnOnePage(m, step, OpenPages(m.config.browserContexts, pagesOf), failsOn);
    }
  }

  /** No path occurs twice. */
  predicate NoRepeats(ps: seq<Path>) {
    |ps| == 0 || (ps[0] !in ps[1..] && NoRepeats(ps[1..]))
  }

  /** The as-written handler adds exactly the files it created, each of them
      new and none twice. */
  lemma {:induction false} ShootAllAsWrittenFiles(m: Machine, step: string, pages: seq<PageId>, failsOn: PageId -> bool)
    requires Consistent(m.fs)
    ensures var r := ShootAllAsWritten(m, step, pages, failsOn);
      && r.machine.fs.files == m.fs.files + (set p | p in r.taken)
      && (set p | p in r.taken) !! m.fs.files
      && NoRepeats(r.taken)
    decreases |pages|
  {
    if |pages| > 0 {
      var (path, fs') := CreateTmpFile(m.fs, ScreenshotPrefix(|m.plugin.shots| + 1, step), ".png");
      if !failsOn(pages[0]) {
        var m' := m.(plugin := m.plugin.(shots := Put(m.plugin.shots, Shot(step, path))), fs := fs');
        ShootAllAsWrittenFiles(m', step, pages[1..], failsOn);
        var r' := ShootAllAsWritten(m', step, pages[1..], failsOn);
        var r := ShootAllAsWritten(m, step, pages, failsOn);
        assert r == r'.(taken := [path] + r'.taken);
        assert r.taken[1..] == r'.taken;
        assert (set p | p in r.taken) == {path} + (set p | p in r'.taken);
      }
    }
  }

  /** When no call fails and there is a page, the entry the as-written
      handler leaves for `step` is the last page's file. */
  lemma {:induction false} ShootAllAsWrittenKeepsLast(m: Machine, step: string, pages: seq<PageId>, failsOn: PageId -> bool)
    requires Consistent(m.fs)
    ensures var r := ShootAllAsWritten(m, step, pages, failsOn);
      r.raised.None? && |pages| > 0 ==> |r.taken| > 0 && Shot(step, r.taken[|r.taken| - 1]) in r.machine.plugin.shots
    decreases |pages|
  {
    if |pages| > 0 {
      var (path, fs') := CreateTmpFile(m.fs, ScreenshotPrefix(|m.plugin.shots| + 1, step), ".png");
      if !failsOn(pages[0]) {
        var m' := m.(plugin := m.plugin.(shots := Put(m.plugin.shots, Shot(step, path))), fs := fs');
        ShootAllAsWrittenKeepsLast(m', step, pages[1..], failsOn);
        var r' := ShootAllAsWritten(m', step, pages[1..], failsOn);
        var r := ShootAllAsWritten(m, step, pages, failsOn);
        assert r == r'.(taken := [path] + r'.taken);
        if |pages| == 1 {
          assert r' == StepOutcome(m', None, []);
        } else if r'.raised.None? {
          assert r.taken[|r.taken| - 1] == r'.taken[|r'.taken| - 1];
        }
      }
    }
  }

  /** In a dictionary, two entries with the same key are the same entry. */
  lemma UniqueEntry(shots: seq<Shot>, a: Shot, b: Shot)
    requires UniqueSteps(shots) && a in shots && b in shots && a.step == b.step
    ensures a == b
  {
  }

  // ---------------------------------------------------------------------
  // on_scenario_end

  /** `_create_trace_artifact`. */
  function TraceArtifact(t: Path): (a: Artifact)
    ensures a.mimeType == "application/zip" && a.path == t && a.name == t.name
  {
    FileArtifact(t.name, "application/zip", t)
  }

  /** `_create_video_artifact`. */
  function VideoArtifact(v: Path): (a: Artifact)
    ensures a.mimeType == "video/webm" && a.path == v && a.name == "pw_video_" + v.name
  {
    FileArtifact("pw_video_" + v.name, "video/webm", v)
  }

  /** `_create_screenshot_artifact`. */
  function ScreenshotArtifact(s: Path): (a: Artifact)
    ensures a.mimeType == "image/png" && a.path == s && a.name == s.name
  {
    FileArtifact(s.name, "image/png", s)
  }

  /** The file system and scenario result after (part of) the end handler. */
  datatype Ended = Ended(fs: Fs, result: ScenarioResult)

  /** A staged trace is either attached to the scenario result as one zip
      artifact (and kept on disk) or deleted (and nothing attached), as the
      mode and the outcome decide. */
  function EndTrace(p: PluginState, fs: Fs, res: ScenarioResult, isFailed: bool): (r: Ended)
    ensures p.capturedTrace.None? ==> r == Ended(fs, res)
    ensures p.capturedTrace.Some? && ShouldRetain(p.traceMode, isFailed) ==>
      && r.result.artifacts == res.artifacts + [TraceArtifact(p.capturedTrace.value)]
      && r.result.steps == res.steps && r.result.uniqueId == res.uniqueId
      && r.fs == fs
    ensures p.capturedTrace.Some? && !ShouldRetain(p.traceMode, isFailed) ==>
      && r.result == res
      && p.capturedTrace.value !in r.fs.files
      && (forall q :: q != p.capturedTrace.value ==> (q in r.fs.files <==> q in fs.files))
    ensures r.fs.dirs == fs.dirs && r.fs.next == fs.next && r.fs.files <= fs.files
    ensures Extends(res, r.result)
    ensures ArtifactCount(r.result) == ArtifactCount(res)
              + (if p.capturedTrace.Some? && ShouldRetain(p.traceMode, isFailed) then 1 else 0)
  {
    match p.capturedTrace
    case None => Ended(fs, res)
    case Some(t) =>
      if ShouldRetain(p.traceMode, isFailed) then Ended(fs, AttachToScenario(res, TraceArtifact(t)))
      else Ended(Unlink(fs, t), res)
  }

  /** The first file found in the staged video directory, if any, is either
      attached to the scenario result as one webm artifact or deleted; with no
      file written there nothing happens. */
  function EndVideo(p: PluginState, fs: Fs, res: ScenarioResult, isFailed: bool, listing: seq<Path>): (r: Ended)
    requires p.capturedVideo.Some? ==> Lists(fs, p.capturedVideo.value, listing)
    ensures FindFile(fs, p.capturedVideo, listing).None? ==> r == Ended(fs, res)
    ensures var v := FindFile(fs, p.capturedVideo, listing);
      v.Some? && ShouldRetain(p.videoMode, isFailed) ==>
      && r.result.artifacts == res.artifacts + [VideoArtifact(v.value)]
      && r.result.steps == res.steps && r.result.uniqueId == res.uniqueId
      && r.fs == fs
    ensures var v := FindFile(fs, p.capturedVideo, listing);
      v.Some? && !ShouldRetain(p.videoMode, isFailed) ==>
      && r.result == res
      && v.value !in r.fs.files
      && (forall q :: q != v.value ==> (q in r.fs.files <==> q in fs.files))
    ensures r.fs.dirs == fs.dirs && r.fs.next == fs.next && r.fs.files <= fs.files
    ensures Extends(res, r.result)
    ensures ArtifactCount(r.result) == ArtifactCount(res)
      + (if FindFile(fs, p.capturedVideo, listing).Some? && ShouldRetain(p.videoMode, isFailed) then 1 else 0)
    ensures var d := p.capturedVideo;
      d.Some? && d.value in fs.dirs && (exists v :: IsFileIn(fs, v, d.value)) ==>
        if ShouldRetain(p.videoMode, isFailed)
        then exists v :: IsFileIn(fs, v, d.value) && r.result.artifacts == res.artifacts + [VideoArtifact(v)]
        else exists v :: IsFileIn(fs, v, d.value) && v !in r.fs.files
  {
    match FindFile(fs, p.capturedVideo, listing)
    case None => Ended(fs, res)
    case Some(v) =>
      if ShouldRetain(p.videoMode, isFailed) then Ended(fs, AttachToScenario(res, VideoArtifact(v)))
      else Ended(Unlink(fs, v), res)
  }

  /** Every staged screenshot, in staging order, is either attached as a png
      artifact to the result of the step it was taken after (the scenario
      result when no step of that name is found) or deleted; one decision
      covers them all. */
  function EndShots(shots: seq<Shot>, mode: CaptureMode, isFailed: bool, fs: Fs, res: ScenarioResult): (r: Ended)
    ensures ShouldRetain(mode, isFailed) ==>
      && r.fs == fs
      && (forall i :: 0 <= i < |shots| ==> Placed(r.result, shots[i].step, ScreenshotArtifact(shots[i].path)))
      && ArtifactCount(r.result) == ArtifactCount(res) + |shots|
    ensures !ShouldRetain(mode, isFailed) ==>
      && r.result == res
      && (forall i :: 0 <= i < |shots| ==> shots[i].path !in r.fs.files)
      && (forall q :: q !in ShotPaths(shots) ==> (q in r.fs.files <==> q in fs.files))
    ensures r.fs.dirs == fs.dirs && r.fs.next == fs.next && r.fs.files <= fs.files
    ensures Extends(res, r.result)
  {
    if ShouldRetain(mode, isFailed) then Ended(fs, AttachShots(shots, res))
    else Ended(DeleteShots(shots, fs), res)
  }

  /** Attaches one png artifact per staged screenshot, each where its step's
      result is. */
  function AttachShots(shots: seq<Shot>, res: ScenarioResult): (r: ScenarioResult)
    ensures forall i :: 0 <= i < |shots| ==> Placed(r, shots[i].step, ScreenshotArtifact(shots[i].path))
    ensures ArtifactCount(r) == ArtifactCount(res) + |shots|
    ensures Extends(res, r)
    decreases |shots|
  {
    if |shots| == 0 then res
    else
      var s := shots[0];
      var res' := AttachToStep(res, s.step, ScreenshotArtifact(s.path));
      var r := AttachShots(shots[1..], res');
      ExtendsTransitive(res, res', r);
      PlacedPersists(res', r, s.step, ScreenshotArtifact(s.path));
      assert forall i :: 1 <= i < |shots| ==> shots[i] == shots[1..][i - 1];
      r
  }

  /** Deletes every staged screenshot and nothing else. */
  function DeleteShots(shots: seq<Shot>, fs: Fs): (r: Fs)
    ensures forall i :: 0 <= i < |shots| ==> shots[i].path !in r.files
    ensures forall q :: q !in ShotPaths(shots) ==> (q in r.files <==> q in fs.files)
    ensures r.dirs == fs.dirs && r.next == fs.next && r.files <= fs.files
    decreases |shots|
  {
    if |shots| == 0 then fs
    else
      var r := DeleteShots(shots[1..], Unlink(fs, shots[0].path));
      assert forall i :: 1 <= i < |shots| ==> shots[i] == shots[1..][i - 1];
      assert ShotPaths(shots) == {shots[0].path} + ShotPaths(shots[1..]);
      r
  }

  /** `on_scenario_end`: trace, then video, then screenshots. `listing` is the
      order in which the file system lists the video directory. */
  function OnScenarioEnd(m: Machine, res: ScenarioResult, isFailed: bool, listing: seq<Path>): (r: Ended)
    requires m.plugin.capturedVideo.Some? ==> Lists(m.fs, m.plugin.capturedVideo.value, listing)
    ensures Extends(res, r.result)
    ensures r.fs.dirs == m.fs.dirs && r.fs.next == m.fs.next && r.fs.files <= m.fs.files
    ensures Consistent(m.fs) ==> Consistent(r.fs)
    ensures var p := m.plugin;
      p.capturedTrace.Some? && ShouldRetain(p.traceMode, isFailed) ==>
      TraceArtifact(p.capturedTrace.value) in r.result.artifacts
    ensures var p := m.plugin;
      p.capturedTrace.Some? && !ShouldRetain(p.traceMode, isFailed) ==> p.capturedTrace.value !in r.fs.files
    ensures var p := m.plugin;
      ShouldRetain(p.screenshotsMode, isFailed) ==>
      forall i :: 0 <= i < |p.shots| ==> Placed(r.result, p.shots[i].step, ScreenshotArtifact(p.shots[i].path))
    ensures var p := m.plugin;
      !ShouldRetain(p.screenshotsMode, isFailed) ==> forall i :: 0 <= i < |p.shots| ==> p.shots[i].path !in r.fs.files
    ensures var p := m.plugin;
      ArtifactCount(r.result) == ArtifactCount(res)
        + (if p.capturedTrace.Some? && ShouldRetain(p.traceMode, isFailed) then 1 else 0)
        + (if FindFile(EndTrace(p, m.fs, res, isFailed).fs, p.capturedVideo, listing).Some?
              && ShouldRetain(p.videoMode, isFailed) then 1 else 0)
        + (if ShouldRetain(p.screenshotsMode, isFailed) then |p.shots| else 0)
  {
    var p := m.plugin;
    var e1 := EndTrace(p, m.fs, res, isFailed);
    assert p.capturedVideo.Some? ==> Lists(e1.fs, p.capturedVideo.value, listing);
    var e2 := EndVideo(p, e1.fs, e1.result, isFailed, listing);
    var e3 := EndShots(p.shots, p.screenshotsMode, isFailed, e2.fs, e2.result);
    ExtendsTransitive(res, e1.result, e2.result);
    ExtendsTransitive(res, e2.result, e3.result);
    ExtendsTransitive(e1.result, e2.result, e3.result);
    assert p.capturedTrace.Some? && ShouldRetain(p.traceMode, isFailed) ==>
             TraceArtifact(p.capturedTrace.value) in e3.result.artifacts by {
      if p.capturedTrace.Some? && ShouldRetain(p.traceMode, isFailed) {
        var k := |res.artifacts|;
        assert e1.result.artifacts[k] == TraceArtifact(p.capturedTrace.value);
        assert e3.result.artifacts[k] == e1.result.artifacts[k];
      }
    }
    e3
  }

  /** A video the browser wrote into the staged directory (and that is not
      the staged trace file) is attached as a webm artifact when the video
      mode retains it, and deleted otherwise. */
  lemma VideoResolved(m: Machine, res: ScenarioResult, isFailed: bool, listing: seq<Path>)
    requires m.plugin.capturedVideo.Some? ==> Lists(m.fs, m.plugin.capturedVideo.value, listing)
    ensures var p := m.plugin;
      var d := p.capturedVideo;
      var r := OnScenarioEnd(m, res, isFailed, listing);
      d.Some? && d.value in m.fs.dirs && (exists v :: IsFileIn(m.fs, v, d.value) && Some(v) != p.capturedTrace) ==>
        if ShouldRetain(p.videoMode, isFailed)
        then exists v :: IsFileIn(m.fs, v, d.value) && VideoArtifact(v) in r.result.artifacts
        else exists v :: IsFileIn(m.fs, v, d.value) && v !in r.fs.files
  {
    var p := m.plugin;
    var e1 := EndTrace(p, m.fs, res, isFailed);
    assert p.capturedVideo.Some? ==> Lists(e1.fs, p.capturedVideo.value, listing);
    var e2 := EndVideo(p, e1.fs, e1.result, isFailed, listing);
    var e3 := EndShots(p.shots, p.screenshotsMode, isFailed, e2.fs, e2.result);
    assert OnScenarioEnd(m, res, isFailed, listing) == e3;
    var d := p.capturedVideo;
    assert d.Some? && d.value in m.fs.dirs && (exists v :: IsFileIn(m.fs, v, d.value) && Some(v) != p.capturedTrace) ==>
      if ShouldRetain(p.videoMode, isFailed)
      then exists v :: IsFileIn(m.fs, v, d.value) && VideoArtifact(v) in e3.result.artifacts
      else exists v :: IsFileIn(m.fs, v, d.value) && v !in e3.fs.files by {
      if d.Some? && d.value in m.fs.dirs && (exists v :: IsFileIn(m.fs, v, d.value) && Some(v) != p.capturedTrace) {
        var v0 :| IsFileIn(m.fs, v0, d.value) && Some(v0) != p.capturedTrace;
        assert IsFileIn(e1.fs, v0, d.value);
        if ShouldRetain(p.videoMode, isFailed) {
          var w :| IsFileIn(e1.fs, w, d.value) && e2.result.artifacts == e1.result.artifacts + [VideoArtifact(w)];
          var k := |e1.result.artifacts|;
          assert e3.result.artifacts[k] == e2.result.artifacts[k];
          assert IsFileIn(m.fs, w, d.value);
        } else {
          var w :| IsFileIn(e1.fs, w, d.value) && w !in e2.fs.files;
          assert IsFileIn(m.fs, w, d.value);
        }
      }
    }
  }
}
