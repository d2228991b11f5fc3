# vedro-pw: artifact capture and configuration, in Dafny

vedro-pw is a plugin for the vedro test framework. It drives Playwright browsers from
scenarios and records a trace, a video and step screenshots per scenario. Each recording is
controlled by a *capture mode*: `always`, `never`, `on-reschedule` or `on-failure`. This project
models the plugin's decision logic and how it passes configuration from the plugin to the browser
factories. Browser I/O is left opaque.

What is modelled:

- **Capture modes and policy** (`CaptureModes`, `CapturePolicy`). The four-valued enum, its
  string values and parsing. `ShouldCapture` decides whether an artifact is recorded at scenario
  start; `ShouldRetain` decides whether it is kept at scenario end.
- **The plugin** (`PwPlugin`). Its state is:
  - the previous scenario id;
  - the staged trace file and video directory;
  - the staged screenshots.

  Each event handler is a pure function over a `Machine`: plugin state, runtime configuration
  and an abstract file system. The handlers are `on_arg_parsed`, `on_scenario_run`,
  `on_step_end` and `on_scenario_end`. Scenario and step results are lists of attached artifacts.

  `on_step_end` appears twice. `PwPlugin.OnStepEndAsWritten` stages screenshots in a dictionary
  keyed by step name, as the code does. `PwPlugin.OnStepEnd` is the corrected handler proposed
  under "## Findings": it stages every screenshot taken. The scenario properties in
  `PluginProperties` use the corrected handler, except those that name the as-written one.
- **The runtime configuration** (`RuntimeConfigs`). One record holds every field the plugin and
  the factories use. Each setter is a function. There is one guarded setter: a negative slowmo
  raises.
- **Browser factories** (`AsyncApi`, `ConfigurableBrowsers`). These are the option overlays of
  `launched_local_browser`, `launched_remote_browser` and `ConfigurableBrowser.new_context`. The
  model also covers the local/remote switch and the deferred clean-up actions. Deferred actions
  are an ordered list; nothing says when they run.
- **Name and device resolution** (`Utils`, `Browsers`). Covers `get_browser_type`, including the
  random browser, and `get_device_options` with its error.
- **Supporting modules**:
  - `Files`: fresh temporary files and directories, unlink with `missing_ok=True`, finding a file
    in a directory.
  - `Host`: vedro's artifacts, step results and scenario results.
  - `Values`: Python values and dictionaries as `map<string, Value>`.
  - `Playwright`: the opaque Playwright objects.
  - `Wrappers` and `Errors`: results and Python exceptions.
- **Whole-scenario properties** (`PluginProperties`):
  - the trace lifecycle;
  - rescheduled runs;
  - a two-step run with screenshots;
  - both halves of the finding below.

Things the code leaves to its environment become parameters:

- the random browser draw (`pick`);
- the order in which a directory is listed (`listing`);
- the pages open in each context (`pagesOf`);
- which screenshot calls fail (`failsOn`);
- which Playwright call throws (`Throwing`).

Facts about the code that the model keeps:

- The local launch copies every keyword argument, including a falsy `timeout`. The runtime
  browser timeout is added only when it is truthy, so "0 means absent" holds only for that
  fallback (`AsyncApi.LocalLaunchOptions`).
- The code has no `--pw-headless`, `--pw-debug` or `--pw-open-last-trace` option.
- The code does not catch errors raised by a screenshot call.
- The code does not clear the trace or video options when capture is off.

The repository's files disagree with each other, and the model resolves them as follows:

- `vedro_pw/_runtime_config.py` is an older version than its callers. It lacks the device, remote,
  timeout, option and context-registry members, and it types the capture settings as
  `CaptureMode`.
  - The model uses one record holding the union of the fields its callers use.
  - The capture settings are booleans, as `on_scenario_run` sets them.
  - The defaults of the missing fields are assumptions: no device, `{}` options, not remote,
    endpoint `ws://localhost:3000`, no timeouts, no contexts.
- `vedro_pw/_pw_browser.py` has no `RANDOM` member, but `vedro_pw/_utils.py:31-33` uses one.
  - The model adds `Random`.
  - It treats the enum as string-valued, since `_utils.py:31` compares a value string with the
    member.
- `ConfigurableBrowser.__init__` as shown takes no `device_options`, yet the factories pass them.
  `new_context` reads the device options from the module-level configuration, and the model does
  the same.

## Model

| member | source | states |
|---|---|---|
| CaptureModes.Str | vedro_pw/_capture_mode.py:22-28 | `str(mode)` is the mode's value, and parsing that string gives the mode back |
| CaptureModes.Parse | vedro_pw/_capture_mode.py:6-20 | a parsed mode carries exactly the given string; a failed parse is a `ValueError` and no mode has that value |
| CaptureModes.ExactlyFourModes | vedro_pw/_capture_mode.py:17-20 | there are exactly four modes, pairwise distinct, whose values are "always", "never", "on-reschedule", "on-failure" |
| CaptureModes.ValueInjective | vedro_pw/_capture_mode.py:17-20 | different modes have different values |
| CaptureModes.ValueRoundTrip | vedro_pw/_capture_mode.py:6-20 | parsing a mode's value yields that mode |
| CaptureModes.ParseRoundTrip | vedro_pw/_capture_mode.py:6-20 | a successfully parsed string is the value of its result, and re-parsing that value gives the same result |
| CapturePolicy.ShouldCapture | vedro_pw/_pw_plugin.py:148-154 | true for ALWAYS and ON_FAILURE, true for ON_RESCHEDULE exactly on a rescheduled run, false for NEVER |
| CapturePolicy.ShouldRetain | vedro_pw/_pw_plugin.py:156-162 | true for ALWAYS and ON_RESCHEDULE, true for ON_FAILURE exactly on failure, false for NEVER |
| CapturePolicy.CapturedAndKept | vedro_pw/_pw_plugin.py:148-162 | an artifact is captured and kept iff ALWAYS, or ON_RESCHEDULE on a rescheduled run, or ON_FAILURE on a failed one |
| CapturePolicy.CapturedButDiscarded | vedro_pw/_pw_plugin.py:148-162 | an artifact is captured and then discarded iff ON_FAILURE and the scenario passed |
| CapturePolicy.NeverIsInert | vedro_pw/_pw_plugin.py:148-162 | NEVER neither captures nor retains, whatever the run |
| Browsers.Parse | vedro_pw/_pw_browser.py:6-9 | a parsed browser carries exactly the given string; a failure is a `ValueError` and no member has that value |
| Browsers.ValueInjective | vedro_pw/_pw_browser.py:6-9 | different browsers have different values |
| Browsers.ValueRoundTrip | vedro_pw/_pw_browser.py:6-9 | parsing a browser's value yields that browser |
| Browsers.ConcreteIsAllButRandom | vedro_pw/_utils.py:31-33 | the random choice ranges over every member except RANDOM, each once |
| Utils.Normalise | vedro_pw/_utils.py:28-29 | an enum member becomes its value string; a plain string is kept |
| Utils.GetBrowserType | vedro_pw/_utils.py:14-35 | a non-random name is looked up as the attribute of that name, failing with `AttributeError` when absent; RANDOM looks up one of the three concrete browsers; a success is always an existing browser type |
| Utils.RandomReachesEveryBrowser | vedro_pw/_utils.py:31-33 | every available concrete browser is a possible outcome of RANDOM |
| Utils.UnsupportedDeviceMessage | vedro_pw/_utils.py:59-63 | the error message contains the device name |
| Utils.GetDeviceOptions | vedro_pw/_utils.py:38-64 | no name gives None; a known name gives exactly its registry entry; an unknown name raises `ValueError` naming the device |
| Values.GetOr | vedro_pw/async_api.py:108-109 | `dict.get(key, default)`: the entry when present, the default otherwise |
| Values.Overlay | vedro_pw/_configurable_browser.py:19-22 | `{**base, **top}`: the union of keys, with the top entry winning each clash |
| Files.CreateTmpFile | vedro_pw/_pw_plugin.py:126 | a new file, not previously present, named prefix + suffix, and nothing else changes |
| Files.CreateTmpDir | vedro_pw/_pw_plugin.py:137 | a new directory named by the prefix, holding no file, and nothing else changes |
| Files.Unlink | vedro_pw/_pw_plugin.py:183 | the file is gone afterwards, whether or not it existed, and no other file changes |
| Files.FindFile | vedro_pw/_pw_plugin.py:202-207 | a result is always a file of the directory, taken from the listing; None exactly when there is no directory or no listed entry is a file in it; when the listing lists every file of the directory, a file is found iff the directory exists and holds one |
| Files.FirstFileIn | vedro_pw/_pw_plugin.py:204-206 | the first listed entry that is a file of the directory, or None exactly when no listed entry is |
| Host.LastIndexOf | vedro_pw/_pw_plugin.py:193 | `{x.step.name: x}` keeps the last step of a name: the index found has that name and no later step does; None iff no step has it |
| Host.AttachToScenario | vedro_pw/_pw_plugin.py:180 | the artifact is appended to the scenario's own artifacts; steps and id are unchanged |
| Host.AttachToStep | vedro_pw/_pw_plugin.py:196-197 | the artifact lands on the last step of that name, or on the scenario when there is none; exactly one artifact is added and nothing else changes |
| RuntimeConfigs.Fresh | vedro_pw/_runtime_config.py:8-14 | Chromium, headless, slowmo 0, nothing captured, no timeouts, no contexts; the invariant holds |
| RuntimeConfigs.SetBrowser | vedro_pw/_runtime_config.py:20-21 | stores the browser; every other field is unchanged |
| RuntimeConfigs.SetHeaded | vedro_pw/_runtime_config.py:27-28 | stores the flag; every other field is unchanged |
| RuntimeConfigs.SetSlowmo | vedro_pw/_runtime_config.py:34-37 | raises `ValueError("Slowmo must be a non-negative integer")` iff the value is negative; otherwise stores it, changes nothing else and leaves a valid configuration |
| RuntimeConfigs.SetDevice | vedro_pw/_pw_plugin.py:102 | stores the device name; every other field is unchanged |
| RuntimeConfigs.SetRemote | vedro_pw/_pw_plugin.py:104 | stores the remote flag; every other field is unchanged |
| RuntimeConfigs.SetRemoteEndpoint | vedro_pw/_pw_plugin.py:105 | stores the endpoint; every other field is unchanged |
| RuntimeConfigs.SetTimeout | vedro_pw/_pw_plugin.py:112 | the default timeout becomes set to the value; every other field is unchanged |
| RuntimeConfigs.SetNavigationTimeout | vedro_pw/_pw_plugin.py:114 | the navigation timeout becomes set to the value; every other field is unchanged |
| RuntimeConfigs.SetBrowserTimeout | vedro_pw/_pw_plugin.py:116 | the browser timeout becomes set to the value; every other field is unchanged |
| RuntimeConfigs.SetCaptureTrace | vedro_pw/_runtime_config.py:57-58 | stores the trace toggle; every other field is unchanged |
| RuntimeConfigs.SetTraceOptions | vedro_pw/_pw_plugin.py:127-131 | stores the trace options; every other field is unchanged |
| RuntimeConfigs.SetCaptureVideo | vedro_pw/_runtime_config.py:50-51 | stores the video toggle; every other field is unchanged |
| RuntimeConfigs.SetVideoOptions | vedro_pw/_pw_plugin.py:138-141 | stores the video options; every other field is unchanged |
| RuntimeConfigs.SetCaptureScreenshots | vedro_pw/_runtime_config.py:43-44 | stores the screenshot toggle; every other field is unchanged |
| RuntimeConfigs.Without | vedro_pw/_configurable_browser.py:30 | removes the context and keeps every other one; keeps the registry free of duplicates and shrinks it by one when the context was there |
| RuntimeConfigs.AddBrowserContext | vedro_pw/_configurable_browser.py:45 | a new context is appended once and an already registered one is not repeated; nothing else changes |
| RuntimeConfigs.RemoveBrowserContext | vedro_pw/_configurable_browser.py:30 | the context is no longer registered and every other one still is; removing an unregistered context changes nothing |
| RuntimeConfigs.RemoveIdempotent | vedro_pw/_configurable_browser.py:30 | removing a context twice is removing it once |
| RuntimeConfigs.WithoutAppended | vedro_pw/_configurable_browser.py:30 | removing a just-appended new context gives back the earlier registry |
| RuntimeConfigs.AddThenRemove | vedro_pw/_configurable_browser.py:30-45 | registering a new context and later removing it restores the configuration |
| RuntimeConfigs.Apply | vedro_pw/_runtime_config.py:17-58 | of all configuration calls, only a negative slowmo raises, with the slowmo message |
| RuntimeConfigs.ApplyAll | vedro_pw/_runtime_config.py:34-36 | a run of calls raises only the slowmo error, and not at all when no call passes a negative slowmo |
| RuntimeConfigs.ApplyAllKeepsValid | vedro_pw/_runtime_config.py:34-37 | slowmo stays non-negative after any run of calls, including one cut short by a rejected slowmo |
| RuntimeConfigs.FreshStaysValid | vedro_pw/_runtime_config.py:11 | from a fresh configuration, slowmo is non-negative after any run of calls |
| ConfigurableBrowsers.ContextOptions | vedro_pw/_configurable_browser.py:19-26 | module-level device options overlaid by the keyword arguments; with video on, `record_video_dir` is the configured video directory, overriding any argument, and a missing entry raises `KeyError` |
| ConfigurableBrowsers.NewContext | vedro_pw/_configurable_browser.py:18-47 | the context gets the timeouts that are set and tracing iff trace capture is on. Deferred: close, then registry removal, then trace stop with the trace path. The context is registered last. Any failure leaves the configuration unchanged |
| AsyncApi.BrowserOrConfigured | vedro_pw/async_api.py:114 | a truthy browser argument wins; otherwise the configured browser |
| AsyncApi.DeviceOrConfigured | vedro_pw/async_api.py:119 | a non-empty device argument wins; otherwise the configured device |
| AsyncApi.LocalLaunchOptions | vedro_pw/async_api.py:106-112 | `headless` is the argument if given, else not headed; `slow_mo` is the argument if given, else the configured slowmo; a given `timeout` passes through, else the browser timeout is added only when truthy; every other argument passes unchanged and no other key appears |
| AsyncApi.RemoteConnectOptions | vedro_pw/async_api.py:142-146 | `ws_endpoint` is the argument if given, else the configured endpoint; `slow_mo` likewise; the keys are the arguments' plus these two, and every argument passes unchanged |
| AsyncApi.Finish | vedro_pw/async_api.py:148-154 | on success, the browser type resolved and the device options looked up; an unknown browser fails; the only deferred action added is the browser close |
| AsyncApi.LaunchedLocalBrowser | vedro_pw/async_api.py:87-120 | the Playwright exit is deferred iff no Playwright instance was given; a success launches locally with the local options |
| AsyncApi.LaunchedRemoteBrowser | vedro_pw/async_api.py:123-154 | the Playwright exit is deferred iff no instance was given and auto-close is on; a success connects with the remote options |
| AsyncApi.LaunchedBrowser | vedro_pw/async_api.py:59-84 | the remote path is taken iff the configuration says remote. Playwright's exit is deferred iff no Playwright instance was passed in, and on the remote path only when `auto_close` is set |
| AsyncApi.ContextOnConfigurable | vedro_pw/async_api.py:166-169 | a context made through the configurable browser is registered, and its close and registry removal are each deferred exactly once |
| AsyncApi.CreatedBrowserContext | vedro_pw/async_api.py:157-180 | a plain browser gets exactly one deferred close and no registry change; a configurable browser's context is registered; either way the close is deferred exactly once |
| PwPlugin.Defaults | vedro_pw/_pw_plugin.py:222-240 | Chromium, headless, slowmo 0, local, `ws://localhost:3000`, all modes NEVER, no timeouts |
| PwPlugin.Init | vedro_pw/_pw_plugin.py:26-48 | modes copied from the configuration; nothing staged and no previous scenario |
| PwPlugin.Override | vedro_pw/_pw_plugin.py:111-116 | a configured timeout replaces the runtime one; an unset one leaves it as it was |
| PwPlugin.OnArgParsed | vedro_pw/_pw_plugin.py:98-116 | raises the slowmo error iff the parsed slowmo is negative. Otherwise it pushes browser, headed, slowmo, device, remote and endpoint, copies the three modes, overrides a timeout only when configured, and leaves everything else as it was |
| PwPlugin.StageTrace | vedro_pw/_pw_plugin.py:122-131 | the trace toggle is on and a fresh file named `pw_trace_` + `.zip` is staged iff the policy captures; the trace options point at that file with screenshots and snapshots on |
| PwPlugin.StageVideo | vedro_pw/_pw_plugin.py:133-141 | the video toggle is on and a fresh empty directory named `pw_video_` is staged iff the policy captures; the video options point at it |
| PwPlugin.OnScenarioRun | vedro_pw/_pw_plugin.py:118-146 | a run is rescheduled iff its id equals the previous one, and the id is stored. Each toggle and staging path is set iff the policy captures. Staged paths are fresh. Screenshots are reset. Nothing else changes |
| PwPlugin.OnStepEnd | vedro_pw/_pw_plugin.py:164-172 | the fix proposed under "## Findings": each page's file gets its own entry instead of a dictionary slot. With the toggle off, nothing changes. Otherwise every open page is photographed into a fresh file numbered by the screenshots staged so far, until a call fails. It raises iff some screenshot call fails. It adds exactly the files it created and stages them all in order, except the failing call's |
| PwPlugin.DigitChar | vedro_pw/_pw_plugin.py:169 | the character of a decimal digit is a digit character of that value |
| PwPlugin.DigitsShape | vedro_pw/_pw_plugin.py:169 | a number's decimal digits are digit characters, with no leading zero unless the number is 0 |
| PwPlugin.DigitsInjective | vedro_pw/_pw_plugin.py:169 | different numbers have different decimal digits |
| PwPlugin.Pad2Injective | vedro_pw/_pw_plugin.py:169 | `{n:02}` gives different strings for different numbers |
| PwPlugin.ScreenshotNameInjective | vedro_pw/_pw_plugin.py:168-169 | two screenshots of one step with different numbers never share a name |
| PwPlugin.AttemptedStopsAtFirstFailure | vedro_pw/_pw_plugin.py:166-171 | a handler that stops at the first failing call reaches every page when none fails; otherwise the last page it reaches is the first failing one |
| PwPlugin.ShootAllFiles | vedro_pw/_pw_plugin.py:166-172 | the corrected loop adds exactly the files it created |
| PwPlugin.ShootAllStagesTaken | vedro_pw/_pw_plugin.py:166-172 | when no call fails, the corrected loop stages every file it created, in order |
| PwPlugin.ShootAllStagesBeforeFailure | vedro_pw/_pw_plugin.py:166-172 | when a call fails, the corrected loop has staged every file it created except the failing call's, the last one |
| PwPlugin.ShootAllRaisesIffSomeFails | vedro_pw/_pw_plugin.py:170-171 | the step handler raises exactly when the screenshot call of some open page fails |
| PwPlugin.Put | vedro_pw/_pw_plugin.py:172 | dictionary assignment: the new entry is present, and every entry was there before or is the new one |
| PwPlugin.PutSteps | vedro_pw/_pw_plugin.py:172 | assigning adds the key and grows the dictionary only for a new key |
| PwPlugin.PutKeepsOthers | vedro_pw/_pw_plugin.py:172 | assigning keeps every entry of another key |
| PwPlugin.PutUnique | vedro_pw/_pw_plugin.py:172 | assigning keeps the keys unique |
| PwPlugin.PutNew | vedro_pw/_pw_plugin.py:172 | assigning a key not yet present appends its entry |
| PwPlugin.UniqueEntry | vedro_pw/_pw_plugin.py:172 | in a dictionary, two entries with the same key are the same entry |
| PwPlugin.OnStepEndAsWritten | vedro_pw/_pw_plugin.py:164-172 | the source's keyed staging. With the toggle off, nothing changes. Otherwise it raises iff some screenshot call fails, and it creates one fresh file per page up to the first failing call. Each file is named with one more than the dictionary's size just before its page. It adds exactly those files. At most one entry is added, under the step's name, and other steps' entries are kept. When no call fails and a page is open, the step's entry is the last page's file |
| PwPlugin.ShootAllAsWrittenRaisesIffSomeFails | vedro_pw/_pw_plugin.py:166-172 | the keyed loop raises exactly when some page's screenshot call fails, and creates one file per page attempted |
| PwPlugin.ShootAllAsWrittenNames | vedro_pw/_pw_plugin.py:168-170 | the keyed loop names each file after the dictionary's size just before its page |
| PwPlugin.ShootAllAsWrittenFiles | vedro_pw/_pw_plugin.py:166-172 | the keyed loop adds exactly the files it created, each new and none twice |
| PwPlugin.ShootAllAsWrittenKeepsLast | vedro_pw/_pw_plugin.py:166-172 | when no call fails and a page is open, the keyed loop leaves the last page's file under the step's name |
| PwPlugin.ShootAllAgreesOnOnePage | vedro_pw/_pw_plugin.py:166-172 | with at most one page and a step name not staged yet, the keyed loop and the corrected loop give the same outcome |
| PwPlugin.OnStepEndAgreesOnOnePage | vedro_pw/_pw_plugin.py:164-172 | with at most one open page and a step name not staged yet, the as-written and corrected handlers give the same outcome |
| PwPlugin.TraceArtifact | vedro_pw/_pw_plugin.py:209-210 | a zip artifact named after the file |
| PwPlugin.VideoArtifact | vedro_pw/_pw_plugin.py:212-213 | a webm artifact named `pw_video_` + the file name |
| PwPlugin.ScreenshotArtifact | vedro_pw/_pw_plugin.py:215-216 | a png artifact named after the file |
| PwPlugin.EndTrace | vedro_pw/_pw_plugin.py:178-183 | a staged, retained trace is attached once and kept on disk; a staged, discarded one is deleted and nothing is attached; never both |
| PwPlugin.EndVideo | vedro_pw/_pw_plugin.py:185-191 | a video file found in the staged directory is attached once or deleted, as the policy retains; with none found nothing happens. Given a listing of every file in the directory, a directory holding a file always has one attached or deleted |
| PwPlugin.EndShots | vedro_pw/_pw_plugin.py:193-200 | one decision for all screenshots. Either every one is attached where its step is, adding exactly as many artifacts, or every one is deleted and no other file is touched |
| PwPlugin.AttachShots | vedro_pw/_pw_plugin.py:194-197 | each staged screenshot is placed with its step, and exactly one artifact is added per screenshot |
| PwPlugin.DeleteShots | vedro_pw/_pw_plugin.py:198-200 | every staged screenshot file is deleted, and no other file is touched |
| PwPlugin.OnScenarioEnd | vedro_pw/_pw_plugin.py:174-200 | artifacts are only appended. A retained trace is attached and a discarded one deleted. Screenshots are placed or deleted. The number of artifacts added is exactly trace + video + screenshots retained |
| PwPlugin.VideoResolved | vedro_pw/_pw_plugin.py:185-191 | at scenario end, a file in the staged video directory leads to a webm artifact of a file of that directory when the video is retained, and to a deleted file of that directory otherwise |
| PluginProperties.TraceLifecycle | vedro_pw/_pw_plugin.py:118-183 | from scenario start to end, exactly one artifact is added iff the trace is captured and kept; the kept trace stays on disk and a discarded one is gone |
| PluginProperties.RescheduleCapturesOnSecondRun | vedro_pw/_pw_plugin.py:119-146 | with screenshots ON_RESCHEDULE, a scenario's first run takes no screenshots and its immediate rerun does |
| PluginProperties.ScreenshotNames | vedro_pw/_pw_plugin.py:168-169 | the first and second screenshots are named `step01_<step>_.png` and `step02_<step>_.png` |
| PluginProperties.TwoStepsTwoScreenshots | vedro_pw/_pw_plugin.py:164-200 | with one open page and two steps of different names, exactly two png artifacts are added, numbered 01 and 02, each placed with its step |
| PluginProperties.TwoStepsTwoScreenshotsAsWritten | vedro_pw/_pw_plugin.py:164-200 | the same two-step run with the source's keyed staging has the same outcome: two png artifacts, numbered 01 and 02, each placed with its step |
| PluginProperties.EveryScreenshotResolved | vedro_pw/_pw_plugin.py:164-200 | every file the corrected step handler writes is, at scenario end, attached where its step is or deleted |
| PluginProperties.AsWrittenLeavesScreenshotBehind | vedro_pw/_pw_plugin.py:164-200 | with the source's keyed staging and two open pages, the first screenshot stays on disk and no artifact refers to it |
| PluginProperties.CorrectedAttachesBothScreenshots | vedro_pw/_pw_plugin.py:164-200 | on the same input, the corrected staging attaches both screenshots, under distinct names |

## Left out

- `on_arg_parse` (vedro_pw/_pw_plugin.py:60-96): it only registers argparse options. The parsed values are the input of `PwPlugin.OnArgParsed`.
- `on_cleanup` (vedro_pw/_pw_plugin.py:218-219): it does nothing.
- `show_pw_trace` (vedro_pw/_utils.py:67-83): it only launches a subprocess.
- `opened_browser_page` (vedro_pw/async_api.py:183-195): it is a thin Playwright call. It makes a context, as `AsyncApi.CreatedBrowserContext` does, when none is given.
- `_get_playwright_instance` (vedro_pw/async_api.py:198-210): only its deferred exit is modelled; starting Playwright is foreign I/O.
- Playwright's `launch`, `connect`, `new_context`, `tracing.start` and `screenshot` are foreign asynchronous calls. Each either succeeds or throws, as a parameter decides.
- The order in which vedro runs deferred actions, and async scheduling, are external. Deferred actions are recorded in registration order only.
- `random.choice` is a parameter `pick`.
- Directory iteration order in `_find_file` is a parameter `listing`. `PwPlugin.EndVideo` and `PwPlugin.OnScenarioEnd` require that it lists every file of the staged video directory; a listing that misses files is not modelled.
- The random middle part of temporary file names is replaced by a counter in the path.
- `PwPlugin.OnArgParsed`: on a negative slowmo the model returns only the error, not the browser and headed values the source has already stored before raising.
- `AsyncApi.LocalLaunchOptions`: does not state that a falsy `timeout` argument is dropped, because the source keeps it (`**kwargs` copies it before the truthiness test).
- `vedro_pw/options.py` and `vedro_pw/_types.py`: they only declare typed dictionaries. Options are a generic string-keyed map.
- The older factory modules `_launched_browser.py`, `_created_browser_context.py` and `_opened_browser_page.py` are not part of this model; `vedro_pw/async_api.py` supersedes them.
- The `_async_expect.py` shim is not part of this model; it reflects over Playwright internals.

## Findings

| source | as written | input that shows it | evidently intended | confidence | as-written member | corrected member |
|---|---|---|---|---|---|---|
| vedro_pw/_pw_plugin.py:164-172 | screenshots are staged in a dictionary keyed by step name, so each page's file replaces the previous page's entry for the same step | screenshots ALWAYS, one step, one context with two open pages: two files are written, one is attached, and the first stays on disk with no artifact referring to it | every screenshot taken is attached at scenario end, or deleted when not retained | not executed | PluginProperties.AsWrittenLeavesScreenshotBehind | PwPlugin.OnStepEnd |
