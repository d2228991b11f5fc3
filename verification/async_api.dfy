/** The browser factories: `launched_browser` and its local and remote
    variants, which build launch/connect options from the runtime
    configuration, and `created_browser_context`, which makes sure every
    context it returns gets closed. */
module AsyncApi {
  import opened Wrappers
  import opened Errors
  import opened Values
  import opened Playwright
  import opened Host
  import opened RuntimeConfigs
  import Browsers
  import opened Utils
  import opened ConfigurableBrowsers

  datatype Via = Local | Remote

  /** A `ConfigurableBrowser` as the factories return it: how it was obtained,
      the browser type used, the options passed to `launch`/`connect`, and the
      device options resolved for it. */
  datatype Launched = Launched(via: Via, browserType: string, options: Options, deviceOptions: Option<Options>)

  /** A factory's outcome and the actions it deferred, also when it raised. */
  datatype Run<T> = Run(result: Result<T, Error>, defers: seq<Deferred>)

  /** The arguments of a launch call; `playwrightGiven` says whether the
      caller supplied a Playwright instance. */
  datatype LaunchRequest = LaunchRequest(
    browserName: Option<BrowserName>,
    deviceName: Option<string>,
    autoClose: bool,
    playwrightGiven: bool,
    kwargs: Options)

  /** The arguments of a call with every parameter left at its default. */
  const DefaultRequest := LaunchRequest(None, None, true, false, map[])

  /** `browser_name or runtime_config.browser_name`. */
  function BrowserOrConfigured(n: Option<BrowserName>, rc: RuntimeConfig): (r: BrowserName)
    ensures n.Some? && Utils.Truthy(n.value) ==> r == n.value
    ensures !(n.Some? && Utils.Truthy(n.value)) ==> r == Member(rc.browserName)
  {
    if n.Some? && Utils.Truthy(n.value) then n.value else Member(rc.browserName)
  }

  /** `device_name or runtime_config.device_name`. */
  function DeviceOrConfigured(n: Option<string>, rc: RuntimeConfig): (r: Option<string>)
    ensures n.Some? && n.value != "" ==> r == n
    ensures !(n.Some? && n.value != "") ==> r == rc.deviceName
  {
    if n.Some? && n.value != "" then n else rc.deviceName
  }

  /** Options for `browser_type.launch`: the caller's keyword arguments, with
      `headless`, `slow_mo` and `timeout` taken from the configuration unless
      given. A falsy fallback timeout (unset or 0) adds no `timeout` key. */
  function LocalLaunchOptions(rc: RuntimeConfig, kwargs: Options): (r: Options)
    ensures "headless" in r && "slow_mo" in r
    ensures r["headless"] == (if "headless" in kwargs then kwargs["headless"] else VBool(!rc.headed))
    ensures r["slow_mo"] == (if "slow_mo" in kwargs then kwargs["slow_mo"] else VInt(rc.slowmo))
    ensures "timeout" in kwargs ==> "timeout" in r && r["timeout"] == kwargs["timeout"]
    ensures "timeout" !in kwargs ==>
      && ("timeout" in r <==> rc.browserTimeout.Some? && rc.browserTimeout.value != 0)
      && ("timeout" in r ==> r["timeout"] == VInt(rc.browserTimeout.value))
    ensures forall k :: k in kwargs ==> k in r
    ensures forall k :: k in kwargs && k != "headless" && k != "slow_mo" && k != "timeout" ==> r[k] == kwargs[k]
    ensures forall k :: k in r ==> k in kwargs || k == "headless" || k == "slow_mo" || k == "timeout"
  {
    var options := kwargs["headless" := GetOr(kwargs, "headless", VBool(!rc.headed))]
                          ["slow_mo" := GetOr(kwargs, "slow_mo", VInt(rc.slowmo))];
    var timeout := GetOr(kwargs, "timeout", FromOptInt(rc.browserTimeout));
    if Values.Truthy(timeout) then options["timeout" := timeout] else options
  }

  /** Options for `browser_type.connect`: the caller's keyword arguments, with
      `ws_endpoint` and `slow_mo` taken from the configuration unless given. */
  function RemoteConnectOptions(rc: RuntimeConfig, kwargs: Options): (r: Options)
    ensures "ws_endpoint" in r && "slow_mo" in r
    ensures r["ws_endpoint"] == (if "ws_endpoint" in kwargs then kwargs["ws_endpoint"] else VStr(rc.remoteEndpoint))
    ensures r["slow_mo"] == (if "slow_mo" in kwargs then kwargs["slow_mo"] else VInt(rc.slowmo))
    ensures r.Keys == kwargs.Keys + {"ws_endpoint", "slow_mo"}
    ensures forall k :: k in kwargs ==> r[k] == kwargs[k]
  {
    kwargs["ws_endpoint" := GetOr(kwargs, "ws_endpoint", VStr(rc.remoteEndpoint))]
          ["slow_mo" := GetOr(kwargs, "slow_mo", VInt(rc.slowmo))]
  }

  /** The part both launch paths share once the options and the deferred
      Playwright exit are known: resolve the browser type, launch or connect,
      defer the close, resolve the device. */
  function Finish(via: Via, rc: RuntimeConfig, api: Api, req: LaunchRequest, options: Options,
                  before: seq<Deferred>, pick: nat, throwing: Throwing): (r: Run<Launched>)
    ensures before <= r.defers
    ensures r.result.Success? ==>
      && GetBrowserType(api, BrowserOrConfigured(req.browserName, rc), pick) == Success(r.result.value.browserType)
      && GetDeviceOptions(api, DeviceOrConfigured(req.deviceName, rc)) == Success(r.result.value.deviceOptions)
      && r.result.value.via == via && r.result.value.options == options
      && throwing != LaunchThrows
      && r.defers == before + (if req.autoClose then [CloseBrowser] else [])
    ensures GetBrowserType(api, BrowserOrConfigured(req.browserName, rc), pick).Failure? ==> r.result.Failure?
    ensures forall d :: d in r.defers ==> d in before || d == CloseBrowser
  {
    match GetBrowserType(api, BrowserOrConfigured(req.browserName, rc), pick)
    case Failure(e) => Run(Failure(e), before)
    case Success(bt) =>
      if throwing == LaunchThrows then Run(Failure(PlaywrightError), before)
      else
        var defers := before + (if req.autoClose then [CloseBrowser] else []);
        match GetDeviceOptions(api, DeviceOrConfigured(req.deviceName, rc))
        case Failure(e) => Run(Failure(e), defers)
        case Success(d) => Run(Success(Launched(via, bt, options, d)), defers)
  }

  /** `launched_local_browser`. A Playwright instance it starts itself is
      always scheduled to exit, whatever `auto_close` says. */
  function LaunchedLocalBrowser(rc: RuntimeConfig, api: Api, req: LaunchRequest, pick: nat, throwing: Throwing): (r: Run<Launched>)
    ensures (ExitPlaywright in r.defers) <==> !req.playwrightGiven
    ensures r.result.Success? ==>
      && r.result.value.via == Local
      && r.result.value.options == LocalLaunchOptions(rc, req.kwargs)
      && (CloseBrowser in r.defers <==> req.autoClose)
  {
    var before := if req.playwrightGiven then [] else [ExitPlaywright];
    Finish(Local, rc, api, req, LocalLaunchOptions(rc, req.kwargs), before, pick, throwing)
  }

  /** `launched_remote_browser`. A Playwright instance it starts itself exits
      with the scenario only when `auto_close` is set. */
  function LaunchedRemoteBrowser(rc: RuntimeConfig, api: Api, req: LaunchRequest, pick: nat, throwing: Throwing): (r: Run<Launched>)
    ensures (ExitPlaywright in r.defers) <==> !req.playwrightGiven && req.autoClose
    ensures r.result.Success? ==>
      && r.result.value.via == Remote
      && r.result.value.options == RemoteConnectOptions(rc, req.kwargs)
      && (CloseBrowser in r.defers <==> req.autoClose)
  {
    var before := if !req.playwrightGiven && req.autoClose then [ExitPlaywright] else [];
    Finish(Remote, rc, api, req, RemoteConnectOptions(rc, req.kwargs), before, pick, throwing)
  }

  /** `launched_browser`: connects to a remote browser exactly when the
      configuration says so, and launches a local one otherwise. */
  function LaunchedBrowser(rc: RuntimeConfig, api: Api, req: LaunchRequest, pick: nat, throwing: Throwing): (r: Run<Launched>)
    ensures r.result.Success? ==> (r.result.value.via == Remote <==> rc.remote)
    ensures r.result.Success? && rc.remote ==> "ws_endpoint" in r.result.value.options
    ensures r.result.Success? && !rc.remote ==> "headless" in r.result.value.options
    ensures rc.remote ==> (ExitPlaywright in r.defers <==> !req.playwrightGiven && req.autoClose)
    ensures !rc.remote ==> (ExitPlaywright in r.defers <==> !req.playwrightGiven)
  {
    if rc.remote then LaunchedRemoteBrowser(rc, api, req, pick, throwing)
    else LaunchedLocalBrowser(rc, api, req, pick, throwing)
  }

  /** The browser passed to `created_browser_context`: one made by these
      factories, or one the caller launched directly through Playwright. */
  datatype BrowserKind = Configurable | Plain

  datatype CreatedContext = CreatedContext(result: Result<ContextId, Error>, defers: seq<Deferred>, config: RuntimeConfig)

  function Count(ds: seq<Deferred>, d: Deferred): nat {
    multiset(ds)[d]
  }

  /** `browser.new_context(**kwargs)` on a `ConfigurableBrowser`, after the
      actions `before` were deferred. */
  function ContextOnConfigurable(rc: RuntimeConfig, kwargs: Options, ctx: ContextId, throwing: Throwing,
                                 before: seq<Deferred>): (r: CreatedContext)
    requires forall d :: d in before ==> d == ExitPlaywright || d == CloseBrowser
    ensures r.result.Success? ==> r.result.value == ctx && Count(r.defers, CloseContext(ctx)) == 1
    ensures r.result.Success? ==> ctx in r.config.browserContexts && Count(r.defers, RemoveBrowserContext(ctx)) == 1
  {
    var run := NewContext(rc, rc, kwargs, ctx, throwing);
    assert CloseContext(ctx) !in before && RemoveBrowserContext(ctx) !in before;
    CreatedContext(if run.result.Success? then Success(ctx) else Failure(run.result.error), before + run.defers, run.config)
  }

  /** `created_browser_context`: launches a browser when none is given, creates
      the context, and defers its close itself only for a plain browser,
      because a configurable browser already did. Either way a returned
      context is closed exactly once. */
  function CreatedBrowserContext(rc: RuntimeConfig, browser: Option<BrowserKind>, kwargs: Options, ctx: ContextId,
                                 api: Api, pick: nat, throwing: Throwing): (r: CreatedContext)
    ensures r.result.Success? ==> r.result.value == ctx && Count(r.defers, CloseContext(ctx)) == 1
    ensures browser == Some(Plain) ==> r.config == rc
    ensures browser == Some(Plain) && r.result.Success? ==> r.defers == [CloseContext(ctx)]
    ensures browser != Some(Plain) && r.result.Success? ==>
      ctx in r.config.browserContexts && Count(r.defers, RemoveBrowserContext(ctx)) == 1
  {
    if browser == Some(Plain) then
      if throwing == NewContextThrows then CreatedContext(Failure(PlaywrightError), [], rc)
      else CreatedContext(Success(ctx), [CloseContext(ctx)], rc)
    else if browser.None? then
      var launched := LaunchedBrowser(rc, api, DefaultRequest, pick, throwing);
      if launched.result.Failure? then CreatedContext(Failure(launched.result.error), launched.defers, rc)
      else
        assert forall d :: d in launched.defers ==> d == ExitPlaywright || d == CloseBrowser;
        ContextOnConfigurable(rc, kwargs, ctx, throwing, launched.defers)
    else
      ContextOnConfigurable(rc, kwargs, ctx, throwing, [])
  }
}
