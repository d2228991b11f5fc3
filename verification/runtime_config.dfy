/** `RuntimeConfig`: the process-wide settings the plugin writes and the
    browser factories read. The record holds every field the plugin, the
    factories and `ConfigurableBrowser` use; each setter is a function from the
    old record to the new one. */
module RuntimeConfigs {
  import opened Wrappers
  import opened Errors
  import opened Values
  import opened Playwright
  import opened Browsers

  datatype RuntimeConfig = RuntimeConfig(
    browserName: PlaywrightBrowser,
    deviceName: Option<string>,
    deviceOptions: Options,
    headed: bool,
    slowmo: int,
    remote: bool,
    remoteEndpoint: string,
    timeout: Option<int>,
    navigationTimeout: Option<int>,
    browserTimeout: Option<int>,
    captureTrace: bool,
    traceOptions: Options,
    captureVideo: bool,
    videoOptions: Options,
    captureScreenshots: bool,
    /** Open contexts, in insertion order, each once (an identity-keyed dict). */
    browserContexts: seq<ContextId>)

  /** The configuration invariant: slowmo is never negative. */
  predicate Valid(c: RuntimeConfig) {
    c.slowmo >= 0
  }

  predicate NoDuplicates(s: seq<ContextId>) {
    forall i, j :: 0 <= i < j < |s| ==> s[i] != s[j]
  }

  const SlowmoMessage := "Slowmo must be a non-negative integer"

  /** A freshly constructed configuration: Chromium, headless, no slowmo,
      nothing captured, no contexts. */
  function Fresh(): (c: RuntimeConfig)
    ensures Valid(c)
    ensures c.browserName == Chromium && !c.headed && c.slowmo == 0
    ensures !c.captureTrace && !c.captureVideo && !c.captureScreenshots
    ensures c.timeout.None? && c.navigationTimeout.None? && c.browserTimeout.None?
    ensures c.browserContexts == []
  {
    RuntimeConfig(Chromium, None, map[], false, 0, false, "ws://localhost:3000",
                  None, None, None, false, map[], false, map[], false, [])
  }

  function SetBrowser(c: RuntimeConfig, v: PlaywrightBrowser): (r: RuntimeConfig)
    ensures r.browserName == v && r.(browserName := c.browserName) == c
    ensures Valid(c) ==> Valid(r)
  {
    c.(browserName := v)
  }

  function SetHeaded(c: RuntimeConfig, v: bool): (r: RuntimeConfig)
    ensures r.headed == v && r.(headed := c.headed) == c
    ensures Valid(c) ==> Valid(r)
  {
    c.(headed := v)
  }

  /** Rejects a negative value with `ValueError`, leaving the configuration as
      it was; otherwise stores it. */
  function SetSlowmo(c: RuntimeConfig, v: int): (r: Result<RuntimeConfig, Error>)
    ensures r.Failure? <==> v < 0
    ensures r.Failure? ==> r.error == ValueError(SlowmoMessage)
    ensures r.Success? ==> r.value.slowmo == v && r.value.(slowmo := c.slowmo) == c
    ensures r.Success? ==> Valid(r.value)
  {
    if v < 0 then Failure(ValueError(SlowmoMessage)) else Success(c.(slowmo := v))
  }

  function SetDevice(c: RuntimeConfig, v: Option<string>): (r: RuntimeConfig)
    ensures r.deviceName == v && r.(deviceName := c.deviceName) == c
    ensures Valid(c) ==> Valid(r)
  {
    c.(deviceName := v)
  }

  function SetRemote(c: RuntimeConfig, v: bool): (r: RuntimeConfig)
    ensures r.remote == v && r.(remote := c.remote) == c
    ensures Valid(c) ==> Valid(r)
  {
    c.(remote := v)
  }

  function SetRemoteEndpoint(c: RuntimeConfig, v: string): (r: RuntimeConfig)
    ensures r.remoteEndpoint == v && r.(remoteEndpoint := c.remoteEndpoint) == c
    ensures Valid(c) ==> Valid(r)
  {
    c.(remoteEndpoint := v)
  }

  function SetTimeout(c: RuntimeConfig, v: int): (r: RuntimeConfig)
    ensures r.timeout == Some(v) && r.(timeout := c.timeout) == c
    ensures Valid(c) ==> Valid(r)
  {
    c.(timeout := Some(v))
  }

  function SetNavigationTimeout(c: RuntimeConfig, v: int): (r: RuntimeConfig)
    ensures r.navigationTimeout == Some(v) && r.(navigationTimeout := c.navigationTimeout) == c
    ensures Valid(c) ==> Valid(r)
  {
    c.(navigationTimeout := Some(v))
  }

  function SetBrowserTimeout(c: RuntimeConfig, v: int): (r: RuntimeConfig)
    ensures r.browserTimeout == Some(v) && r.(browserTimeout := c.browserTimeout) == c
    ensures Valid(c) ==> Valid(r)
  {
    c.(browserTimeout := Some(v))
  }

  function SetCaptureTrace(c: RuntimeConfig, v: bool): (r: RuntimeConfig)
    ensures r.captureTrace == v && r.(captureTrace := c.captureTrace) == c
    ensures Valid(c) ==> Valid(r)
  {
    c.(captureTrace := v)
  }

  function SetTraceOptions(c: RuntimeConfig, v: Options): (r: RuntimeConfig)
    ensures r.traceOptions == v && r.(traceOptions := c.traceOptions) == c
    ensures Valid(c) ==> Valid(r)
  {
    c.(traceOptions := v)
  }

  function SetCaptureVideo(c: RuntimeConfig, v: bool): (r: RuntimeConfig)
    ensures r.captureVideo == v && r.(captureVideo := c.captureVideo) == c
    ensures Valid(c) ==> Valid(r)
  {
    c.(captureVideo := v)
  }

  function SetVideoOptions(c: RuntimeConfig, v: Options): (r: RuntimeConfig)
    ensures r.videoOptions == v && r.(videoOptions := c.videoOptions) == c
    ensures Valid(c) ==> Valid(r)
  {
    c.(videoOptions := v)
  }

  function SetCaptureScreenshots(c: RuntimeConfig, v: bool): (r: RuntimeConfig)
    ensures r.captureScreenshots == v && r.(captureScreenshots := c.captureScreenshots) == c
    ensures Valid(c) ==> Valid(r)
  {
    c.(captureScreenshots := v)
  }

  /** `s` without `x`, the others in their order. */
  function Without(s: seq<ContextId>, x: ContextId): (r: seq<ContextId>)
    ensures x !in r
    ensures forall y :: y != x ==> (y in r <==> y in s)
    ensures |r| <= |s|
    ensures x !in s ==> r == s
    ensures NoDuplicates(s) ==> NoDuplicates(r)
    ensures NoDuplicates(s) && x in s ==> |r| == |s| - 1
  {
    if |s| == 0 then []
    else
      var rest := Without(s[1..], x);
      if s[0] == x then
        assert NoDuplicates(s) ==> x !in s[1..];
        rest
      else
        assert NoDuplicates(s) ==> NoDuplicates(s[1..]) && s[0] !in s[1..];
        [s[0]] + rest
  }

  /** Registers an open context; a context already registered keeps its place. */
  function AddBrowserContext(c: RuntimeConfig, ctx: ContextId): (r: RuntimeConfig)
    ensures ctx in r.browserContexts
    ensures ctx !in c.browserContexts ==> r.browserContexts == c.browserContexts + [ctx]
    ensures ctx in c.browserContexts ==> r.browserContexts == c.browserContexts
    ensures NoDuplicates(c.browserContexts) ==> NoDuplicates(r.browserContexts)
    ensures r.(browserContexts := c.browserContexts) == c
    ensures Valid(c) ==> Valid(r)
  {
    if ctx in c.browserContexts then c else c.(browserContexts := c.browserContexts + [ctx])
  }

  /** Forgets a context; forgetting one that is not registered does nothing. */
  function RemoveBrowserContext(c: RuntimeConfig, ctx: ContextId): (r: RuntimeConfig)
    ensures ctx !in r.browserContexts
    ensures forall y :: y != ctx ==> (y in r.browserContexts <==> y in c.browserContexts)
    ensures ctx !in c.browserContexts ==> r == c
    ensures NoDuplicates(c.browserContexts) ==> NoDuplicates(r.browserContexts)
    ensures r.(browserContexts := c.browserContexts) == c
    ensures Valid(c) ==> Valid(r)
  {
    c.(browserContexts := Without(c.browserContexts, ctx))
  }

  /** Removing twice is removing once. */
  lemma RemoveIdempotent(c: RuntimeConfig, ctx: ContextId)
    ensures RemoveBrowserContext(RemoveBrowserContext(c, ctx), ctx) == RemoveBrowserContext(c, ctx)
  {
  }

  /** Registering a new context and then forgetting it restores the registry. */
  lemma {:induction false} WithoutAppended(s: seq<ContextId>, x: ContextId)
    requires x !in s
    ensures Without(s + [x], x) == s
  {
    if |s| > 0 {
      assert (s + [x])[1..] == s[1..] + [x];
      WithoutAppended(s[1..], x);
    }
  }

  lemma AddThenRemove(c: RuntimeConfig, ctx: ContextId)
    requires ctx !in c.browserContexts
    ensures RemoveBrowserContext(AddBrowserContext(c, ctx), ctx) == c
  {
    WithoutAppended(c.browserContexts, ctx);
  }

  /** One call on the configuration, as the plugin and the factories make
      them. */
  datatype Op =
    | BrowserOp(browser: PlaywrightBrowser)
    | HeadedOp(headed: bool)
    | SlowmoOp(slowmo: int)
    | DeviceOp(device: Option<string>)
    | RemoteOp(remote: bool)
    | RemoteEndpointOp(endpoint: string)
    | TimeoutOp(timeout: int)
    | NavigationTimeoutOp(timeout: int)
    | BrowserTimeoutOp(timeout: int)
    | CaptureTraceOp(on: bool)
    | TraceOptionsOp(options: Options)
    | CaptureVideoOp(on: bool)
    | VideoOptionsOp(options: Options)
    | CaptureScreenshotsOp(on: bool)
    | AddContextOp(ctx: ContextId)
    | RemoveContextOp(ctx: ContextId)

  /** Performs one call; only a negative slowmo raises, and then nothing
      changes. */
  function Apply(c: RuntimeConfig, op: Op): (r: Result<RuntimeConfig, Error>)
    ensures r.Failure? <==> op.SlowmoOp? && op.slowmo < 0
    ensures r.Failure? ==> r.error == ValueError(SlowmoMessage)
  {
    match op
    case BrowserOp(b) => Success(SetBrowser(c, b))
    case HeadedOp(h) => Success(SetHeaded(c, h))
    case SlowmoOp(v) => SetSlowmo(c, v)
    case DeviceOp(d) => Success(SetDevice(c, d))
    case RemoteOp(v) => Success(SetRemote(c, v))
    case RemoteEndpointOp(e) => Success(SetRemoteEndpoint(c, e))
    case TimeoutOp(t) => Success(SetTimeout(c, t))
    case NavigationTimeoutOp(t) => Success(SetNavigationTimeout(c, t))
    case BrowserTimeoutOp(t) => Success(SetBrowserTimeout(c, t))
    case CaptureTraceOp(v) => Success(SetCaptureTrace(c, v))
    case TraceOptionsOp(o) => Success(SetTraceOptions(c, o))
    case CaptureVideoOp(v) => Success(SetCaptureVideo(c, v))
    case VideoOptionsOp(o) => Success(SetVideoOptions(c, o))
    case CaptureScreenshotsOp(v) => Success(SetCaptureScreenshots(c, v))
    case AddContextOp(x) => Success(AddBrowserContext(c, x))
    case RemoveContextOp(x) => Success(RemoveBrowserContext(c, x))
  }

  /** The configuration after a run of calls, and the error that stopped the
      run early, if one did. Calls made before the error keep their effect. */
  datatype Applied = Applied(config: RuntimeConfig, raised: Option<Error>)

  function ApplyAll(c: RuntimeConfig, ops: seq<Op>): (r: Applied)
    ensures r.raised.Some? ==> r.raised == Some(ValueError(SlowmoMessage))
    ensures (forall i :: 0 <= i < |ops| ==> !(ops[i].SlowmoOp? && ops[i].slowmo < 0)) ==> r.raised.None?
    decreases |ops|
  {
    if |ops| == 0 then Applied(c, None)
    else
      match Apply(c, ops[0])
      case Failure(e) => Applied(c, Some(e))
      case Success(c') =>
        var r := ApplyAll(c', ops[1..]);
        assert forall i :: 1 <= i < |ops| ==> ops[i] == ops[1..][i - 1];
        r
  }

  /** Slowmo is never negative: not after construction, and not after any
      run of calls, including one cut short by a rejected slowmo. */
  lemma {:induction false} ApplyAllKeepsValid(c: RuntimeConfig, ops: seq<Op>)
    requires Valid(c)
    ensures Valid(ApplyAll(c, ops).config)
    decreases |ops|
  {
    if |ops| > 0 {
      match Apply(c, ops[0])
      case Failure(_) =>
      case Success(c') =>
        assert Valid(c') by {
          match ops[0]
          case SlowmoOp(v) =>
          case _ =>
        }
        ApplyAllKeepsValid(c', ops[1..]);
    }
  }

  lemma FreshStaysValid(ops: seq<Op>)
    ensures Valid(ApplyAll(Fresh(), ops).config)
  {
    ApplyAllKeepsValid(Fresh(), ops);
  }
}
