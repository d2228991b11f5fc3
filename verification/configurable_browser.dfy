/** `ConfigurableBrowser.new_context`: a browser context whose options, video
    directory, timeouts and tracing come from the runtime configuration, whose
    closing is deferred, and which is registered so that the plugin can find
    its pages. */
module ConfigurableBrowsers {
  import opened Wrappers
  import opened Errors
  import opened Values
  import opened Playwright
  import opened Host
  import opened RuntimeConfigs

  const RecordVideoDir := "record_video_dir"

  /** The arguments of `context.tracing.start`. */
  datatype Tracing = Tracing(screenshots: Value, snapshots: Value)

  /** What was done to a newly created context: the options it was created
      with, the timeouts set on it (none when not set) and the tracing started. */
  datatype ContextSetup = ContextSetup(
    ctx: ContextId,
    options: Options,
    defaultTimeout: Option<int>,
    navigationTimeout: Option<int>,
    tracing: Option<Tracing>)

  /** The outcome of `new_context`: the context or the exception raised, the
      actions deferred before returning or raising, and the configuration
      afterwards. */
  datatype ContextRun = ContextRun(result: Result<ContextSetup, Error>, defers: seq<Deferred>, config: RuntimeConfig)

  /** The options handed to Playwright: the device options overlaid by the
      caller's keyword arguments, and the configured video directory forced
      in when video capture is on. The device options come from `global`, the
      module-level configuration, not from the browser's own. */
  function ContextOptions(self: RuntimeConfig, global: RuntimeConfig, kwargs: Options): (r: Result<Options, Error>)
    ensures r.Failure? <==> self.captureVideo && RecordVideoDir !in self.videoOptions
    ensures r.Failure? ==> r.error == KeyError(RecordVideoDir)
    ensures r.Success? ==>
      r.value.Keys == global.deviceOptions.Keys + kwargs.Keys + (if self.captureVideo then {RecordVideoDir} else {})
    ensures r.Success? && self.captureVideo ==> r.value[RecordVideoDir] == self.videoOptions[RecordVideoDir]
    ensures r.Success? ==> forall k :: k in kwargs && !(self.captureVideo && k == RecordVideoDir) ==>
      r.value[k] == kwargs[k]
    ensures r.Success? ==> forall k :: k in global.deviceOptions && k !in kwargs && !(self.captureVideo && k == RecordVideoDir) ==>
      r.value[k] == global.deviceOptions[k]
  {
    var options := Overlay(global.deviceOptions, kwargs);
    if !self.captureVideo then Success(options)
    else if RecordVideoDir in self.videoOptions then Success(options[RecordVideoDir := self.videoOptions[RecordVideoDir]])
    else Failure(KeyError(RecordVideoDir))
  }

  /** The trace options `new_context` reads. */
  const TraceKeys: set<string> := {"screenshots", "snapshots", "path"}

  /** `ConfigurableBrowser.new_context(**kwargs)`; `throwing` says which opaque
      Playwright call, if any, raises. */
  function NewContext(self: RuntimeConfig, global: RuntimeConfig, kwargs: Options, ctx: ContextId, throwing: Throwing): (r: ContextRun)
    ensures r.result.Success? <==>
      && ContextOptions(self, global, kwargs).Success?
      && throwing != NewContextThrows
      && (self.captureTrace ==> throwing != TracingStartThrows && TraceKeys <= self.traceOptions.Keys)
    ensures r.result.Success? ==>
      var s := r.result.value;
      && s.ctx == ctx
      && s.options == ContextOptions(self, global, kwargs).value
      && s.defaultTimeout == self.timeout
      && s.navigationTimeout == self.navigationTimeout
      && (s.tracing.Some? <==> self.captureTrace)
      && (s.tracing.Some? ==>
            s.tracing.value == Tracing(self.traceOptions["screenshots"], self.traceOptions["snapshots"]))
      && r.defers == [CloseContext(ctx), RemoveBrowserContext(ctx)]
                     + (if self.captureTrace then [StopTracing(ctx, self.traceOptions["path"])] else [])
      && ctx in r.config.browserContexts
      && r.config.(browserContexts := self.browserContexts) == self
    ensures r.result.Failure? ==> r.config == self
    ensures r.result.Failure? ==>
      r.defers == [] || r.defers == [CloseContext(ctx), RemoveBrowserContext(ctx)]
    ensures Valid(self) ==> Valid(r.config)
  {
    match ContextOptions(self, global, kwargs)
    case Failure(e) => ContextRun(Failure(e), [], self)
    case Success(options) =>
      if throwing == NewContextThrows then ContextRun(Failure(PlaywrightError), [], self)
      else
        var defers := [CloseContext(ctx), RemoveBrowserContext(ctx)];
        var setup := ContextSetup(ctx, options, self.timeout, self.navigationTimeout, None);
        if !self.captureTrace then
          ContextRun(Success(setup), defers, AddBrowserContext(self, ctx))
        else
          var t := self.traceOptions;
          if "screenshots" !in t then ContextRun(Failure(KeyError("screenshots")), defers, self)
          else if "snapshots" !in t then ContextRun(Failure(KeyError("snapshots")), defers, self)
          else if throwing == TracingStartThrows then ContextRun(Failure(PlaywrightError), defers, self)
          else if "path" !in t then ContextRun(Failure(KeyError("path")), defers, self)
          else
            ContextRun(Success(setup.(tracing := Some(Tracing(t["screenshots"], t["snapshots"])))),
                       defers + [StopTracing(ctx, t["path"])],
                       AddBrowserContext(self, ctx))
  }
}
