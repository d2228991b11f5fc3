/** The host test runner's (vedro's) objects the plugin writes to: file
    artifacts attached to scenario and step results, and the deferred actions
    registered with `defer`, run when the scenario's scope is left. */
module Host {
  import opened Wrappers
  import opened Files
  import opened Values
  import opened Playwright

  datatype Artifact = FileArtifact(name: string, mimeType: string, path: Path)

  datatype StepResult = StepResult(name: string, artifacts: seq<Artifact>)

  datatype ScenarioResult = ScenarioResult(uniqueId: string, steps: seq<StepResult>, artifacts: seq<Artifact>)

  /** An action handed to `defer`. Only the order of registration is modelled,
      not the order or time at which the host runs them. */
  datatype Deferred =
    | ExitPlaywright
    | CloseBrowser
    | CloseContext(ctx: ContextId)
    | RemoveBrowserContext(ctx: ContextId)
    | StopTracing(ctx: ContextId, path: Value)

  function Names(steps: seq<StepResult>): (r: seq<string>)
    ensures |r| == |steps| && forall i :: 0 <= i < |steps| ==> r[i] == steps[i].name
  {
    seq(|steps|, i requires 0 <= i < |steps| => steps[i].name)
  }

  /** The index of the last step called `name`: a dictionary built from the
      step results by name keeps the last one. */
  function LastIndexOf(names: seq<string>, name: string): (r: Option<nat>)
    ensures r.Some? ==> r.value < |names| && names[r.value] == name
    ensures r.Some? ==> forall j :: r.value < j < |names| ==> names[j] != name
    ensures r.None? <==> forall j :: 0 <= j < |names| ==> names[j] != name
  {
    if |names| == 0 then None
    else if names[|names| - 1] == name then Some(|names| - 1)
    else LastIndexOf(names[..|names| - 1], name)
  }

  function AttachToScenario(r: ScenarioResult, a: Artifact): (r': ScenarioResult)
    ensures r'.artifacts == r.artifacts + [a]
    ensures r'.steps == r.steps && r'.uniqueId == r.uniqueId
  {
    r.(artifacts := r.artifacts + [a])
  }

  /** Where an artifact for step `name` belongs: the last step result of that
      name if there is one, the scenario result otherwise. */
  predicate Placed(r: ScenarioResult, name: string, a: Artifact) {
    match LastIndexOf(Names(r.steps), name)
    case Some(i) => a in r.steps[i].artifacts
    case None => a in r.artifacts
  }

  /** `r1` is `r0` with artifacts appended and nothing else changed. */
  ghost predicate Extends(r0: ScenarioResult, r1: ScenarioResult) {
    && r1.uniqueId == r0.uniqueId
    && Names(r1.steps) == Names(r0.steps)
    && r0.artifacts <= r1.artifacts
    && forall i :: 0 <= i < |r0.steps| ==> r0.steps[i].artifacts <= r1.steps[i].artifacts
  }

  /** The number of artifacts attached anywhere in a scenario result. */
  function ArtifactCount(r: ScenarioResult): nat {
    |r.artifacts| + StepArtifactCount(r.steps)
  }

  function StepArtifactCount(steps: seq<StepResult>): nat {
    if |steps| == 0 then 0 else StepArtifactCount(steps[..|steps| - 1]) + |steps[|steps| - 1].artifacts|
  }

  lemma {:induction false} StepArtifactCountUpdate(steps: seq<StepResult>, i: nat, s: StepResult)
    requires i < |steps|
    ensures StepArtifactCount(steps[i := s]) + |steps[i].artifacts| == StepArtifactCount(steps) + |s.artifacts|
    decreases |steps|
  {
    var last := |steps| - 1;
    if i < last {
      assert steps[i := s][..last] == steps[..last][i := s];
      StepArtifactCountUpdate(steps[..last], i, s);
    } else {
      assert steps[i := s][..last] == steps[..last];
    }
  }

  /** `step_results.get(name, scenario_result).attach(artifact)`. */
  function AttachToStep(r: ScenarioResult, name: string, a: Artifact): (r': ScenarioResult)
    ensures Extends(r, r') && Placed(r', name, a)
    ensures ArtifactCount(r') == ArtifactCount(r) + 1
  {
    match LastIndexOf(Names(r.steps), name)
    case Some(i) =>
      var s := r.steps[i].(artifacts := r.steps[i].artifacts + [a]);
      var r' := r.(steps := r.steps[i := s]);
      assert Names(r'.steps) == Names(r.steps);
      StepArtifactCountUpdate(r.steps, i, s);
      r'
    case None => AttachToScenario(r, a)
  }

  lemma ExtendsTransitive(r0: ScenarioResult, r1: ScenarioResult, r2: ScenarioResult)
    requires Extends(r0, r1) && Extends(r1, r2)
    ensures Extends(r0, r2)
  {
  }

  /** An artifact, once placed, stays placed while results only grow. */
  lemma PlacedPersists(r0: ScenarioResult, r1: ScenarioResult, name: string, a: Artifact)
    requires Extends(r0, r1) && Placed(r0, name, a)
    ensures Placed(r1, name, a)
  {
  }
}
