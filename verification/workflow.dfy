/**
 * The decision logic of the basic workflow script (`main`,
 * `save_interactive_map`, `print_workflow_summary`), as one pure function
 * from what the environment reports to what the run does: its exit code, the
 * coordinate reference system it settles on, the artifacts it writes, the
 * stage lines of its summary, and its diagnostics.
 *
 * The assessment system itself is not modelled: its outcome (it raises, or
 * it returns a results dict) is an input.
 */
module Workflow {
  import opened Wrappers
  import opened Normalizer

  /** The CRS assumed for a corridor whose data carries none. */
  const DefaultCrs: string := "EPSG:4326"

  /** The five stages, in the order the summary reports them. */
  datatype Stage = Data | Vegetation | Risk | Priorities | Reports

  function StageKey(s: Stage): string {
    match s
    case Data => "data"
    case Vegetation => "vegetation"
    case Risk => "risk"
    case Priorities => "priorities"
    case Reports => "reports"
  }

  function StageRank(s: Stage): nat {
    match s
    case Data => 0
    case Vegetation => 1
    case Risk => 2
    case Priorities => 3
    case Reports => 4
  }

  /** The files a run can write. There is none for the `data` stage. */
  datatype Artifact = RiskJson | VegetationJson | PrioritiesJson | RiskMap

  function FileName(a: Artifact): string {
    match a
    case RiskJson => "risk_assessment.json"
    case VegetationJson => "vegetation_analysis.json"
    case PrioritiesJson => "maintenance_priorities.json"
    case RiskMap => "risk_map.html"
  }

  /** The results key an artifact is produced from. */
  function ArtifactKey(a: Artifact): (k: string)
    ensures k != "data"
  {
    match a
    case RiskJson => "risk"
    case VegetationJson => "vegetation"
    case PrioritiesJson => "priorities"
    case RiskMap => "reports"
  }

  /** The position of an artifact in the order `main` saves them. */
  function SaveRank(a: Artifact): nat {
    match a
    case RiskJson => 0
    case VegetationJson => 1
    case PrioritiesJson => 2
    case RiskMap => 3
  }

  /** What reading the corridor file gives: an exception, or a dataset of some segments with an optional CRS. */
  datatype ReadOutcome = ReadRaises | ReadOk(segments: nat, crs: Option<string>)

  /** What the assessment system does: raise, or return its results dict. */
  datatype Assessment = AssessmentRaises | Returns(results: map<string, Value>)

  /** Everything `main` learns from its arguments and its environment. */
  datatype Invocation = Invocation(
    demo: bool,
    corridor: Option<string>,
    pathExists: bool,
    read: ReadOutcome,
    assessment: Assessment)

  datatype LoadError = ReadFailed | EmptyCorridor

  datatype Diagnostic =
    | CorridorRequired        // error: no corridor path outside demo mode
    | CorridorNotFound        // error: the corridor path does not exist
    | LoadFailed(cause: LoadError)
    | CrsAssumed              // warning: no CRS, EPSG:4326 assumed
    | MapLacksSave            // warning: the map object has no `save`
    | NoMapToSave             // warning: the reports carry no map
    | WorkflowFailed          // error: the assessment or a save raised

  /** A loaded, validated corridor. */
  datatype Corridor = Corridor(segments: nat, crs: string, crsAssumed: bool)

  /** What a run of `main` does. */
  datatype Run = Run(
    exitCode: int,
    started: bool,            // the assessment was attempted
    crs: Option<string>,
    artifacts: seq<Artifact>, // files fully written, in order
    summary: seq<Stage>,      // the "Completed" lines of the summary, in order
    diagnostics: seq<Diagnostic>)

  /** Python truthiness of the `--corridor` argument: given and non-empty. */
  predicate CorridorGiven(arg: Option<string>) {
    arg.Some? && arg.value != ""
  }

  /**
   * Loading and validating the corridor: a read that raises and an empty
   * dataset are errors; a missing CRS is only a warning and is defaulted.
   */
  function LoadCorridor(read: ReadOutcome): (r: Result<Corridor, LoadError>)
    ensures r.Failure? <==> read.ReadRaises? || read.segments == 0
    ensures r.Failure? ==> (r.error == ReadFailed <==> read.ReadRaises?)
    ensures r.Success? ==> r.value.segments == read.segments > 0
    ensures r.Success? ==> r.value.crs == read.crs.GetOr(DefaultCrs)
    ensures r.Success? ==> (r.value.crsAssumed <==> read.crs.None?)
  {
    match read
    case ReadRaises => Failure(ReadFailed)
    case ReadOk(n, crs) =>
      if n == 0 then Failure(EmptyCorridor)
      else
        match crs
        case Some(name) => Success(Corridor(n, name, false))
        case None => Success(Corridor(n, DefaultCrs, true))
  }

  /** `results.get(key) is not None`. */
  predicate Present(results: map<string, Value>, key: string) {
    key in results && results[key] != PyNone
  }

  /** `hasattr(obj, 'save')`: only an opaque object that provides it. */
  predicate HasSave(obj: Value) {
    obj.Plain? && obj.atom.Opaque? && obj.atom.canSave
  }

  datatype MapOutcome = MapSaved | WarnNoSave | WarnNoMap

  /** `save_interactive_map`: saves exactly when there is a map with `save`, and otherwise only warns. */
  function SaveInteractiveMap(mapObj: Value): (r: MapOutcome)
    ensures r == MapSaved <==> HasSave(mapObj)
    ensures r == WarnNoMap <==> mapObj == PyNone
  {
    if mapObj != PyNone then
      if HasSave(mapObj) then MapSaved else WarnNoSave
    else WarnNoMap
  }

  /** `reports.get('map')`: only a dict has `get`; on anything else the call raises. */
  function MapOfReports(reports: Value): (r: Option<Value>)
    ensures r.Some? <==> reports.Dict?
    ensures r.Some? && "map" !in reports.entries ==> r.value == PyNone
    ensures r.Some? && "map" in reports.entries ==> r.value == reports.entries["map"]
  {
    match reports
    case Dict(m) => Some(if "map" in m then m["map"] else PyNone)
    case _ => None
  }

  /** The state of the save phase: files written so far, warnings, and whether a save raised. */
  datatype Saving = Saving(written: seq<Artifact>, diags: seq<Diagnostic>, raised: bool)

  /**
   * Whether the save step for `a` would succeed on these results, assuming
   * it is reached: a document is written when `json.dump` accepts the
   * normalised value; the map step raises only when the reports value has no
   * `get`.
   */
  predicate SaveSucceeds(results: map<string, Value>, a: Artifact) {
    Present(results, ArtifactKey(a)) ==>
      if a == RiskMap then results["reports"].Dict?
      else JsonDumpable(Normalize(results[ArtifactKey(a)]))
  }

  /** Whether the step for `a` produces its file, assuming it is reached. */
  predicate Writes(results: map<string, Value>, a: Artifact) {
    Present(results, ArtifactKey(a))
    && if a == RiskMap then
         results["reports"].Dict? && HasSave(MapOfReports(results["reports"]).value)
       else JsonDumpable(Normalize(results[ArtifactKey(a)]))
  }

  /** The save step for `a` runs: no save before it has raised. */
  predicate Reached(results: map<string, Value>, a: Artifact) {
    forall b :: SaveRank(b) < SaveRank(a) ==> SaveSucceeds(results, b)
  }

  /** Files in strictly increasing save order. */
  predicate InSaveOrder(w: seq<Artifact>) {
    forall i, j :: 0 <= i < j < |w| ==> SaveRank(w[i]) < SaveRank(w[j])
  }

  /** What one save step of `main` does. */
  datatype Step = Skip | Write | Warn(d: Diagnostic) | Raise

  /**
   * One save step: skipped when the result is absent or None; a document is
   * written when `json.dump` accepts the normalised value and raises
   * otherwise; the map step raises when the reports have no `get`, and
   * otherwise saves or warns as `save_interactive_map` decides.
   */
  function SaveStep(results: map<string, Value>, a: Artifact): (r: Step)
    ensures r == Skip <==> !Present(results, ArtifactKey(a))
    ensures r.Warn? ==> a == RiskMap && (r.d == MapLacksSave || r.d == NoMapToSave)
  {
    var key := ArtifactKey(a);
    if !Present(results, key) then Skip
    else if a == RiskMap then
      match MapOfReports(results[key])
      case None => Raise
      case Some(obj) =>
        match SaveInteractiveMap(obj)
        case MapSaved => Write
        case WarnNoSave => Warn(MapLacksSave)
        case WarnNoMap => Warn(NoMapToSave)
    else if JsonDumpable(Normalize(results[key])) then Write
    else Raise
  }

  /** A step writes its file exactly when `Writes` holds, and raises exactly when `SaveSucceeds` fails. */
  lemma SaveStepMeaning(results: map<string, Value>)
    ensures forall a :: SaveStep(results, a) == Write <==> Writes(results, a)
    ensures forall a :: SaveStep(results, a) == Raise <==> !SaveSucceeds(results, a)
  {
  }

  /** A save step in the plan of `main`: the artifact and what its step does. */
  datatype Planned = Planned(a: Artifact, step: Step)

  /** Plans whose artifacts come in strictly increasing save order. */
  predicate PlanInSaveOrder(plan: seq<Planned>) {
    forall i, j :: 0 <= i < j < |plan| ==> SaveRank(plan[i].a) < SaveRank(plan[j].a)
  }

  /**
   * Running planned save steps until one raises: the steps after a raising
   * one never run, the files written before it stay written.
   */
  function SaveSteps(plan: seq<Planned>): (s: Saving)
    requires PlanInSaveOrder(plan)
    ensures s.raised <==> exists i :: 0 <= i < |plan| && plan[i].step == Raise
    ensures forall a :: a in s.written ==> Planned(a, Write) in plan
    ensures forall a :: a in s.written ==> SaveRank(plan[0].a) <= SaveRank(a)
  {
    if plan == [] then Saving([], [], false)
    else
      var rest := SaveSteps(plan[1..]);
      match plan[0].step
      case Raise => Saving([], [], true)
      case Skip => rest
      case Write => rest.(written := [plan[0].a] + rest.written)
      case Warn(d) => rest.(diags := [d] + rest.diags)
  }

  /** The files are written in save order. */
  lemma {:induction false} SaveStepsInOrder(plan: seq<Planned>)
    requires PlanInSaveOrder(plan)
    ensures InSaveOrder(SaveSteps(plan).written)
  {
    if plan != [] {
      SaveStepsInOrder(plan[1..]);
    }
  }

  /** A raising step stops the run: every file written comes before it. */
  lemma {:induction false} SaveStepsStop(plan: seq<Planned>)
    requires PlanInSaveOrder(plan)
    ensures forall i, a ::
      (0 <= i < |plan| && plan[i].step == Raise && a in SaveSteps(plan).written
       ==> SaveRank(a) < SaveRank(plan[i].a))
  {
    if plan != [] {
      SaveStepsStop(plan[1..]);
      assert forall i :: 1 <= i < |plan| ==> plan[i] == plan[1..][i - 1];
    }
  }

  /** A writing step that no earlier step stops has its file written. */
  lemma {:induction false} SaveStepsComplete(plan: seq<Planned>)
    requires PlanInSaveOrder(plan)
    ensures forall i ::
      (0 <= i < |plan| && plan[i].step == Write && (forall k :: 0 <= k < i ==> plan[k].step != Raise)
       ==> plan[i].a in SaveSteps(plan).written)
  {
    if plan != [] {
      SaveStepsComplete(plan[1..]);
      assert forall i :: 1 <= i < |plan| ==> plan[i] == plan[1..][i - 1];
    }
  }

  /** A file is missing while a later one is written only if its step did not write. */
  lemma {:induction false} SaveStepsPrefix(plan: seq<Planned>)
    requires PlanInSaveOrder(plan)
    ensures forall a, i ::
      (a in SaveSteps(plan).written && 0 <= i < |plan| && plan[i].step == Write && SaveRank(plan[i].a) < SaveRank(a))
      ==> plan[i].a in SaveSteps(plan).written
  {
    if plan != [] {
      SaveStepsPrefix(plan[1..]);
      assert forall i :: 1 <= i < |plan| ==> plan[i] == plan[1..][i - 1];
    }
  }

  /** Every diagnostic of the save phase comes from a warning step that no earlier step stops. */
  lemma {:induction false} SaveStepsDiagnostics(plan: seq<Planned>)
    requires PlanInSaveOrder(plan)
    ensures forall d :: d in SaveSteps(plan).diags ==>
      exists i :: 0 <= i < |plan| && plan[i].step == Warn(d) && forall k :: 0 <= k < i ==> plan[k].step != Raise
  {
    if plan != [] {
      var rest := plan[1..];
      SaveStepsDiagnostics(rest);
      forall d | d in SaveSteps(plan).diags
        ensures exists i :: 0 <= i < |plan| && plan[i].step == Warn(d) && forall k :: 0 <= k < i ==> plan[k].step != Raise
      {
        if plan[0].step != Warn(d) {
          var i :| 0 <= i < |rest| && rest[i].step == Warn(d) && forall k :: 0 <= k < i ==> rest[k].step != Raise;
          assert plan[i + 1] == rest[i];
          assert forall k :: 1 <= k < i + 1 ==> plan[k] == rest[k - 1];
        }
      }
    }
  }

  /** The order in which `main` saves: risk, vegetation, priorities, then the map. */
  const SaveOrder: seq<Artifact> := [RiskJson, VegetationJson, PrioritiesJson, RiskMap]

  lemma SaveOrderRanks()
    ensures |SaveOrder| == 4
    ensures forall i :: 0 <= i < 4 ==> SaveRank(SaveOrder[i]) == i
    ensures forall a :: SaveOrder[SaveRank(a)] == a
  {
  }

  /** The save plan of `main`: each artifact of the save order with what its step does. */
  function SavePlan(results: map<string, Value>): (plan: seq<Planned>)
    ensures |plan| == 4 && PlanInSaveOrder(plan)
    ensures forall i :: 0 <= i < |plan| ==> plan[i].step == SaveStep(results, plan[i].a)
    ensures forall a :: plan[SaveRank(a)].a == a
  {
    SaveOrderRanks();
    seq(4, i requires 0 <= i < 4 => Planned(SaveOrder[i], SaveStep(results, SaveOrder[i])))
  }

  lemma SavePlanRaises(results: map<string, Value>)
    ensures (exists i :: 0 <= i < 4 && SavePlan(results)[i].step == Raise) <==> exists a :: !SaveSucceeds(results, a)
  {
    var plan := SavePlan(results);
    SaveStepMeaning(results);
    if a :| !SaveSucceeds(results, a) {
      assert plan[SaveRank(a)].step == Raise;
    }
  }

  lemma SavePlanWrites(results: map<string, Value>)
    ensures forall a :: Writes(results, a) ==> SavePlan(results)[SaveRank(a)] == Planned(a, Write)
  {
    SaveStepMeaning(results);
  }

  /** A warning comes from the map step, the last one, so a save phase that warns did not raise. */
  lemma SavePlanWarnsLast(results: map<string, Value>)
    ensures SaveSteps(SavePlan(results)).diags != [] ==> !SaveSteps(SavePlan(results)).raised
  {
    var plan := SavePlan(results);
    SaveStepsDiagnostics(plan);
    if SaveSteps(plan).diags != [] {
      var d := SaveSteps(plan).diags[0];
      var i :| 0 <= i < |plan| && plan[i].step == Warn(d) && forall k :: 0 <= k < i ==> plan[k].step != Raise;
      SaveOrderRanks();
      assert plan[i].a == RiskMap;
      assert i == 3;
    }
  }

  /** The files of the save phase are exactly those whose step writes and is reached. */
  lemma SavePlanWritten(results: map<string, Value>)
    ensures forall a :: a in SaveSteps(SavePlan(results)).written <==> Writes(results, a) && Reached(results, a)
  {
    var plan := SavePlan(results);
    SaveStepMeaning(results);
    SavePlanWrites(results);
    SaveStepsStop(plan);
    SaveStepsComplete(plan);
    forall a
      ensures a in SaveSteps(plan).written <==> Writes(results, a) && Reached(results, a)
    {
      if a in SaveSteps(plan).written {
        assert Reached(results, a);
      }
      if Writes(results, a) && Reached(results, a) {
        var i := SaveRank(a);
        forall k | 0 <= k < i
          ensures plan[k].step != Raise
        {
          SaveOrderRanks();
          assert SaveRank(plan[k].a) == k;
        }
      }
    }
  }

  /**
   * The save phase of `main`. It raises exactly when some step would raise;
   * every file written is one its step writes, in save order; when nothing
   * raises every such file is written; and a file is missing only if it
   * comes after the save that raised.
   */
  function SaveResults(results: map<string, Value>): (s: Saving)
    ensures s.raised <==> exists a :: !SaveSucceeds(results, a)
    ensures forall a :: a in s.written ==> Writes(results, a)
    ensures !s.raised ==> forall a :: a in s.written <==> Writes(results, a)
    ensures forall a, b :: a in s.written && SaveRank(b) < SaveRank(a) && Writes(results, b) ==> b in s.written
    ensures InSaveOrder(s.written)
    ensures forall a :: a in s.written <==> Writes(results, a) && Reached(results, a)
    ensures forall d :: d in s.diags ==> d == MapLacksSave || d == NoMapToSave
    ensures s.diags != [] ==> !s.raised
  {
    var plan := SavePlan(results);
    SaveStepMeaning(results);
    SavePlanRaises(results);
    SavePlanWrites(results);
    SavePlanWritten(results);
    SavePlanWarnsLast(results);
    SaveStepsComplete(plan);
    SaveStepsPrefix(plan);
    SaveStepsDiagnostics(plan);
    SaveStepsInOrder(plan);
    SaveSteps(plan)
  }

  /** `print_workflow_summary`: a "Completed" line per stage key present in the results. */
  function Summary(results: map<string, Value>): (r: seq<Stage>)
    ensures forall s :: s in r <==> StageKey(s) in results
    ensures forall i, j :: 0 <= i < j < |r| ==> StageRank(r[i]) < StageRank(r[j])
  {
    (if "data" in results then [Data] else [])
    + (if "vegetation" in results then [Vegetation] else [])
    + (if "risk" in results then [Risk] else [])
    + (if "priorities" in results then [Priorities] else [])
    + (if "reports" in results then [Reports] else [])
  }

  /** A run that ends before the assessment system is created. */
  function Abort(d: Diagnostic): Run {
    Run(1, false, None, [], [], [d])
  }

  /** `main`. */
  function Main(inv: Invocation): (r: Run)
    ensures r.exitCode == 0 || r.exitCode == 1
    ensures r.started <==>
      (inv.demo || CorridorGiven(inv.corridor)) && inv.pathExists && inv.read.ReadOk? && inv.read.segments > 0
    ensures !r.started ==> r.exitCode == 1 && r.crs.None? && r.artifacts == [] && r.summary == []
    ensures r.started ==> r.crs == Some(inv.read.crs.GetOr(DefaultCrs))
    ensures r.started ==> (CrsAssumed in r.diagnostics <==> inv.read.crs.None?)
    ensures r.exitCode == 0 <==>
      r.started && inv.assessment.Returns? && forall a :: SaveSucceeds(inv.assessment.results, a)
    ensures r.exitCode == 0 ==> r.summary == Summary(inv.assessment.results)
    ensures r.exitCode == 0 ==> forall a :: a in r.artifacts <==> Writes(inv.assessment.results, a)
    ensures r.started && inv.assessment.AssessmentRaises? ==> r.artifacts == []
    ensures r.started && inv.assessment.Returns? ==>
      forall a :: a in r.artifacts <==> Writes(inv.assessment.results, a) && Reached(inv.assessment.results, a)
    ensures r.exitCode == 1 ==> r.summary == []
  {
    if !inv.demo && !CorridorGiven(inv.corridor) then Abort(CorridorRequired)
    else if !inv.pathExists then Abort(CorridorNotFound)
    else
      match LoadCorridor(inv.read)
      case Failure(e) => Abort(LoadFailed(e))
      case Success(c) =>
        var warned := if c.crsAssumed then [CrsAssumed] else [];
        match inv.assessment
        case AssessmentRaises => Run(1, true, Some(c.crs), [], [], warned + [WorkflowFailed])
        case Returns(results) =>
          var saved := SaveResults(results);
          if saved.raised then
            Run(1, true, Some(c.crs), saved.written, [], warned + saved.diags + [WorkflowFailed])
          else
            Run(0, true, Some(c.crs), saved.written, Summary(results), warned + saved.diags)
  }

  /** The `data` result never reaches a file: changing it changes nothing the save phase does. */
  lemma DataNeverSaved(results: map<string, Value>, v: Value)
    ensures SaveResults(results["data" := v]) == SaveResults(results)
  {
    var changed := results["data" := v];
    forall a
      ensures SaveStep(changed, a) == SaveStep(results, a)
    {
      var key := ArtifactKey(a);
      assert Present(changed, key) == Present(results, key);
      if key in results {
        assert changed[key] == results[key];
      }
    }
    assert SavePlan(changed) == SavePlan(results);
  }

  /**
   * The summary tests membership while saving tests for None: a risk entry
   * that is None gets a "Completed" line but no file.
   */
  lemma SummaryWithoutFile(inv: Invocation)
    requires Main(inv).exitCode == 0
    requires "risk" in inv.assessment.results && inv.assessment.results["risk"] == PyNone
    ensures Risk in Main(inv).summary && RiskJson !in Main(inv).artifacts
  {
  }
}
