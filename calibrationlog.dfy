/** `extract_calibration_data`: the line-by-line scan of an Aspherix calibration
    log (readAspehrix.py:3-164 and its widget copy OWReadAspherix.py:193-361).
    The lines are visited from the last to the first; each goes through a fixed
    chain of matchers, some of which end the line's processing (`continue`).
    `Step` is one line of that loop, `ScanBack` the loop itself, and the lemmas
    say what the accumulated fields hold in terms of the lines in file order.
    The widget copy differs only in tracking `dispersity` (`widget == true`) and
    in returning the convergence flag. */
module CalibrationLog {
  import opened Base
  import opened Text
  import opened Dicts
  import opened Json
  import opened PyNumbers
  import opened LogPatterns

  datatype SoftwareInfo = SoftwareInfo(version: string, gitCommit: string, attemptingTo: string, runMode: string)

  datatype ParamDetails = ParamDetails(kind: string, init: Json, min: Json, max: Json)

  datatype Psd = Psd(radii: seq<Json>, massFractions: seq<Json>, dispersity: nat)

  /** The six accumulators of the scan, in the order the function returns them. */
  datatype Extraction = Extraction(
    info: SoftwareInfo,
    templates: Dict<seq<string>>,
    models: Dict<Json>,
    inputs: Dict<Json>,
    psd: Psd,
    calibrated: Dict<ParamDetails>)

  /** What the widget copy stores in `self.extracted_data`: the six and `{"isconverged": …}`. */
  datatype WidgetExtraction = WidgetExtraction(data: Extraction, isConverged: string)

  const CoarseGraining := "coarsegraining_val"

  const InitialModels: Dict<Json> := [
    ("normal_contact_model", JStr("")),
    ("tangential_contact_model", JStr("")),
    ("cohesion_model", JStr("")),
    ("rolling_friction_model", JStr("")),
    ("surface_model", JStr("")),
    (CoarseGraining, JInt(0))]

  const ModelNames: seq<string> := ["normal_contact_model", "tangential_contact_model", "cohesion_model",
    "rolling_friction_model", "surface_model", CoarseGraining]

  const Initial := Extraction(SoftwareInfo("", "", "", ""), [], InitialModels, [], Psd([], [], 0), [])

  // ---------------------------------------------------------------------
  // One line of the loop

  /** The words of a `target_param … measfile` section, if the line has one. */
  function WordsOf(section: Option<string>): seq<string> {
    match section
    case None => []
    case Some(text) => Words(text)
  }

  /** Template `name` is created empty on first sight, then extended by the words. */
  function TemplateUpdate(t: Dict<seq<string>>, name: string, section: Option<string>): Dict<seq<string>> {
    var t1 := if name in Keys(t) then t else Put(t, name, []);
    if section.None? then t1 else Put(t1, name, Get(t1, name).GetOr([]) + WordsOf(section))
  }

  /** The `calibration_case` block: a `template <w>` line creates the key `w`
      (empty on first sight) and appends the words of its target section. */
  function TemplateStep(t: Dict<seq<string>>, line: string): Dict<seq<string>> {
    if !Contains(line, "calibration_case") then t
    else
      match Template(line)
      case None => t
      case Some(name) => TemplateUpdate(t, name, TargetSection(line))
  }

  /** The model matcher ends the line for every model name except the coarse-graining value. */
  predicate ModelConsumes(models: Dict<Json>, line: string) {
    match ModelVariable(line)
    case None => false
    case Some(g) => g.0 != CoarseGraining && g.0 in Keys(models)
  }

  function CoarseGrainingStep(models: Dict<Json>, line: string): Dict<Json> {
    match ModelVariable(line)
    case Some(g) => if g.0 == CoarseGraining then Put(models, CoarseGraining, ParseValue(g.1)) else models
    case None => models
  }

  function NumericStep(widget: bool, acc: Extraction, name: string, value: string): Extraction {
    var v := ParseValue(value);
    var isRadius := StartsWith(name, "rp");
    var radii := if isRadius then acc.psd.radii + [v] else acc.psd.radii;
    var fractions := if !isRadius && StartsWith(name, "mf") then acc.psd.massFractions + [v] else acc.psd.massFractions;
    var dispersity := if widget then |radii| else acc.psd.dispersity;
    acc.(psd := Psd(radii, fractions, dispersity), inputs := Put(acc.inputs, name, v))
  }

  function InfoStep(info: SoftwareInfo, line: string): SoftwareInfo {
    var a := Attempt(line);
    var g := GitCommit(line);
    var v := Version(line);
    info.(
      attemptingTo := if a.Some? then a.value else info.attemptingTo,
      gitCommit := if g.Some? then g.value else info.gitCommit,
      version := if v.Some? then v.value else info.version)
  }

  /** The matchers after the model matcher: numeric variable, calibrated
      parameter, and otherwise the three software-info matchers. */
  function LaterMatchers(widget: bool, acc: Extraction, line: string): Extraction {
    match NumericVariable(line)
    case Some(g) => NumericStep(widget, acc, g.0, g.1)
    case None =>
      match ParamCalibration(line)
      case Some(c) =>
        acc.(calibrated := Put(acc.calibrated, c.name,
          ParamDetails(c.kind, ParseValue(c.init), ParseValue(c.min), ParseValue(c.max))))
      case None => acc.(info := InfoStep(acc.info, line))
  }

  /** A line without a run-mode match, from the template block on. */
  function AfterRunMode(widget: bool, acc: Extraction, line: string): Extraction {
    var a1 := acc.(templates := TemplateStep(acc.templates, line));
    if ModelConsumes(a1.models, line) then
      var g := ModelVariable(line).value;
      a1.(models := Put(a1.models, g.0, JStr(g.1)))
    else
      LaterMatchers(widget, a1.(models := CoarseGrainingStep(a1.models, line)), line)
  }

  /** One iteration of the loop body. */
  function Step(widget: bool, acc: Extraction, line: string): Extraction {
    match RunMode(line)
    case Some(mode) => acc.(info := acc.info.(runMode := mode))
    case None => AfterRunMode(widget, acc, line)
  }

  /** The loop `for line in reversed(lines)`: the last line is processed first. */
  function ScanBack(widget: bool, lines: seq<string>): Extraction
    decreases |lines|
  {
    if lines == [] then Initial else Step(widget, ScanBack(widget, lines[1..]), lines[0])
  }

  // ---------------------------------------------------------------------
  // After the loop

  const BaseParameters: set<string> := {"density_p", "young_w", "young_p", "poisson_p", "poisson_w",
    "rest_coef_pw", "rest_coef_pp", "fric_coef_pp", "fric_coef_pw", "roll_fric_pp", "roll_fric_pw"}

  const RollingDampingParameters: set<string> := {"roll_damp_pw", "roll_damp_pp"}

  const CohesionEnergyParameters: set<string> := {"cohesion_energy_pp", "cohesion_energy_pw"}

  const AdaptiveCohesionParameters: set<string> := {"init_coh_stress_pw", "init_coh_stress_pp",
    "max_coh_stress_pp_0", "max_coh_stress_pp_min", "max_coh_stress_pp_max",
    "coh_strength_pp_0", "coh_strength_pp_min", "coh_strength_pp_max"}

  predicate ModelIs(models: Dict<Json>, key: string, value: string) {
    Get(models, key) == Some(JStr(value))
  }

  /** The whitelist of input parameters, grown according to the models found. */
  function Desired(models: Dict<Json>): set<string> {
    var s1 := if ModelIs(models, "normal_contact_model", "hooke") then BaseParameters + {"char_vel"} else BaseParameters;
    var s2 := if ModelIs(models, "rolling_friction_model", "epsd") then s1 + RollingDampingParameters else s1;
    var s3 := if ModelIs(models, "cohesion_model", "sjkr") || ModelIs(models, "cohesion_model", "sjkr2") then s2 + CohesionEnergyParameters else s2;
    if ModelIs(models, "cohesion_model", "adaptive") then s3 + AdaptiveCohesionParameters else s3
  }

  function FilterInputs(inputs: Dict<Json>, models: Dict<Json>): Dict<Json> {
    Restrict(inputs, k => k in Desired(models))
  }

  function Finish(acc: Extraction): Extraction {
    acc.(inputs := FilterInputs(acc.inputs, acc.models))
  }

  /** `"No"` when the stripped last line has `ERROR` or lacks the success phrase. */
  function Converged(lines: seq<string>): string
    requires lines != []
  {
    var last := Strip(lines[|lines| - 1]);
    if Contains(last, "ERROR") || !Contains(last, "calibration ended successfully") then "No" else "Yes"
  }

  /** readAspehrix.py: the six accumulators; `lines[-1]` fails on an empty file,
      and the convergence flag is computed but not returned. */
  function ScriptExtraction(lines: seq<string>): Result<Extraction> {
    if lines == [] then Failure(IndexError)
    else
      var _ := Converged(lines);
      Success(Finish(ScanBack(false, lines)))
  }

  /** OWReadAspherix.py: the same, with dispersity tracking and the convergence flag. */
  function WidgetExtractionOf(lines: seq<string>): Result<WidgetExtraction> {
    if lines == [] then Failure(IndexError)
    else Success(WidgetExtraction(Finish(ScanBack(true, lines)), Converged(lines)))
  }

  // ---------------------------------------------------------------------
  // The loop as the source runs it

  method ScanLines(widget: bool, lines: seq<string>) returns (acc: Extraction)
    ensures acc == ScanBack(widget, lines)
  {
    acc := Initial;
    var i := |lines|;
    while i > 0
      invariant 0 <= i <= |lines|
      invariant acc == ScanBack(widget, lines[i..])
    {
      i := i - 1;
      assert lines[i..][1..] == lines[i + 1..];
      acc := Step(widget, acc, lines[i]);
    }
    assert lines[0..] == lines;
  }

  method ExtractCalibrationData(lines: seq<string>) returns (r: Result<Extraction>)
    ensures r == ScriptExtraction(lines)
  {
    if lines == [] {
      return Failure(IndexError);
    }
    var acc := ScanLines(false, lines);
    r := Success(Finish(acc));
  }

  method ExtractCalibrationDataWidget(lines: seq<string>) returns (r: Result<WidgetExtraction>)
    ensures r == WidgetExtractionOf(lines)
  {
    if lines == [] {
      return Failure(IndexError);
    }
    var converged := Converged(lines);
    var acc := ScanLines(true, lines);
    r := Success(WidgetExtraction(Finish(acc), converged));
  }

  // ---------------------------------------------------------------------
  // File-order readings of the accumulated fields

  /** The first line, in file order, for which `hit` gives a value. */
  function FirstHit<T>(lines: seq<string>, hit: string -> Option<T>): Option<T> {
    if lines == [] then None
    else if hit(lines[0]).Some? then hit(lines[0])
    else FirstHit(lines[1..], hit)
  }

  /** `FirstHit` is the hit of the lowest-numbered line that has one. */
  lemma {:induction false} FirstHitIsFirst<T>(lines: seq<string>, hit: string -> Option<T>)
    ensures FirstHit(lines, hit).Some? ==>
      exists k :: 0 <= k < |lines| && hit(lines[k]) == FirstHit(lines, hit) && (forall m :: 0 <= m < k ==> hit(lines[m]).None?)
    ensures FirstHit(lines, hit).None? ==> forall k :: 0 <= k < |lines| ==> hit(lines[k]).None?
  {
    if lines != [] && hit(lines[0]).None? {
      FirstHitIsFirst(lines[1..], hit);
      if FirstHit(lines, hit).Some? {
        var k :| 0 <= k < |lines[1..]| && hit(lines[1..][k]) == FirstHit(lines, hit)
          && (forall m :: 0 <= m < k ==> hit(lines[1..][m]).None?);
        assert hit(lines[k + 1]) == FirstHit(lines, hit);
        assert forall m :: 0 <= m < k + 1 ==> hit(lines[m]).None? by {
          forall m | 0 <= m < k + 1 ensures hit(lines[m]).None? {
            if m > 0 { assert lines[m] == lines[1..][m - 1]; }
          }
        }
      }
    }
  }

  /** A line the model matcher does not end and no run-mode match took. */
  predicate Reaches(line: string) {
    RunMode(line).None? && !ModelConsumes(InitialModels, line)
  }

  /** A line that gets past the numeric and the calibration matchers as well. */
  predicate Trailing(line: string) {
    Reaches(line) && NumericVariable(line).None? && ParamCalibration(line).None?
  }

  function ModelHit(name: string, line: string): Option<Json> {
    if RunMode(line).Some? then None
    else
      match ModelVariable(line)
      case None => None
      case Some(g) =>
        if g.0 != name || name !in ModelNames then None
        else if name == CoarseGraining then Some(ParseValue(g.1))
        else Some(JStr(g.1))
  }

  function InputHit(name: string, line: string): Option<Json> {
    if !Reaches(line) then None
    else
      match NumericVariable(line)
      case None => None
      case Some(g) => if g.0 == name then Some(ParseValue(g.1)) else None
  }

  function CalibratedHit(name: string, line: string): Option<ParamDetails> {
    if !Reaches(line) || NumericVariable(line).Some? then None
    else
      match ParamCalibration(line)
      case None => None
      case Some(c) =>
        if c.name == name then Some(ParamDetails(c.kind, ParseValue(c.init), ParseValue(c.min), ParseValue(c.max))) else None
  }

  function AttemptHit(line: string): Option<string> { if Trailing(line) then Attempt(line) else None }

  function GitHit(line: string): Option<string> { if Trailing(line) then GitCommit(line) else None }

  function VersionHit(line: string): Option<string> { if Trailing(line) then Version(line) else None }

  /** A numeric-variable line whose name starts with `rp` (radius) or, failing that, `mf`. */
  function PsdHit(line: string, radius: bool): Option<Json> {
    if !Reaches(line) then None
    else
      match NumericVariable(line)
      case None => None
      case Some(g) =>
        var isRadius := StartsWith(g.0, "rp");
        if (radius && isRadius) || (!radius && !isRadius && StartsWith(g.0, "mf")) then Some(ParseValue(g.1)) else None
  }

  function HitList(h: Option<Json>): seq<Json> {
    if h.Some? then [h.value] else []
  }

  /** The `rp`/`mf` values in file order. */
  function PsdInFileOrder(lines: seq<string>, radius: bool): seq<Json> {
    if lines == [] then [] else HitList(PsdHit(lines[0], radius)) + PsdInFileOrder(lines[1..], radius)
  }

  function Reverse<T>(s: seq<T>): (r: seq<T>)
    ensures |r| == |s|
  {
    if s == [] then [] else Reverse(s[1..]) + [s[0]]
  }

  predicate TemplateLine(line: string, name: string) {
    RunMode(line).None? && Contains(line, "calibration_case") && Template(line) == Some(name)
  }

  function SectionWords(line: string): seq<string> { WordsOf(TargetSection(line)) }

  /** The words of the template's lines, concatenated in the order the scan visits them. */
  function TemplateWordsInScanOrder(lines: seq<string>, name: string): seq<string> {
    if lines == [] then []
    else TemplateWordsInScanOrder(lines[1..], name) + (if TemplateLine(lines[0], name) then SectionWords(lines[0]) else [])
  }

  // ---------------------------------------------------------------------
  // One step, field by field

  lemma InitialModelKeys()
    ensures Keys(InitialModels) == ModelNames
  {
  }

  /** With the six model keys in place, whether the model matcher ends a line
      does not depend on the values accumulated so far. */
  lemma ConsumesOnKeys(models: Dict<Json>, line: string)
    requires Keys(models) == ModelNames
    ensures ModelConsumes(models, line) <==> ModelConsumes(InitialModels, line)
  {
    InitialModelKeys();
  }

  lemma LaterMatchersFrame(widget: bool, acc: Extraction, line: string)
    ensures LaterMatchers(widget, acc, line).models == acc.models
    ensures LaterMatchers(widget, acc, line).templates == acc.templates
  {
  }

  lemma CoarseGrainingKeys(models: Dict<Json>, line: string)
    requires Keys(models) == ModelNames
    ensures Keys(CoarseGrainingStep(models, line)) == ModelNames
  {
  }

  lemma StepModelKeys(widget: bool, acc: Extraction, line: string)
    requires Keys(acc.models) == ModelNames
    ensures Keys(Step(widget, acc, line).models) == ModelNames
  {
    if RunMode(line).None? {
      var a1 := acc.(templates := TemplateStep(acc.templates, line));
      if !ModelConsumes(a1.models, line) {
        LaterMatchersFrame(widget, a1.(models := CoarseGrainingStep(a1.models, line)), line);
        CoarseGrainingKeys(a1.models, line);
      }
    }
  }

  lemma StepModels(widget: bool, acc: Extraction, line: string, name: string)
    requires Keys(acc.models) == ModelNames && name in ModelNames
    ensures Get(Step(widget, acc, line).models, name) == if ModelHit(name, line).Some? then ModelHit(name, line) else Get(acc.models, name)
  {
    if RunMode(line).None? {
      var a1 := acc.(templates := TemplateStep(acc.templates, line));
      if !ModelConsumes(a1.models, line) {
        LaterMatchersFrame(widget, a1.(models := CoarseGrainingStep(a1.models, line)), line);
      }
    }
  }

  lemma LaterMatchersInputs(widget: bool, acc: Extraction, line: string, name: string)
    ensures Get(LaterMatchers(widget, acc, line).inputs, name) ==
      match NumericVariable(line)
      case Some(g) => if g.0 == name then Some(ParseValue(g.1)) else Get(acc.inputs, name)
      case None => Get(acc.inputs, name)
  {
  }

  lemma StepInputs(widget: bool, acc: Extraction, line: string, name: string)
    requires Keys(acc.models) == ModelNames
    ensures Get(Step(widget, acc, line).inputs, name) == if InputHit(name, line).Some? then InputHit(name, line) else Get(acc.inputs, name)
  {
    if RunMode(line).None? {
      var a1 := acc.(templates := TemplateStep(acc.templates, line));
      ConsumesOnKeys(a1.models, line);
      if !ModelConsumes(a1.models, line) {
        LaterMatchersInputs(widget, a1.(models := CoarseGrainingStep(a1.models, line)), line, name);
      }
    }
  }

  lemma LaterMatchersCalibrated(widget: bool, acc: Extraction, line: string, name: string)
    ensures Get(LaterMatchers(widget, acc, line).calibrated, name) ==
      if NumericVariable(line).None? && ParamCalibration(line).Some? && ParamCalibration(line).value.name == name then
        var c := ParamCalibration(line).value;
        Some(ParamDetails(c.kind, ParseValue(c.init), ParseValue(c.min), ParseValue(c.max)))
      else Get(acc.calibrated, name)
  {
  }

  lemma StepCalibrated(widget: bool, acc: Extraction, line: string, name: string)
    requires Keys(acc.models) == ModelNames
    ensures Get(Step(widget, acc, line).calibrated, name) == if CalibratedHit(name, line).Some? then CalibratedHit(name, line) else Get(acc.calibrated, name)
  {
    if RunMode(line).None? {
      var a1 := acc.(templates := TemplateStep(acc.templates, line));
      ConsumesOnKeys(a1.models, line);
      if !ModelConsumes(a1.models, line) {
        LaterMatchersCalibrated(widget, a1.(models := CoarseGrainingStep(a1.models, line)), line, name);
      }
    }
  }

  lemma LaterMatchersInfo(widget: bool, acc: Extraction, line: string)
    ensures LaterMatchers(widget, acc, line).info ==
      if NumericVariable(line).None? && ParamCalibration(line).None? then InfoStep(acc.info, line) else acc.info
  {
  }

  lemma StepInfo(widget: bool, acc: Extraction, line: string)
    requires Keys(acc.models) == ModelNames
    ensures Step(widget, acc, line).info == if RunMode(line).Some? then acc.info.(runMode := RunMode(line).value)
      else if Trailing(line) then InfoStep(acc.info, line) else acc.info
  {
    if RunMode(line).None? {
      var a1 := acc.(templates := TemplateStep(acc.templates, line));
      ConsumesOnKeys(a1.models, line);
      if !ModelConsumes(a1.models, line) {
        LaterMatchersInfo(widget, a1.(models := CoarseGrainingStep(a1.models, line)), line);
      }
    }
  }

  lemma LaterMatchersPsd(widget: bool, acc: Extraction, line: string)
    ensures LaterMatchers(widget, acc, line).psd.radii == acc.psd.radii +
      match NumericVariable(line)
      case Some(g) => if StartsWith(g.0, "rp") then [ParseValue(g.1)] else []
      case None => []
    ensures LaterMatchers(widget, acc, line).psd.massFractions == acc.psd.massFractions +
      match NumericVariable(line)
      case Some(g) => if !StartsWith(g.0, "rp") && StartsWith(g.0, "mf") then [ParseValue(g.1)] else []
      case None => []
    ensures LaterMatchers(widget, acc, line).psd.dispersity ==
      if widget && NumericVariable(line).Some? then |LaterMatchers(widget, acc, line).psd.radii| else acc.psd.dispersity
  {
  }

  lemma StepPsd(widget: bool, acc: Extraction, line: string)
    requires Keys(acc.models) == ModelNames
    ensures Step(widget, acc, line).psd.radii == acc.psd.radii + HitList(PsdHit(line, true))
    ensures Step(widget, acc, line).psd.massFractions == acc.psd.massFractions + HitList(PsdHit(line, false))
    ensures Step(widget, acc, line).psd.dispersity == acc.psd.dispersity
      || (widget && Step(widget, acc, line).psd.dispersity == |Step(widget, acc, line).psd.radii|)
  {
    if RunMode(line).None? {
      var a1 := acc.(templates := TemplateStep(acc.templates, line));
      ConsumesOnKeys(a1.models, line);
      if !ModelConsumes(a1.models, line) {
        LaterMatchersPsd(widget, a1.(models := CoarseGrainingStep(a1.models, line)), line);
      }
    }
  }

  lemma StepTemplates(widget: bool, acc: Extraction, line: string)
    ensures Step(widget, acc, line).templates == if RunMode(line).Some? then acc.templates else TemplateStep(acc.templates, line)
  {
    if RunMode(line).None? {
      var a1 := acc.(templates := TemplateStep(acc.templates, line));
      if !ModelConsumes(a1.models, line) {
        LaterMatchersFrame(widget, a1.(models := CoarseGrainingStep(a1.models, line)), line);
      }
    }
  }

  lemma TemplateUpdateEffect(t: Dict<seq<string>>, w: string, section: Option<string>, name: string)
    ensures Get(TemplateUpdate(t, w, section), name) ==
      if w == name then Some(Get(t, name).GetOr([]) + WordsOf(section)) else Get(t, name)
  {
    var t1 := if w in Keys(t) then t else Put(t, w, []);
    assert Get(t1, w) == Some(Get(t, w).GetOr([]));
    assert Get(t1, name) == Get(t, name) || name == w;
    if section.None? {
      assert Get(t, w).GetOr([]) + WordsOf(section) == Get(t, w).GetOr([]);
    }
  }

  lemma TemplateStepEffect(t: Dict<seq<string>>, line: string, name: string)
    ensures Get(TemplateStep(t, line), name) ==
      if Contains(line, "calibration_case") && Template(line) == Some(name) then Some(Get(t, name).GetOr([]) + SectionWords(line))
      else Get(t, name)
  {
    if Contains(line, "calibration_case") && Template(line).Some? {
      TemplateUpdateEffect(t, Template(line).value, TargetSection(line), name);
    }
  }

  // ---------------------------------------------------------------------
  // The whole scan

  /** The models dictionary always has exactly the six initial keys. */
  lemma {:induction false} ModelKeysInvariant(widget: bool, lines: seq<string>)
    ensures Keys(ScanBack(widget, lines).models) == ModelNames
  {
    if lines == [] {
      InitialModelKeys();
    } else {
      ModelKeysInvariant(widget, lines[1..]);
      StepModelKeys(widget, ScanBack(widget, lines[1..]), lines[0]);
    }
  }

  /** A run-mode line sets only the run mode: no other matcher sees it. */
  lemma RunModeLineIsolated(widget: bool, acc: Extraction, line: string)
    requires RunMode(line).Some?
    ensures Step(widget, acc, line) == acc.(info := acc.info.(runMode := RunMode(line).value))
    ensures RunMode(line).value == "single" || RunMode(line).value == "sequential"
  {
    var r := Search(line, 0, k => RunModeAt(line, k));
    assert RunModeAt(line, r.value.0) == Some(r.value.1);
  }

  /** Every model ends up with the value of its earliest line in the file. */
  lemma {:induction false} ModelsEarliestWins(widget: bool, lines: seq<string>, name: string)
    requires name in ModelNames
    ensures Get(ScanBack(widget, lines).models, name) ==
      if FirstHit(lines, l => ModelHit(name, l)).Some? then FirstHit(lines, l => ModelHit(name, l)) else Get(InitialModels, name)
  {
    if lines == [] {
      InitialModelKeys();
    } else {
      ModelsEarliestWins(widget, lines[1..], name);
      ModelKeysInvariant(widget, lines[1..]);
      StepModels(widget, ScanBack(widget, lines[1..]), lines[0], name);
    }
  }

  /** Every input parameter holds the value of its earliest numeric line that the
      earlier matchers let through. */
  lemma {:induction false} InputsEarliestWins(widget: bool, lines: seq<string>, name: string)
    ensures Get(ScanBack(widget, lines).inputs, name) == FirstHit(lines, l => InputHit(name, l))
  {
    if lines != [] {
      InputsEarliestWins(widget, lines[1..], name);
      ModelKeysInvariant(widget, lines[1..]);
      StepInputs(widget, ScanBack(widget, lines[1..]), lines[0], name);
    }
  }

  lemma {:induction false} CalibratedEarliestWins(widget: bool, lines: seq<string>, name: string)
    ensures Get(ScanBack(widget, lines).calibrated, name) == FirstHit(lines, l => CalibratedHit(name, l))
  {
    if lines != [] {
      CalibratedEarliestWins(widget, lines[1..], name);
      ModelKeysInvariant(widget, lines[1..]);
      StepCalibrated(widget, ScanBack(widget, lines[1..]), lines[0], name);
    }
  }

  lemma {:induction false} InfoEarliestWins(widget: bool, lines: seq<string>)
    ensures ScanBack(widget, lines).info.attemptingTo == FirstHit(lines, AttemptHit).GetOr("")
    ensures ScanBack(widget, lines).info.gitCommit == FirstHit(lines, GitHit).GetOr("")
    ensures ScanBack(widget, lines).info.version == FirstHit(lines, VersionHit).GetOr("")
    ensures ScanBack(widget, lines).info.runMode == FirstHit(lines, RunMode).GetOr("")
  {
    if lines != [] {
      InfoEarliestWins(widget, lines[1..]);
      ModelKeysInvariant(widget, lines[1..]);
      StepInfo(widget, ScanBack(widget, lines[1..]), lines[0]);
    }
  }

  lemma ReverseCons<T>(x: T, s: seq<T>)
    ensures Reverse([x] + s) == Reverse(s) + [x]
  {
    assert ([x] + s)[1..] == s;
  }

  lemma ReverseHitList(h: Option<Json>, s: seq<Json>)
    ensures Reverse(HitList(h) + s) == Reverse(s) + HitList(h)
  {
    if h.Some? {
      ReverseCons(h.value, s);
    } else {
      assert HitList(h) + s == s;
    }
  }

  /** The PSD lists hold the `rp`/`mf` values in reverse file order. */
  lemma {:induction false} PsdListsReversed(widget: bool, lines: seq<string>)
    ensures ScanBack(widget, lines).psd.radii == Reverse(PsdInFileOrder(lines, true))
    ensures ScanBack(widget, lines).psd.massFractions == Reverse(PsdInFileOrder(lines, false))
  {
    if lines != [] {
      PsdListsReversed(widget, lines[1..]);
      ModelKeysInvariant(widget, lines[1..]);
      StepPsd(widget, ScanBack(widget, lines[1..]), lines[0]);
      ReverseHitList(PsdHit(lines[0], true), PsdInFileOrder(lines[1..], true));
      ReverseHitList(PsdHit(lines[0], false), PsdInFileOrder(lines[1..], false));
    }
  }

  /** Only the widget copy tracks dispersity, and there it is the number of radii. */
  lemma {:induction false} DispersityCountsRadii(widget: bool, lines: seq<string>)
    ensures ScanBack(widget, lines).psd.dispersity == if widget then |ScanBack(widget, lines).psd.radii| else 0
  {
    if lines != [] {
      DispersityCountsRadii(widget, lines[1..]);
      ModelKeysInvariant(widget, lines[1..]);
      StepPsd(widget, ScanBack(widget, lines[1..]), lines[0]);
      if widget {
        var before := ScanBack(widget, lines[1..]).psd;
        var after := ScanBack(widget, lines).psd;
        if PsdHit(lines[0], true).Some? {
          assert after.dispersity != before.dispersity by {
            assert |after.radii| == |before.radii| + 1;
          }
        }
      }
    }
  }

  /** Some line of `lines` is a `calibration_case` line for template `name`. */
  predicate MentionsTemplate(lines: seq<string>, name: string) {
    lines != [] && (TemplateLine(lines[0], name) || MentionsTemplate(lines[1..], name))
  }

  lemma {:induction false} MentionsTemplateIff(lines: seq<string>, name: string)
    ensures MentionsTemplate(lines, name) <==> exists k :: 0 <= k < |lines| && TemplateLine(lines[k], name)
  {
    if lines != [] {
      var rest := lines[1..];
      MentionsTemplateIff(rest, name);
      if exists k :: 0 <= k < |lines| && TemplateLine(lines[k], name) {
        var k :| 0 <= k < |lines| && TemplateLine(lines[k], name);
        if k > 0 { assert TemplateLine(rest[k - 1], name); }
      }
      if exists k :: 0 <= k < |rest| && TemplateLine(rest[k], name) {
        var k :| 0 <= k < |rest| && TemplateLine(rest[k], name);
        assert TemplateLine(lines[k + 1], name);
      }
    }
  }

  /** A template key exists iff some `calibration_case` line names it; its list is
      the words of its target sections, duplicates kept. */
  lemma {:induction false} TemplatesCollected(widget: bool, lines: seq<string>, name: string)
    ensures Get(ScanBack(widget, lines).templates, name) ==
      if MentionsTemplate(lines, name) then Some(TemplateWordsInScanOrder(lines, name)) else None
  {
    if lines != [] {
      var rest := lines[1..];
      var before := ScanBack(widget, rest).templates;
      var after := ScanBack(widget, lines).templates;
      TemplatesCollected(widget, rest, name);
      StepTemplates(widget, ScanBack(widget, rest), lines[0]);
      TemplateStepEffect(before, lines[0], name);
      var words := TemplateWordsInScanOrder(lines, name);
      if TemplateLine(lines[0], name) {
        assert after == TemplateStep(before, lines[0]);
        if !MentionsTemplate(rest, name) {
          UnmentionedHasNoWords(rest, name);
        }
        assert Get(after, name) == Some(Get(before, name).GetOr([]) + SectionWords(lines[0]));
        assert words == TemplateWordsInScanOrder(rest, name) + SectionWords(lines[0]);
        assert MentionsTemplate(lines, name);
        assert Get(after, name) == Some(words);
      } else {
        assert Get(after, name) == Get(before, name);
        assert words == TemplateWordsInScanOrder(rest, name) + [];
        assert MentionsTemplate(lines, name) == MentionsTemplate(rest, name);
        assert words == TemplateWordsInScanOrder(rest, name);
      }
    }
  }

  lemma {:induction false} UnmentionedHasNoWords(lines: seq<string>, name: string)
    requires !MentionsTemplate(lines, name)
    ensures TemplateWordsInScanOrder(lines, name) == []
  {
    if lines != [] {
      UnmentionedHasNoWords(lines[1..], name);
    }
  }

  /** The filtered parameters are the unfiltered ones restricted to the whitelist:
      no value changes and no key is added. */
  lemma FilteredInputs(inputs: Dict<Json>, models: Dict<Json>, k: string)
    ensures Get(FilterInputs(inputs, models), k) == if k in Desired(models) then Get(inputs, k) else None
    ensures |FilterInputs(inputs, models)| <= |inputs|
  {
  }

  /** Which names the whitelist admits, model by model. */
  lemma DesiredMembers(models: Dict<Json>, k: string)
    ensures k in Desired(models) <==>
      k in BaseParameters
      || (k == "char_vel" && ModelIs(models, "normal_contact_model", "hooke"))
      || (k in RollingDampingParameters && ModelIs(models, "rolling_friction_model", "epsd"))
      || (k in CohesionEnergyParameters && (ModelIs(models, "cohesion_model", "sjkr") || ModelIs(models, "cohesion_model", "sjkr2")))
      || (k in AdaptiveCohesionParameters && ModelIs(models, "cohesion_model", "adaptive"))
  {
  }

  /** `char_vel` survives the filter only when the normal model is `hooke`. */
  lemma CharVelOnlyWithHooke(models: Dict<Json>)
    ensures "char_vel" in Desired(models) <==> ModelIs(models, "normal_contact_model", "hooke")
  {
    DesiredMembers(models, "char_vel");
    assert "char_vel" !in BaseParameters;
    assert "char_vel" !in RollingDampingParameters;
    assert "char_vel" !in CohesionEnergyParameters;
    assert "char_vel" !in AdaptiveCohesionParameters;
  }

  /** The widget's convergence flag and the empty-file failure. */
  lemma WidgetConvergence(lines: seq<string>)
    ensures WidgetExtractionOf(lines).Failure? <==> lines == []
    ensures lines != [] ==>
      (WidgetExtractionOf(lines).value.isConverged == "Yes" <==>
        (Contains(Strip(lines[|lines| - 1]), "calibration ended successfully") && !Contains(Strip(lines[|lines| - 1]), "ERROR")))
  {
  }
}
