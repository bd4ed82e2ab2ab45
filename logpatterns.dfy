/** Hand-written recognisers for the regular expressions the calibration-log
    extractor applies to each line (readAspehrix.py, OWReadAspherix.py). Each
    `…At(s, i)` says whether the pattern matches starting at index `i` and gives
    its groups; `re.search` is the first index where that holds (`Search`).
    Every pattern here is deterministic: a greedy run of one character class is
    always followed by a character outside that class, so no backtracking into
    a run can produce another match. */
module LogPatterns {
  import opened Base
  import opened Text

  /** `[\d.e+-]`, the character class of numeric-looking tokens. */
  predicate IsNumChar(c: char) { IsDigit(c) || c == '.' || c == 'e' || c == '+' || c == '-' }

  /** The literal `lit` at `i`, followed by a non-empty maximal run of `P`-characters;
      gives the run and the index just after it. */
  function LitRun(s: string, i: nat, lit: string, P: char -> bool): (r: Option<(string, nat)>)
    ensures r.Some? ==> OccursAt(s, lit, i)
    ensures r.Some? ==> i + |lit| < r.value.1 <= |s| && s[i..r.value.1] == lit + r.value.0
    ensures r.Some? ==> forall k :: 0 <= k < |r.value.0| ==> P(r.value.0[k])
    ensures r.Some? ==> r.value.1 == |s| || !P(s[r.value.1])
    ensures r.None? ==> !OccursAt(s, lit, i) || i + |lit| == |s| || !P(s[i + |lit|])
  {
    if !OccursAt(s, lit, i) then None
    else
      var j := i + |lit|;
      var e := RunEnd(s, j, P);
      if e == j then None
      else
        assert s[i..e] == s[i..j] + s[j..e];
        Some((s[j..e], e))
  }

  /** The first index at or after `i` where `at` matches, with its groups (`re.search`). */
  function Search<T>(s: string, i: nat, at: nat -> Option<T>): (r: Option<(nat, T)>)
    decreases |s| + 1 - i
    ensures r.Some? ==> i <= r.value.0 <= |s| && at(r.value.0) == Some(r.value.1)
    ensures r.Some? ==> forall k :: i <= k < r.value.0 ==> at(k).None?
    ensures r.None? ==> forall k :: i <= k <= |s| ==> at(k).None?
  {
    if i > |s| then None
    else
      match at(i)
      case Some(g) => Some((i, g))
      case None => Search(s, i + 1, at)
  }

  /** The groups of the first match of a pattern, dropping its position. */
  function Groups<T>(r: Option<(nat, T)>): Option<T> {
    match r
    case None => None
    case Some(p) => Some(p.1)
  }

  // ---------------------------------------------------------------------
  // The patterns, anchored at an index

  /** `run mode (single|sequential)`. */
  function RunModeAt(s: string, i: nat): (r: Option<string>)
    ensures r.Some? ==> (r.value == "single" || r.value == "sequential") && OccursAt(s, "run mode " + r.value, i)
    ensures r.None? ==> !OccursAt(s, "run mode single", i) && !OccursAt(s, "run mode sequential", i)
  {
    if OccursAt(s, "run mode single", i) then Some("single")
    else if OccursAt(s, "run mode sequential", i) then Some("sequential")
    else None
  }

  /** `template (\w+)`. */
  function TemplateAt(s: string, i: nat): Option<string> {
    match LitRun(s, i, "template ", IsWordChar)
    case None => None
    case Some(p) => Some(p.0)
  }

  /** Text that ends before the first occurrence of `p` after `j` does not hold `p`. */
  lemma BeforeFirstOccurrence(s: string, p: string, j: nat, m: nat)
    requires p != [] && j <= m <= |s|
    requires forall k :: j <= k < m ==> !OccursAt(s, p, k)
    ensures !Contains(s[j..m], p)
  {
    var section := s[j..m];
    if Contains(section, p) {
      var k := FindFrom(section, p, 0).value;
      assert OccursAt(section, p, k);
      assert j + k < m;
      assert s[j + k..j + k + |p|] == section[k..k + |p|];
      assert OccursAt(s, p, j + k);
      assert false;
    }
  }

  /** Adjacent occurrences of `a`, `mid` and `b` form one occurrence of `a + mid + b`. */
  lemma OccursConcat(s: string, a: string, mid: string, b: string, i: nat)
    requires OccursAt(s, a, i) && OccursAt(s, mid, i + |a|) && OccursAt(s, b, i + |a| + |mid|)
    ensures OccursAt(s, a + mid + b, i)
  {
    var j, m := i + |a|, i + |a| + |mid|;
    assert s[i..m + |b|] == s[i..j] + s[j..m] + s[m..m + |b|];
  }

  /** `target_param(.*?)measfile`: the text between `target_param` at `i` and the
      first `measfile` after it, provided no line break lies between them. */
  function TargetSectionAt(s: string, i: nat): (r: Option<string>)
    ensures r.Some? ==> OccursAt(s, "target_param", i) && '\n' !in r.value
    ensures r.Some? ==> OccursAt(s, "target_param" + r.value + "measfile", i)
    ensures r.Some? ==> !Contains(r.value, "measfile")
  {
    if !OccursAt(s, "target_param", i) then None
    else
      var j := i + 12;
      match FindFrom(s, "measfile", j)
      case None => None
      case Some(m) =>
        var section := s[j..m];
        if '\n' in section then None
        else
          OccursConcat(s, "target_param", section, "measfile", i);
          BeforeFirstOccurrence(s, "measfile", j, m);
          Some(section)
  }

  /** `variable (\w+) string (V+)` where `V` is the class of the value. */
  function VariableAt(s: string, i: nat, V: char -> bool): Option<(string, string)> {
    match LitRun(s, i, "variable ", IsWordChar)
    case None => None
    case Some(p1) =>
      match LitRun(s, p1.1, " string ", V)
      case None => None
      case Some(p2) => Some((p1.0, p2.0))
  }

  /** The groups of `param_calibration`: name, type, init, min, max. */
  datatype CalibrationGroups = CalibrationGroups(name: string, kind: string, init: string, min: string, max: string)

  /** `param_calibration (\w+) type (\w+) init ([\d.e+-]+) min ([\d.e+-]+) max ([\d.e+-]+)`. */
  function ParamCalibrationAt(s: string, i: nat): Option<CalibrationGroups> {
    match LitRun(s, i, "param_calibration ", IsWordChar)
    case None => None
    case Some(a) =>
      match LitRun(s, a.1, " type ", IsWordChar)
      case None => None
      case Some(b) =>
        match LitRun(s, b.1, " init ", IsNumChar)
        case None => None
        case Some(c) =>
          match LitRun(s, c.1, " min ", IsNumChar)
          case None => None
          case Some(d) =>
            match LitRun(s, d.1, " max ", IsNumChar)
            case None => None
            case Some(e) => Some(CalibrationGroups(a.0, b.0, c.0, d.0, e.0))
  }

  /** `attempting to (run|restart) `. */
  function AttemptAt(s: string, i: nat): (r: Option<string>)
    ensures r.Some? ==> (r.value == "run" || r.value == "restart") && OccursAt(s, "attempting to " + r.value + " ", i)
  {
    if OccursAt(s, "attempting to run ", i) then Some("run")
    else if OccursAt(s, "attempting to restart ", i) then Some("restart")
    else None
  }

  /** `lit(.+)`: the rest of the line after `lit`, which must not be empty. */
  function RestOfLineAt(s: string, i: nat, lit: string): Option<string> {
    match LitRun(s, i, lit, NotNewline)
    case None => None
    case Some(p) => Some(p.0)
  }

  const VersionBanner := "This is Aspherix(R)calibration version "

  // ---------------------------------------------------------------------
  // First matches in a line (`re.search`)

  function RunMode(line: string): Option<string> { Groups(Search(line, 0, k => RunModeAt(line, k))) }

  function Template(line: string): Option<string> { Groups(Search(line, 0, k => TemplateAt(line, k))) }

  function TargetSection(line: string): Option<string> { Groups(Search(line, 0, k => TargetSectionAt(line, k))) }

  /** `variable (\w+) string (\S+)`. */
  function ModelVariable(line: string): Option<(string, string)> {
    Groups(Search(line, 0, k => VariableAt(line, k, NotSpace)))
  }

  /** `variable (\w+) string ([\d.e+-]+)`. */
  function NumericVariable(line: string): Option<(string, string)> {
    Groups(Search(line, 0, k => VariableAt(line, k, IsNumChar)))
  }

  function ParamCalibration(line: string): Option<CalibrationGroups> {
    Groups(Search(line, 0, k => ParamCalibrationAt(line, k)))
  }

  function Attempt(line: string): Option<string> { Groups(Search(line, 0, k => AttemptAt(line, k))) }

  function GitCommit(line: string): Option<string> { Groups(Search(line, 0, k => RestOfLineAt(line, k, "git commit "))) }

  function Version(line: string): Option<string> { Groups(Search(line, 0, k => RestOfLineAt(line, k, VersionBanner))) }
}
