/** The checks and the record the calibration widget builds around the log
    extractor (OWReadAspherix.py): the `meta_info` structure check, the ordered
    error list of `validate_data`, and the calibration-case record. File-system
    tests are parameters. */
module ReadAspherixWidget {
  import opened Base
  import opened Text
  import opened Dicts
  import opened Json
  import opened MetaInfo
  import opened UserInfo

  // ---------------------------------------------------------------------
  // validate_json_structure (OWReadAspherix.py:582-587)

  /** `"meta_info" in data` and the three keys in `data["meta_info"]`. */
  function ValidateJsonStructure(data: Json): (r: Result<bool>)
    ensures data.JObj? && "meta_info" !in Keys(data.entries) ==> r == Success(false)
    ensures data.JObj? && Get(data.entries, "meta_info").Some? && Get(data.entries, "meta_info").value.JObj? ==>
      var meta := Get(data.entries, "meta_info").value.entries;
      r == Success("version" in Keys(meta) && "doi" in Keys(meta) && "Archived time" in Keys(meta))
    ensures !(data.JStr? || data.JArr? || data.JObj?) ==> r == Failure(TypeError)
  {
    var present :- PyIn("meta_info", data);
    if !present then Success(false)
    else
      var meta :- PyIndex(data, "meta_info");
      HasRequiredKeys(meta)
  }

  // ---------------------------------------------------------------------
  // validate_data (OWReadAspherix.py:444-481)

  /** One JSON-reference row: its key, the path typed in, and whether that path is a file. */
  datatype ReferenceEntry = ReferenceEntry(key: string, path: string, isFile: bool)

  predicate ReferenceOk(e: ReferenceEntry) { e.path != "" && e.isFile }

  function ReferenceError(key: string): string {
    "The JSON file path for '" + key + "' is not filled correctly."
  }

  /** The loop over the reference rows, one error per bad row, in row order. */
  function ReferenceErrors(refs: seq<ReferenceEntry>): (r: seq<string>)
    ensures |r| <= |refs|
    ensures r == [] <==> forall k :: 0 <= k < |refs| ==> ReferenceOk(refs[k])
  {
    if refs == [] then []
    else
      var rest := ReferenceErrors(refs[1..]);
      assert (forall k :: 0 <= k < |refs| ==> ReferenceOk(refs[k]))
        <==> ReferenceOk(refs[0]) && forall k :: 0 <= k < |refs[1..]| ==> ReferenceOk(refs[1..][k]) by {
        if forall k :: 0 <= k < |refs[1..]| ==> ReferenceOk(refs[1..][k]) {
          forall k | 1 <= k < |refs| ensures ReferenceOk(refs[k]) == ReferenceOk(refs[1..][k - 1]) { }
        }
      }
      if ReferenceOk(refs[0]) then rest
      else
        [ReferenceError(refs[0].key)] + rest
  }

  const CaseNameError := "Case Name cannot be empty."

  const LogFileError := "The log_aspherix-calibration.txt file was not found in the selected directory."

  const ParamsFileError := "The calibrated_params.txt file was not found in the selected directory."

  function DirectoryError(directory: string): string {
    "The selected directory '" + directory + "' does not exist."
  }

  /** The directory and log-file check: the log file is looked for only in an existing directory. */
  function DirectoryErrors(directory: string, isDir: bool, logIsFile: bool): seq<string> {
    if !isDir then [DirectoryError(directory)] else if !logIsFile then [LogFileError] else []
  }

  /** The error list, in the order the checks run. */
  function ValidateDataOf(userInfo: Dict<string>, caseName: string, directory: string, isDir: bool,
    logIsFile: bool, paramsIsFile: bool, refs: seq<ReferenceEntry>): seq<string>
  {
    UserInfoErrors(userInfo)
    + (if Strip(caseName) == "" then [CaseNameError] else [])
    + DirectoryErrors(directory, isDir, logIsFile)
    + (if !paramsIsFile then [ParamsFileError] else [])
    + ReferenceErrors(refs)
  }

  method ValidateData(userInfo: Dict<string>, caseName: string, directory: string, isDir: bool,
    logIsFile: bool, paramsIsFile: bool, refs: seq<ReferenceEntry>) returns (errors: seq<string>)
    ensures errors == ValidateDataOf(userInfo, caseName, directory, isDir, logIsFile, paramsIsFile, refs)
  {
    errors := UserInfoErrors(userInfo);
    if Strip(caseName) == "" {
      errors := errors + [CaseNameError];
    }
    ghost var upToName := errors;
    assert upToName == UserInfoErrors(userInfo) + (if Strip(caseName) == "" then [CaseNameError] else []);
    if !isDir {
      errors := errors + [DirectoryError(directory)];
    } else if !logIsFile {
      errors := errors + [LogFileError];
    }
    ghost var upToLog := errors;
    assert upToLog == upToName + DirectoryErrors(directory, isDir, logIsFile);
    if !paramsIsFile {
      errors := errors + [ParamsFileError];
    }
    assert errors == upToLog + (if !paramsIsFile then [ParamsFileError] else []);
    errors := CheckReferences(errors, refs);
  }

  /** The loop over the reference rows of `validate_data`, appending to `errors`. */
  method CheckReferences(before: seq<string>, refs: seq<ReferenceEntry>) returns (errors: seq<string>)
    ensures errors == before + ReferenceErrors(refs)
  {
    errors := before;
    var i := 0;
    while i < |refs|
      invariant 0 <= i <= |refs|
      invariant errors == before + ReferenceErrors(refs[..i])
    {
      ReferenceErrorsStep(refs, i);
      if !ReferenceOk(refs[i]) {
        errors := errors + [ReferenceError(refs[i].key)];
      }
      assert errors == before + ReferenceErrors(refs[..i + 1]);
      i := i + 1;
    }
    assert refs[..|refs|] == refs;
  }

  /** Every reference error names a row that fails the check. */
  lemma {:induction false} ReferenceErrorsNameBadRows(refs: seq<ReferenceEntry>)
    ensures forall k :: 0 <= k < |ReferenceErrors(refs)| ==>
      exists e :: e in refs && !ReferenceOk(e) && ReferenceErrors(refs)[k] == ReferenceError(e.key)
  {
    if refs != [] {
      ReferenceErrorsNameBadRows(refs[1..]);
      var rest := ReferenceErrors(refs[1..]);
      var all := ReferenceErrors(refs);
      forall k | 0 <= k < |all| ensures exists e :: e in refs && !ReferenceOk(e) && all[k] == ReferenceError(e.key) {
        if !ReferenceOk(refs[0]) && k == 0 {
          assert all[0] == ReferenceError(refs[0].key);
        } else {
          var j := if ReferenceOk(refs[0]) then k else k - 1;
          assert all[k] == rest[j];
          var e :| e in refs[1..] && !ReferenceOk(e) && rest[j] == ReferenceError(e.key);
          assert e in refs;
        }
      }
    } else {
      assert ReferenceErrors(refs) == [];
    }
  }

  /** One more row of the loop. */
  lemma ReferenceErrorsStep(refs: seq<ReferenceEntry>, i: nat)
    requires i < |refs|
    ensures ReferenceErrors(refs[..i + 1])
      == ReferenceErrors(refs[..i]) + (if ReferenceOk(refs[i]) then [] else [ReferenceError(refs[i].key)])
  {
    assert refs[..i + 1] == refs[..i] + [refs[i]];
    ReferenceErrorsSplit(refs[..i], refs[i]);
  }

  lemma ReferenceErrorsSplit(done: seq<ReferenceEntry>, e: ReferenceEntry)
    ensures ReferenceErrors(done + [e]) == ReferenceErrors(done) + (if ReferenceOk(e) then [] else [ReferenceError(e.key)])
  {
    ReferenceErrorsAppend(done, [e]);
    assert [e][1..] == [];
  }

  lemma {:induction false} ReferenceErrorsAppend(a: seq<ReferenceEntry>, b: seq<ReferenceEntry>)
    ensures ReferenceErrors(a + b) == ReferenceErrors(a) + ReferenceErrors(b)
  {
    if a == [] {
      assert a + b == b;
    } else {
      assert (a + b)[0] == a[0];
      assert (a + b)[1..] == a[1..] + b;
      ReferenceErrorsAppend(a[1..], b);
    }
  }

  /** The data passes exactly when every check does. */
  lemma ValidateDataEmptyIff(userInfo: Dict<string>, caseName: string, directory: string, isDir: bool,
    logIsFile: bool, paramsIsFile: bool, refs: seq<ReferenceEntry>)
    ensures ValidateDataOf(userInfo, caseName, directory, isDir, logIsFile, paramsIsFile, refs) == [] <==>
      userInfo != [] && (forall k :: k in RequiredUserFields ==> !Blank(userInfo, k))
      && Strip(caseName) != "" && isDir && logIsFile && paramsIsFile
      && forall k :: 0 <= k < |refs| ==> ReferenceOk(refs[k])
  {
  }

  /** The empty-case-name error is reported exactly for a blank (whitespace-only) name. */
  lemma CaseNameReported(userInfo: Dict<string>, caseName: string, directory: string, isDir: bool,
    logIsFile: bool, paramsIsFile: bool, refs: seq<ReferenceEntry>)
    ensures CaseNameError in ValidateDataOf(userInfo, caseName, directory, isDir, logIsFile, paramsIsFile, refs)
      <==> forall k :: 0 <= k < |caseName| ==> IsSpace(caseName[k])
  {
    var u := UserInfoErrors(userInfo);
    var d := DirectoryErrors(directory, isDir, logIsFile);
    var refErrs := ReferenceErrors(refs);
    assert CaseNameError !in u by {
      if userInfo != [] && u != [] {
        var m := MissingFieldsPrefix + Join(", ", MissingFields(userInfo, RequiredUserFields));
        assert u == [m];
        assert |m| > |CaseNameError|;
      }
    }
    assert CaseNameError !in d by {
      if !isDir {
        assert |DirectoryError(directory)| > |CaseNameError|;
      }
    }
    assert CaseNameError !in refErrs by {
      ReferenceErrorsNameBadRows(refs);
      forall k | 0 <= k < |refErrs| ensures refErrs[k] != CaseNameError {
        var e :| e in refs && !ReferenceOk(e) && refErrs[k] == ReferenceError(e.key);
        assert |ReferenceError(e.key)| > |CaseNameError|;
      }
    }
    assert CaseNameError != ParamsFileError;
  }

  // ---------------------------------------------------------------------
  // prepare_calibration_case_data (OWReadAspherix.py:643-652)

  /** Python `xs[i]` on a list: negative indices count from the end. */
  function PyListIndex<T>(xs: seq<T>, i: int): (r: Result<T>)
    ensures r.Success? <==> -|xs| <= i < |xs|
    ensures 0 <= i < |xs| ==> r == Success(xs[i])
    ensures -|xs| <= i < 0 ==> r == Success(xs[|xs| + i])
    ensures r.Failure? ==> r.error == IndexError
  {
    if 0 <= i < |xs| then Success(xs[i])
    else if -|xs| <= i < 0 then Success(xs[|xs| + i])
    else Failure(IndexError)
  }

  const CohesivityLabels: seq<string> := ["cohesionless", "cohesive"]

  const FlowStateLabels: seq<string> := ["Quasi-static", "Intermediate", "Rapid"]

  const ConsolidationLabels: seq<string> := ["low", "high"]

  const CaseKeys: seq<string> := ["Case Name", "Cohesivity", "Target Flow State", "Consolidation level",
    "Consolidation Pressure", "Local Directory"]

  /** The calibration-case record; the combo-box indices select the labels. */
  function PrepareCalibrationCaseData(caseName: string, cohesivity: int, flowState: int, consolidation: int,
    pressure: Json, directory: string): (r: Result<Dict<Json>>)
    ensures r.Success? <==> -2 <= cohesivity < 2 && -3 <= flowState < 3 && -2 <= consolidation < 2
    ensures r.Failure? ==> r.error == IndexError
    ensures r.Success? ==> |r.value| == 6 && forall k :: 0 <= k < 6 ==> r.value[k].0 == CaseKeys[k]
    ensures r.Success? ==> r.value[0].1 == JStr(caseName) && r.value[4].1 == pressure && r.value[5].1 == JStr(directory)
    ensures r.Success? ==> (r.value[1].1 == JStr(PyListIndex(CohesivityLabels, cohesivity).value)
      && r.value[2].1 == JStr(PyListIndex(FlowStateLabels, flowState).value)
      && r.value[3].1 == JStr(PyListIndex(ConsolidationLabels, consolidation).value))
  {
    var c :- PyListIndex(CohesivityLabels, cohesivity);
    var f :- PyListIndex(FlowStateLabels, flowState);
    var l :- PyListIndex(ConsolidationLabels, consolidation);
    Success([
      (CaseKeys[0], JStr(caseName)),
      (CaseKeys[1], JStr(c)),
      (CaseKeys[2], JStr(f)),
      (CaseKeys[3], JStr(l)),
      (CaseKeys[4], pressure),
      (CaseKeys[5], JStr(directory))])
  }

  /** The labels the settings' indices stand for; negative indices count from the end. */
  lemma CaseLabels()
    ensures PyListIndex(CohesivityLabels, 0) == Success("cohesionless") && PyListIndex(CohesivityLabels, 1) == Success("cohesive")
    ensures PyListIndex(FlowStateLabels, 0) == Success("Quasi-static") && PyListIndex(FlowStateLabels, 1) == Success("Intermediate")
      && PyListIndex(FlowStateLabels, 2) == Success("Rapid")
    ensures PyListIndex(ConsolidationLabels, 0) == Success("low") && PyListIndex(ConsolidationLabels, 1) == Success("high")
    ensures PyListIndex(CohesivityLabels, -1) == Success("cohesive") && PyListIndex(FlowStateLabels, -1) == Success("Rapid")
  {
  }
}
