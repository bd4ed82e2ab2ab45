/** The DOI widget (OWDOIJson.py): it names the connected widget, finds the
    data directory, stamps a `meta_info` record with a doi and a version and
    writes `{"meta_info": …, **input}` next to the data. The file system is a
    map from path to JSON record; the clock and `uuid4()` are parameters. */
module DoiJson {
  import opened Base
  import opened Text
  import opened Dicts
  import opened Json
  import opened Paths
  import Registry

  const ExperimentLabel := "Connected Widget: Experiment"
  const RelationalLabel := "Connected Widget: Relational"
  const ReadAspherixLabel := "Connected Widget: Read Aspherix"
  const NoneLabel := "Connected Widget: None"

  /** `get_widget_indicator`: the first connected-widget name the label mentions. */
  function WidgetIndicator(widgetLabel: string): (r: string)
    ensures r in {"exp", "rel", "calib", ""}
    ensures r == "exp" <==> Contains(widgetLabel, ExperimentLabel)
    ensures r == "" <==> !Contains(widgetLabel, ExperimentLabel) && !Contains(widgetLabel, RelationalLabel) && !Contains(widgetLabel, ReadAspherixLabel)
  {
    if Contains(widgetLabel, ExperimentLabel) then "exp"
    else if Contains(widgetLabel, RelationalLabel) then "rel"
    else if Contains(widgetLabel, ReadAspherixLabel) then "calib"
    else ""
  }

  /** No indicator holds a `/`. */
  lemma IndicatorHasNoSlash(widgetLabel: string)
    ensures '/' !in WidgetIndicator(widgetLabel)
  {
    var r := WidgetIndicator(widgetLabel);
    forall k | 0 <= k < |r| ensures r[k] != '/' {
      if r == "exp" {
        assert r[k] in {'e', 'x', 'p'};
      } else if r == "rel" {
        assert r[k] in {'r', 'e', 'l'};
      } else {
        assert r == "calib";
        assert r[k] in {'c', 'a', 'l', 'i', 'b'};
      }
    }
  }

  /** Every label the widget itself sets names its own indicator. */
  lemma LabelIndicators()
    ensures WidgetIndicator(ExperimentLabel) == "exp"
    ensures WidgetIndicator(RelationalLabel) == "rel"
    ensures WidgetIndicator(ReadAspherixLabel) == "calib"
    ensures WidgetIndicator(NoneLabel) == ""
  {
    assert OccursAt(ExperimentLabel, ExperimentLabel, 0);
    assert OccursAt(RelationalLabel, RelationalLabel, 0);
    assert OccursAt(ReadAspherixLabel, ReadAspherixLabel, 0);
    assert ExperimentLabel[18] == 'E' && RelationalLabel[18] == 'R' && RelationalLabel[20] == 'l';
    assert !OccursAt(RelationalLabel, ExperimentLabel, 0);
    assert ReadAspherixLabel[18] == 'R' && ReadAspherixLabel[19] == 'e' && ReadAspherixLabel[20] == 'a';
    assert !OccursAt(ReadAspherixLabel, ExperimentLabel, 0);
    assert !OccursAt(ReadAspherixLabel, ExperimentLabel, 1);
    assert !OccursAt(ReadAspherixLabel, ExperimentLabel, 2);
    assert !OccursAt(ReadAspherixLabel, ExperimentLabel, 3);
    assert !OccursAt(ReadAspherixLabel, RelationalLabel, 0);
    assert !OccursAt(ReadAspherixLabel, RelationalLabel, 1);
    assert !OccursAt(ReadAspherixLabel, RelationalLabel, 2);
    assert !OccursAt(ReadAspherixLabel, RelationalLabel, 3);
  }

  // ---------------------------------------------------------------------
  // The widget's state and the result of an action

  datatype DoiState = DoiState(
    metaInfo: Dict<Json>,
    isNewVersion: bool,
    widgetLabel: string,               // text of the connected-widget label
    directory: Json,             // `extracted_directory`; the calibration case can put any JSON value here
    indicator: Option<string>,   // `self.widget_indicator`, absent until `extract_directory` runs
    input: Json,                 // `input_json_data`, `None` until data arrives
    files: map<string, Json>)

  /** What an action returned or raised, and the state after it (a raised
      exception keeps the changes made before it). */
  datatype Outcome<T> = Outcome(result: Result<T>, state: DoiState)

  /** `{"meta_info": meta, **input}`: the entries of `input` put one by one into `d`. */
  function Merge(d: Dict<Json>, entries: Dict<Json>): Dict<Json>
    decreases |entries|
  {
    if entries == [] then d else Merge(Put(d, entries[0].0, entries[0].1), entries[1..])
  }

  /** Merging keeps the keys of `d` first, in their order. */
  lemma {:induction false} MergeKeepsOrder(d: Dict<Json>, entries: Dict<Json>)
    ensures |Keys(d)| <= |Keys(Merge(d, entries))|
    ensures Keys(Merge(d, entries))[..|Keys(d)|] == Keys(d)
    decreases |entries|
  {
    if entries != [] {
      var d' := Put(d, entries[0].0, entries[0].1);
      PutKeysPrefix(d, entries[0].0, entries[0].1);
      MergeKeepsOrder(d', entries[1..]);
      PrefixOfPrefix(Keys(d), Keys(d'), Keys(Merge(d', entries[1..])));
    }
  }

  lemma PrefixOfPrefix<T>(a: seq<T>, b: seq<T>, c: seq<T>)
    requires |a| <= |b| <= |c| && b[..|a|] == a && c[..|b|] == b
    ensures c[..|a|] == a
  {
    assert c[..|a|] == c[..|b|][..|a|];
  }

  /** Every key of the entries gets a value; keys of neither keep what `d` has. */
  lemma {:induction false} MergeGet(d: Dict<Json>, entries: Dict<Json>, k: string)
    ensures k in Keys(entries) ==> Get(Merge(d, entries), k).Some?
    ensures k !in Keys(entries) ==> Get(Merge(d, entries), k) == Get(d, k)
    decreases |entries|
  {
    if entries != [] {
      var d' := Put(d, entries[0].0, entries[0].1);
      assert Keys(entries) == [entries[0].0] + Keys(entries[1..]);
      MergeGet(d', entries[1..], k);
    }
  }

  /** A key of a dictionary gets the dictionary's value. */
  lemma {:induction false} MergeTakesInput(d: Dict<Json>, entries: Dict<Json>, k: string)
    requires DistinctKeys(entries) && k in Keys(entries)
    ensures Get(Merge(d, entries), k) == Get(entries, k)
    decreases |entries|
  {
    assert Keys(entries) == [entries[0].0] + Keys(entries[1..]);
    if entries[0].0 == k {
      var d' := Put(d, k, entries[0].1);
      MergeGet(d', entries[1..], k);
    } else {
      MergeTakesInput(Put(d, entries[0].0, entries[0].1), entries[1..], k);
    }
  }

  /** The text `generate_doi` strips from the stored doi on a new version. */
  function StoredUnique(st: DoiState): Result<string> {
    match Get(st.metaInfo, "doi")
    case None => Failure(KeyError)
    case Some(doi) =>
      if !doi.JStr? || st.indicator.None? then Failure(AttributeError)
      else Success(ReplaceFirst(doi.s, st.indicator.value + "-", ""))
  }

  /** The name `generate_doi` writes: indicator, `-`, the first 8 characters of the unique part. */
  function DoiFileName(indicator: string, unique: string): string {
    indicator + "-" + Take(unique, 8) + ".json"
  }

  /** `meta_info.update({"Archived time": now, "doi": doi, "version": meta_info.get("version", 0)})`. */
  function Stamp(meta: Dict<Json>, now: string, doi: string): (r: Dict<Json>)
    ensures Get(r, "Archived time") == Some(JStr(now))
    ensures Get(r, "doi") == Some(JStr(doi))
    ensures Get(r, "version") == Some(Get(meta, "version").GetOr(JInt(0)))
    ensures forall k :: k != "Archived time" && k != "doi" && k != "version" ==> Get(r, k) == Get(meta, k)
  {
    var version := Get(meta, "version").GetOr(JInt(0));
    var m1 := Put(meta, "Archived time", JStr(now));
    var m2 := Put(m1, "doi", JStr(doi));
    assert |"doi"| != |"version"| && |"doi"| != |"Archived time"| && |"version"| != |"Archived time"|;
    Put(m2, "version", version)
  }

  /** The part of `generate_doi` after the unique text is chosen. After the
      write, `refresh_directory_info` lists the directory's records; when that
      raises, the file stays written and the flag keeps its value. */
  function StampAndWrite(st: DoiState, unique: string, now: string): Outcome<Option<string>> {
    var ind := WidgetIndicator(st.widgetLabel);
    var meta := Stamp(st.metaInfo, now, ind + "-" + unique);
    var stamped := st.(metaInfo := meta);
    if !st.input.JObj? then Outcome(Failure(TypeError), stamped)
    else
      var combined := Merge([("meta_info", JObj(meta))], st.input.entries);
      if !st.directory.JStr? then Outcome(Failure(TypeError), stamped)
      else
        var path := PathJoin(st.directory.s, DoiFileName(ind, unique));
        var written := stamped.(files := st.files[path := JObj(combined)]);
        match CheckExistingJsonFiles(written)
        case Failure(e) => Outcome(Failure(e), written)
        case Success(_) => Outcome(Success(Some(path)), written.(isNewVersion := false))
  }

  /** `generate_doi`, with the clock's text and a fresh uuid as inputs. */
  function GenerateDoiOf(st: DoiState, now: string, uuid: string): Outcome<Option<string>> {
    if !st.isNewVersion then StampAndWrite(st.(metaInfo := Put(st.metaInfo, "version", JInt(0))), uuid, now)
    else
      match StoredUnique(st)
      case Failure(e) => Outcome(Failure(e), st)
      case Success(u) => StampAndWrite(st, u, now)
  }

  /** The old version and uuid of a stored record. */
  function OldVersionAndUuid(data: Json, indicator: Option<string>): Result<(Json, string)> {
    var version :- Registry.VersionOf(data);
    var meta :- PyIndex(data, "meta_info");
    var doi :- PyIndex(meta, "doi");
    if !doi.JStr? || indicator.None? then Failure(AttributeError)
    else Success((version, ReplaceFirst(doi.s, indicator.value + "-", "")))
  }

  function BackupPath(path: string, version: Json): string { path + ".v" + Str(version) + ".bak" }

  /** `submit_new_version` for the file chosen in the combo box. */
  function SubmitNewVersionOf(st: DoiState, selected: string, now: string, uuid: string): Outcome<Option<string>> {
    var st0 := st.(isNewVersion := true);
    if !st.directory.JStr? then Outcome(Failure(TypeError), st0)
    else
      var path := PathJoin(st.directory.s, selected);
      if path !in st.files then Outcome(Success(None), st0)
      else
        var data := st.files[path];
        match OldVersionAndUuid(data, st.indicator)
        case Failure(e) => Outcome(Failure(e), st0)
        case Success(prev) =>
          // after the rename the version goes up by one, the old uuid is kept
          // and `generate_doi` runs on the new-version path
          BumpVersion(st0.(files := (st.files - {path})[BackupPath(path, prev.0) := data]), prev.0, prev.1, now, uuid)
  }

  /** After the rename: the version goes up by one, the old uuid is kept and
      `generate_doi` runs on the new-version path. */
  function BumpVersion(st: DoiState, version: Json, uuidKept: string, now: string, uuid: string): Outcome<Option<string>>
    requires st.indicator.Some?
  {
    match PyAddOne(version)
    case Failure(e) => Outcome(Failure(e), st)
    case Success(next) => GenerateDoiOf(WithVersion(st, next, uuidKept), now, uuid)
  }

  /** `meta_info["version"] = next` and `meta_info["doi"] = f"{widget_indicator}-{uuid}"`. */
  function WithVersion(st: DoiState, next: Json, uuidKept: string): DoiState
    requires st.indicator.Some?
  {
    st.(metaInfo := Put(Put(st.metaInfo, "version", next), "doi", JStr(st.indicator.value + "-" + uuidKept)))
  }

  /** `extract_directory`, given what `json.loads` made of the text. */
  function ExtractDirectoryOf(st: DoiState, data: Json): Outcome<Json> {
    match PyIn("Data Info", data)
    case Failure(e) => Outcome(Failure(e), st)
    case Success(isExperiment) =>
      if isExperiment then FromFilePath(st, data, "Data Info", "File location/Links", "exp", ExperimentLabel)
      else
        match PyIn("Correlation Info", data)
        case Failure(e) => Outcome(Failure(e), st)
        case Success(isRelational) =>
          if isRelational then FromFilePath(st, data, "Correlation Info", "Python file path", "rel", RelationalLabel)
          else
            match PyIn("Calibration Case", data)
            case Failure(e) => Outcome(Failure(e), st)
            case Success(isCalibration) =>
              if isCalibration then FromCalibrationCase(st, data)
              else Outcome(Success(JStr("")), st.(widgetLabel := NoneLabel, directory := JStr(""), indicator := Some("")))
  }

  /** The Read Aspherix branch: the directory is stored as given. */
  function FromCalibrationCase(st: DoiState, data: Json): Outcome<Json> {
    match PyIndex(data, "Calibration Case")
    case Failure(e) => Outcome(Failure(e), st)
    case Success(section) =>
      match PyGet(section, "Local Directory", JStr(""))
      case Failure(e) => Outcome(Failure(e), st)
      case Success(dir) => Outcome(Success(dir), st.(widgetLabel := ReadAspherixLabel, directory := dir, indicator := Some("calib")))
  }

  /** The Experiment and Relational branches: the directory of a file path. */
  function FromFilePath(st: DoiState, data: Json, section: string, field: string, ind: string, widgetLabel: string): Outcome<Json> {
    match PyIndex(data, section)
    case Failure(e) => Outcome(Failure(e), st)
    case Success(s) =>
      match PyGet(s, field, JStr(""))
      case Failure(e) => Outcome(Failure(e), st)
      case Success(path) =>
        if !path.JStr? then Outcome(Failure(TypeError), st)
        else
          var dir := JStr(Dirname(path.s));
          Outcome(Success(dir), st.(widgetLabel := widgetLabel, directory := dir, indicator := Some(ind)))
  }

  /** `check_existing_json_files`: the paths matching `<directory>/<indicator>-*.json`. */
  predicate Listed(directory: string, indicator: string, p: string) {
    var pre := DirPrefix(directory);
    StartsWith(p, pre) && '/' !in p[|pre|..]
    && StartsWith(p[|pre|..], indicator + "-") && EndsWith(p[|pre|..], ".json")
    && |p| - |pre| >= |indicator| + 6
  }

  function CheckExistingJsonFiles(st: DoiState): (r: Result<set<string>>)
    ensures r.Success? ==> r.value <= st.files.Keys
  {
    if !st.directory.JStr? then Failure(TypeError)
    else if st.indicator.None? then Failure(AttributeError)
    else Success(set p | p in st.files.Keys && Listed(st.directory.s, st.indicator.value, p))
  }

  /** `set_input_data`: empty text only resets the widgetLabel; otherwise the
      directory is extracted and `refresh_directory_info` lists its records,
      which raises for a directory that is not a text. */
  function SetInputDataOf(st: DoiState, text: string, parsed: Json): Outcome<Json> {
    if text == "" then Outcome(Success(JNull), st.(widgetLabel := NoneLabel))
    else
      var o := ExtractDirectoryOf(st.(input := parsed), parsed);
      if o.result.Failure? then o
      else
        match CheckExistingJsonFiles(o.state)
        case Failure(e) => Outcome(Failure(e), o.state)
        case Success(_) => o
  }

  // ---------------------------------------------------------------------
  // The widget

  class DoiWidget {
    var metaInfo: Dict<Json>
    var isNewVersion: bool
    var widgetLabel: string
    var directory: Json
    var indicator: Option<string>
    var input: Json
    var files: map<string, Json>

    function State(): DoiState
      reads this
    {
      DoiState(metaInfo, isNewVersion, widgetLabel, directory, indicator, input, files)
    }

    method Assign(st: DoiState)
      modifies this
      ensures State() == st
    {
      metaInfo, isNewVersion, widgetLabel, directory := st.metaInfo, st.isNewVersion, st.widgetLabel, st.directory;
      indicator, input, files := st.indicator, st.input, st.files;
    }

    /** A freshly placed widget over `files`, with the saved directory setting. */
    constructor (savedDirectory: string, contents: map<string, Json>)
      ensures State() == DoiState([], false, NoneLabel, JStr(savedDirectory), None, JNull, contents)
    {
      metaInfo, isNewVersion, widgetLabel, directory := [], false, NoneLabel, JStr(savedDirectory);
      indicator, input, files := None, JNull, contents;
    }

    method GenerateDoi(now: string, uuid: string) returns (r: Result<Option<string>>)
      modifies this
      ensures Outcome(r, State()) == GenerateDoiOf(old(State()), now, uuid)
    {
      if !isNewVersion {
        metaInfo := Put(metaInfo, "version", JInt(0));
        r := StampAndWriteWith(uuid, now);
      } else {
        var u := StoredUnique(State());
        if u.Failure? {
          return Failure(u.error);
        }
        r := StampAndWriteWith(u.value, now);
      }
    }

    /** The part of `generate_doi` after the unique text is chosen. */
    method StampAndWriteWith(unique: string, now: string) returns (r: Result<Option<string>>)
      modifies this
      ensures Outcome(r, State()) == StampAndWrite(old(State()), unique, now)
    {
      var o := StampAndWrite(State(), unique, now);
      Assign(o.state);
      r := o.result;
    }

    method SubmitNewVersion(selected: string, now: string, uuid: string) returns (r: Result<Option<string>>)
      modifies this
      ensures Outcome(r, State()) == SubmitNewVersionOf(old(State()), selected, now, uuid)
    {
      isNewVersion := true;
      if !directory.JStr? {
        return Failure(TypeError);
      }
      var path := PathJoin(directory.s, selected);
      if path !in files {
        return Success(None);
      }
      var data := files[path];
      var fetched := OldVersionAndUuid(data, indicator);
      if fetched.Failure? {
        return Failure(fetched.error);
      }
      var (oldVersion, oldUuid) := fetched.value;
      files := (files - {path})[BackupPath(path, oldVersion) := data];
      r := BumpAndGenerate(oldVersion, oldUuid, now, uuid);
    }

    /** The version bump after the rename, then `generate_doi`. */
    method BumpAndGenerate(version: Json, uuidKept: string, now: string, uuid: string) returns (r: Result<Option<string>>)
      requires indicator.Some?
      modifies this
      ensures Outcome(r, State()) == BumpVersion(old(State()), version, uuidKept, now, uuid)
    {
      var next := PyAddOne(version);
      if next.Failure? {
        return Failure(next.error);
      }
      ghost var renamed := State();
      metaInfo := Put(metaInfo, "version", next.value);
      metaInfo := Put(metaInfo, "doi", JStr(indicator.value + "-" + uuidKept));
      assert State() == WithVersion(renamed, next.value, uuidKept);
      r := GenerateDoi(now, uuid);
    }

    method ExtractDirectory(data: Json) returns (r: Result<Json>)
      modifies this
      ensures Outcome(r, State()) == ExtractDirectoryOf(old(State()), data)
    {
      var o := ExtractDirectoryOf(State(), data);
      Assign(o.state);
      r := o.result;
    }

    method SetInputData(text: string, parsed: Json) returns (r: Result<Json>)
      modifies this
      ensures Outcome(r, State()) == SetInputDataOf(old(State()), text, parsed)
    {
      if text == "" {
        widgetLabel := NoneLabel;
        return Success(JNull);
      }
      input := parsed;
      r := ExtractDirectory(parsed);
      if r.Success? {
        var listed := CheckExistingJsonFiles(State());
        if listed.Failure? {
          r := Failure(listed.error);
        }
      }
    }
  }

  // ---------------------------------------------------------------------
  // Properties

  /** New data: version 0, the doi is the indicator and the whole uuid, the
      file is named after the first 8 characters, and the flag ends false.
      Before `extract_directory` has set an indicator, the refresh after the
      write raises AttributeError; the file is written all the same. */
  lemma NewDataRecord(st: DoiState, now: string, uuid: string)
    requires !st.isNewVersion && st.input.JObj? && st.directory.JStr?
    ensures var o := GenerateDoiOf(st, now, uuid);
      var ind := WidgetIndicator(st.widgetLabel);
      var path := PathJoin(st.directory.s, ind + "-" + Take(uuid, 8) + ".json");
      o.result == (if st.indicator.Some? then Success(Some(path)) else Failure(AttributeError))
      && Get(o.state.metaInfo, "version") == Some(JInt(0))
      && Get(o.state.metaInfo, "doi") == Some(JStr(ind + "-" + uuid))
      && Get(o.state.metaInfo, "Archived time") == Some(JStr(now))
      && !o.state.isNewVersion
      && o.state.directory == st.directory && o.state.indicator == st.indicator
      && path in o.state.files
      && o.state.files == st.files[path := o.state.files[path]]
  {
    var st0 := st.(metaInfo := Put(st.metaInfo, "version", JInt(0)));
    assert GenerateDoiOf(st, now, uuid) == StampAndWrite(st0, uuid, now);
    assert Get(st0.metaInfo, "version") == Some(JInt(0));
    StampAndWriteFacts(st0, uuid, now);
  }

  /** On a new version the stored version is kept rather than reset. */
  lemma NewVersionKeepsVersion(st: DoiState, now: string, uuid: string)
    requires st.isNewVersion && StoredUnique(st).Success?
    ensures var o := GenerateDoiOf(st, now, uuid);
      Get(o.state.metaInfo, "version") == Some(Get(st.metaInfo, "version").GetOr(JInt(0)))
      && (o.result.Success? ==> !o.state.isNewVersion)
  {
  }

  /** The written record holds every key of the input; "meta_info" comes first
      and is the stamped record unless the input has its own. */
  lemma WrittenRecordShape(st: DoiState, now: string, uuid: string)
    requires GenerateDoiOf(st, now, uuid).result.Success?
    requires DistinctKeys(st.input.entries)
    ensures var o := GenerateDoiOf(st, now, uuid);
      o.result.value.Some? && o.result.value.value in o.state.files
      && o.state.files[o.result.value.value] == JObj(Merge([("meta_info", JObj(o.state.metaInfo))], st.input.entries))
    ensures var o := GenerateDoiOf(st, now, uuid);
      CombinedShape(JObj(o.state.metaInfo), st.input.entries)
  {
    var o := GenerateDoiOf(st, now, uuid);
    var st': DoiState, u: string;
    if !st.isNewVersion {
      st', u := st.(metaInfo := Put(st.metaInfo, "version", JInt(0))), uuid;
    } else {
      st', u := st, StoredUnique(st).value;
    }
    assert o == StampAndWrite(st', u, now);
    CombinedRecord(JObj(o.state.metaInfo), st.input.entries);
  }

  /** The shape of `{"meta_info": meta, **input}`. */
  predicate CombinedShape(meta: Json, entries: Dict<Json>) {
    var rec := Merge([("meta_info", meta)], entries);
    |Keys(rec)| > 0 && Keys(rec)[0] == "meta_info"
    && (forall k :: k in Keys(entries) ==> Get(rec, k) == Get(entries, k))
    && ("meta_info" !in Keys(entries) ==> Get(rec, "meta_info") == Some(meta))
  }

  /** The combined record has "meta_info" first and every key of a dictionary
      input with the input's value; an input "meta_info" wins. */
  lemma CombinedRecord(meta: Json, entries: Dict<Json>)
    requires DistinctKeys(entries)
    ensures CombinedShape(meta, entries)
  {
    var d: Dict<Json> := [("meta_info", meta)];
    var rec := Merge(d, entries);
    assert Keys(d) == ["meta_info"];
    MergeKeepsOrder(d, entries);
    MergeGet(d, entries, "meta_info");
    forall k | k in Keys(entries) ensures Get(rec, k) == Get(entries, k) {
      MergeTakesInput(d, entries, k);
    }
  }

  /** A uuid4 string: 8-4-4-4-12 characters, dashes exactly at 8, 13, 18 and 23. */
  predicate IsUuid(u: string) {
    |u| == 36 && forall k :: 0 <= k < 36 ==> (u[k] == '-' <==> k == 8 || k == 13 || k == 18 || k == 23)
  }

  /** The registry derives the same name from the doi as the one the file was
      written under, for an indicator without `-`. */
  lemma RegistryNameAgrees(ind: string, uuid: string)
    requires '-' !in ind && IsUuid(uuid)
    ensures Registry.FileNameFromJsonData(Registry.RecordWithDoi(ind + "-" + uuid)) == Success(DoiFileName(ind, uuid))
  {
    var doi := ind + "-" + uuid;
    UuidFirstGroup(uuid);
    SplitFirst(ind, '-', uuid);
    assert doi == ind + ['-'] + uuid;
    assert Split(doi, '-')[0] == ind && Split(doi, '-')[1] == uuid[..8];
    assert '-' in doi by { assert doi[|ind|] == '-'; }
    Registry.FileNameOfDoi(doi);
  }

  /** The first piece of a uuid split at `-` is its first 8 characters. */
  lemma UuidFirstGroup(uuid: string)
    requires IsUuid(uuid)
    ensures Take(uuid, 8) == uuid[..8]
    ensures Split(uuid, '-')[0] == uuid[..8] && Take(Split(uuid, '-')[0], 8) == uuid[..8]
  {
    var first, rest := uuid[..8], uuid[9..];
    assert uuid == first + ['-'] + rest;
    assert '-' !in first by {
      forall k | 0 <= k < 8 ensures first[k] != '-' { assert first[k] == uuid[k]; }
    }
    SplitFirst(first, '-', rest);
  }

  /** Renaming to the backup of a new version. */
  lemma NewVersionFlow(st: DoiState, selected: string, now: string, uuid: string, ind: string, v: int, u: string)
    requires st.indicator == Some(ind) && WidgetIndicator(st.widgetLabel) == ind
    requires st.directory.JStr? && st.input.JObj?
    requires PathJoin(st.directory.s, selected) in st.files
    requires Registry.VersionOf(st.files[PathJoin(st.directory.s, selected)]) == Success(JInt(v))
    requires PyIndex(st.files[PathJoin(st.directory.s, selected)], "meta_info").Success?
    requires PyIndex(PyIndex(st.files[PathJoin(st.directory.s, selected)], "meta_info").value, "doi") == Success(JStr(ind + "-" + u))
    ensures var path := PathJoin(st.directory.s, selected);
      var o := SubmitNewVersionOf(st, selected, now, uuid);
      var backup := path + ".v" + IntToString(v) + ".bak";
      var written := PathJoin(st.directory.s, DoiFileName(ind, u));
      o.result == Success(Some(written))
      && written in o.state.files
      && o.state.files == (st.files - {path})[backup := st.files[path]][written := o.state.files[written]]
      && Get(o.state.metaInfo, "version") == Some(JInt(v + 1))
      && Get(o.state.metaInfo, "doi") == Some(JStr(ind + "-" + u))
      && !o.state.isNewVersion
  {
    var path := PathJoin(st.directory.s, selected);
    var renamed := st.(isNewVersion := true, files := (st.files - {path})[BackupPath(path, JInt(v)) := st.files[path]]);
    assert BackupPath(path, JInt(v)) == path + ".v" + IntToString(v) + ".bak";
    NewVersionReachesStamp(st, selected, now, uuid, ind, v, u);
    var st2 := WithVersion(renamed, JInt(v + 1), u);
    WithVersionFacts(renamed, JInt(v + 1), ind, u);
    StampAndWriteFacts(st2, u, now);
    var o := StampAndWrite(st2, u, now);
    var written := PathJoin(st.directory.s, DoiFileName(ind, u));
    assert o.state.files == st2.files[written := o.state.files[written]];
    assert st2.files == renamed.files;
  }

  /** The path `submit_new_version` takes for a stored record with an integer version. */
  lemma NewVersionReachesStamp(st: DoiState, selected: string, now: string, uuid: string, ind: string, v: int, u: string)
    requires st.indicator == Some(ind)
    requires st.directory.JStr? && PathJoin(st.directory.s, selected) in st.files
    requires Registry.VersionOf(st.files[PathJoin(st.directory.s, selected)]) == Success(JInt(v))
    requires PyIndex(st.files[PathJoin(st.directory.s, selected)], "meta_info").Success?
    requires PyIndex(PyIndex(st.files[PathJoin(st.directory.s, selected)], "meta_info").value, "doi") == Success(JStr(ind + "-" + u))
    ensures var path := PathJoin(st.directory.s, selected);
      var renamed := st.(isNewVersion := true, files := (st.files - {path})[BackupPath(path, JInt(v)) := st.files[path]]);
      SubmitNewVersionOf(st, selected, now, uuid) == StampAndWrite(WithVersion(renamed, JInt(v + 1), u), u, now)
  {
    var path := PathJoin(st.directory.s, selected);
    DropPrefix(ind + "-", u);
    assert OldVersionAndUuid(st.files[path], st.indicator) == Success((JInt(v), u));
    SubmitReachesBump(st, selected, now, uuid, JInt(v), u);
    var renamed := st.(isNewVersion := true, files := (st.files - {path})[BackupPath(path, JInt(v)) := st.files[path]]);
    BumpIntReachesStamp(renamed, ind, v, u, now, uuid);
  }

  /** Bumping an integer version leads to stamping with the kept uuid. */
  lemma BumpIntReachesStamp(st: DoiState, ind: string, v: int, u: string, now: string, uuid: string)
    requires st.indicator == Some(ind) && st.isNewVersion
    ensures BumpVersion(st, JInt(v), u, now, uuid) == StampAndWrite(WithVersion(st, JInt(v + 1), u), u, now)
  {
    var st2 := WithVersion(st, JInt(v + 1), u);
    AddOneInt(v);
    assert BumpVersion(st, JInt(v), u, now, uuid) == GenerateDoiOf(st2, now, uuid);
    WithVersionFacts(st, JInt(v + 1), ind, u);
    assert st2.isNewVersion && StoredUnique(st2) == Success(u);
  }

  /** A stored record that yields its version and uuid leads `submit_new_version`,
      after the rename, to the version bump. */
  lemma SubmitReachesBump(st: DoiState, selected: string, now: string, uuid: string, version: Json, u: string)
    requires st.directory.JStr? && PathJoin(st.directory.s, selected) in st.files
    requires OldVersionAndUuid(st.files[PathJoin(st.directory.s, selected)], st.indicator) == Success((version, u))
    ensures st.indicator.Some?
    ensures var path := PathJoin(st.directory.s, selected);
      var renamed := st.(isNewVersion := true, files := (st.files - {path})[BackupPath(path, version) := st.files[path]]);
      SubmitNewVersionOf(st, selected, now, uuid) == BumpVersion(renamed, version, u, now, uuid)
  {
  }

  /** A version that can be incremented leads to `generate_doi` with the next one. */
  lemma BumpReachesGenerate(st: DoiState, version: Json, u: string, now: string, uuid: string)
    requires st.indicator.Some? && PyAddOne(version).Success?
    ensures BumpVersion(st, version, u, now, uuid) == GenerateDoiOf(WithVersion(st, PyAddOne(version).value, u), now, uuid)
  {
  }

  /** What `submit_new_version` stores before calling `generate_doi`. */
  lemma WithVersionFacts(st: DoiState, next: Json, ind: string, u: string)
    requires st.indicator == Some(ind) && st.isNewVersion
    ensures var st2 := WithVersion(st, next, u);
      st2.isNewVersion && st2.indicator == st.indicator && st2.files == st.files
      && st2.widgetLabel == st.widgetLabel && st2.directory == st.directory && st2.input == st.input
      && Get(st2.metaInfo, "version") == Some(next)
      && Get(st2.metaInfo, "doi") == Some(JStr(ind + "-" + u))
      && StoredUnique(st2) == Success(u)
  {
    var st2 := WithVersion(st, next, u);
    PutTwice(st.metaInfo, "version", next, "doi", JStr(ind + "-" + u));
    StoredUniqueOf(st2, ind, u);
  }

  /** The record after two assignments to different keys. */
  lemma PutTwice(m: Dict<Json>, k1: string, v1: Json, k2: string, v2: Json)
    requires k1 != k2
    ensures Get(Put(Put(m, k1, v1), k2, v2), k1) == Some(v1)
    ensures Get(Put(Put(m, k1, v1), k2, v2), k2) == Some(v2)
  {
  }

  /** The unique part of a doi `<indicator>-<u>`. */
  lemma StoredUniqueOf(st: DoiState, ind: string, u: string)
    requires st.indicator == Some(ind) && Get(st.metaInfo, "doi") == Some(JStr(ind + "-" + u))
    ensures StoredUnique(st) == Success(u)
  {
    DropPrefix(ind + "-", u);
  }

  /** The record `generate_doi` stamps and the file it writes, once the unique
      text is chosen; without an indicator the refresh raises after the write. */
  lemma StampAndWriteFacts(st: DoiState, u: string, now: string)
    requires st.input.JObj? && st.directory.JStr?
    ensures var o := StampAndWrite(st, u, now);
      var ind := WidgetIndicator(st.widgetLabel);
      var written := PathJoin(st.directory.s, DoiFileName(ind, u));
      o.result == (if st.indicator.Some? then Success(Some(written)) else Failure(AttributeError))
      && written in o.state.files
      && o.state.files == st.files[written := o.state.files[written]]
      && Get(o.state.metaInfo, "version") == Some(Get(st.metaInfo, "version").GetOr(JInt(0)))
      && Get(o.state.metaInfo, "doi") == Some(JStr(ind + "-" + u))
      && o.state.isNewVersion == (st.isNewVersion && st.indicator.None?)
  {
  }

  /** Without the selected file, only the flag changes. */
  lemma MissingSelection(st: DoiState, selected: string, now: string, uuid: string)
    requires st.directory.JStr? && PathJoin(st.directory.s, selected) !in st.files
    ensures SubmitNewVersionOf(st, selected, now, uuid) == Outcome(Success(None), st.(isNewVersion := true))
  {
  }

  /** Backups never match `<indicator>-*.json`. */
  lemma BackupsNeverListed(st: DoiState, p: string)
    requires CheckExistingJsonFiles(st).Success? && EndsWith(p, ".bak")
    ensures p !in CheckExistingJsonFiles(st).value
  {
    if |DirPrefix(st.directory.s)| <= |p| {
      JsonIsNotBak(p, |DirPrefix(st.directory.s)|);
    }
  }

  /** A name ending `.json` does not end `.bak`. */
  lemma JsonIsNotBak(p: string, n: nat)
    requires n <= |p|
    ensures !(EndsWith(p, ".bak") && EndsWith(p[n..], ".json"))
  {
    assert EndsWith(p, ".bak") ==> p[|p| - 1] == 'k' by {
      assert EndsWith(p, ".bak") ==> p[|p| - 1] == p[|p| - 4..][3];
    }
    assert EndsWith(p[n..], ".json") ==> p[|p| - 1] == 'n' by {
      assert EndsWith(p[n..], ".json") ==> p[|p| - 1] == p[n..][|p| - n - 5..][4];
    }
  }

  /** The file new data is written to is listed afterwards, for a uuid whose
      first 8 characters hold no `/`. */
  lemma GeneratedFileListed(st: DoiState, now: string, uuid: string)
    requires !st.isNewVersion && st.input.JObj? && st.directory.JStr?
    requires st.indicator == Some(WidgetIndicator(st.widgetLabel))
    requires '/' !in Take(uuid, 8)
    ensures var o := GenerateDoiOf(st, now, uuid);
      CheckExistingJsonFiles(o.state).Success? && o.result.value.value in CheckExistingJsonFiles(o.state).value
  {
    var o := GenerateDoiOf(st, now, uuid);
    var ind := WidgetIndicator(st.widgetLabel);
    var path := PathJoin(st.directory.s, ind + "-" + Take(uuid, 8) + ".json");
    NewDataRecord(st, now, uuid);
    IndicatorHasNoSlash(st.widgetLabel);
    NameListed(st.directory.s, ind, uuid);
    assert o.result.value.value == path && path in o.state.files.Keys;
    assert o.state.directory == st.directory && o.state.indicator == Some(ind);
    assert Listed(o.state.directory.s, o.state.indicator.value, path);
  }

  /** The name `generate_doi` gives a file matches `<directory>/<indicator>-*.json`. */
  lemma NameListed(directory: string, ind: string, uuid: string)
    requires '/' !in ind && '/' !in Take(uuid, 8)
    ensures Listed(directory, ind, PathJoin(directory, ind + "-" + Take(uuid, 8) + ".json"))
  {
    var name := DoiFileName(ind, uuid);
    var pre := DirPrefix(directory);
    assert !StartsWith(name, "/") by {
      assert name[0] != '/';
    }
    var p := pre + name;
    assert p[|pre|..] == name;
    NoSlashInName(ind, Take(uuid, 8));
    assert StartsWith(name, ind + "-");
    assert EndsWith(name, ".json") by {
      assert name[|name| - 5..] == ".json";
    }
  }

  /** A file name built from two parts without `/` has none. */
  lemma NoSlashInName(ind: string, t: string)
    requires '/' !in ind && '/' !in t
    ensures '/' !in ind + "-" + t + ".json"
  {
    var name := ind + "-" + t + ".json";
    forall k | 0 <= k < |name|
      ensures name[k] != '/'
    {
      if k < |ind| {
        assert name[k] == ind[k];
      } else if |ind| < k < |ind| + 1 + |t| {
        assert name[k] == t[k - |ind| - 1];
      }
    }
  }

  /** After `extract_directory` succeeds the label names the indicator it stored. */
  lemma ExtractDirectoryConsistent(st: DoiState, data: Json)
    requires ExtractDirectoryOf(st, data).result.Success?
    ensures var o := ExtractDirectoryOf(st, data);
      o.state.indicator.Some? && WidgetIndicator(o.state.widgetLabel) == o.state.indicator.value
      && o.state.directory == o.result.value
      && o.state.files == st.files && o.state.metaInfo == st.metaInfo
  {
    LabelIndicators();
    ExtractDirectoryShape(st, data);
  }

  /** A successful `extract_directory` stores one of the four widget/indicator pairs,
      the directory it returns, and nothing else. */
  lemma ExtractDirectoryShape(st: DoiState, data: Json)
    ensures var o := ExtractDirectoryOf(st, data);
      o.result.Success? ==>
        o.state == st.(widgetLabel := ExperimentLabel, directory := o.result.value, indicator := Some("exp"))
        || o.state == st.(widgetLabel := RelationalLabel, directory := o.result.value, indicator := Some("rel"))
        || o.state == st.(widgetLabel := ReadAspherixLabel, directory := o.result.value, indicator := Some("calib"))
        || o.state == st.(widgetLabel := NoneLabel, directory := o.result.value, indicator := Some(""))
  {
    if PyIn("Data Info", data) == Success(true) {
      FromFilePathSets(st, data, "Data Info", "File location/Links", "exp", ExperimentLabel);
    } else if PyIn("Correlation Info", data) == Success(true) {
      FromFilePathSets(st, data, "Correlation Info", "Python file path", "rel", RelationalLabel);
    } else if PyIn("Calibration Case", data) == Success(true) {
      FromCalibrationCaseSets(st, data);
    }
  }

  /** A successful file-path branch stores its widget, indicator and directory and nothing else.
      The directory is `os.path.dirname` of the path field; a missing field
      gives "", a path that is not a text raises TypeError, and a section that
      is not a dictionary has no `get`. */
  lemma FromFilePathSets(st: DoiState, data: Json, section: string, field: string, ind: string, widgetLabel: string)
    ensures var o := FromFilePath(st, data, section, field, ind, widgetLabel);
      o.result.Success? ==>
        o.state == st.(widgetLabel := widgetLabel, directory := o.result.value, indicator := Some(ind))
        && o.result.value.JStr?
    ensures data.JObj? && section in Keys(data.entries) ==>
      var o := FromFilePath(st, data, section, field, ind, widgetLabel);
      var s := Get(data.entries, section).value;
      && (!s.JObj? ==> o == Outcome(Failure(AttributeError), st))
      && (s.JObj? && field !in Keys(s.entries) ==> o.result == Success(JStr("")))
      && (s.JObj? && field in Keys(s.entries) ==>
            var path := Get(s.entries, field).value;
            if path.JStr? then o.result == Success(JStr(Dirname(path.s)))
            else o == Outcome(Failure(TypeError), st))
  {
  }

  /** A successful Read Aspherix branch stores its widget, indicator and directory and nothing else.
      The directory is the `Local Directory` value as it stands, whatever its
      type, and "" when the key is missing. */
  lemma FromCalibrationCaseSets(st: DoiState, data: Json)
    ensures var o := FromCalibrationCase(st, data);
      o.result.Success? ==> o.state == st.(widgetLabel := ReadAspherixLabel, directory := o.result.value, indicator := Some("calib"))
    ensures data.JObj? && "Calibration Case" in Keys(data.entries) ==>
      var o := FromCalibrationCase(st, data);
      var s := Get(data.entries, "Calibration Case").value;
      && (!s.JObj? ==> o == Outcome(Failure(AttributeError), st))
      && (s.JObj? && "Local Directory" !in Keys(s.entries) ==> o.result == Success(JStr("")))
      && (s.JObj? && "Local Directory" in Keys(s.entries) ==> o.result == Success(Get(s.entries, "Local Directory").value))
  {
  }

  /** The three sources of the directory, tested in order. */
  lemma ExtractDirectoryCases(st: DoiState, entries: Dict<Json>)
    ensures var o := ExtractDirectoryOf(st, JObj(entries));
      ("Data Info" in Keys(entries) ==> o.state.indicator == Some("exp") || o.result.Failure?)
      && ("Data Info" !in Keys(entries) && "Correlation Info" in Keys(entries) ==> o.state.indicator == Some("rel") || o.result.Failure?)
      && ("Data Info" !in Keys(entries) && "Correlation Info" !in Keys(entries) && "Calibration Case" in Keys(entries) ==>
           o.state.indicator == Some("calib") || o.result.Failure?)
      && ("Data Info" !in Keys(entries) && "Correlation Info" !in Keys(entries) && "Calibration Case" !in Keys(entries) ==>
           o == Outcome(Success(JStr("")), st.(widgetLabel := NoneLabel, directory := JStr(""), indicator := Some(""))))
    ensures var o := ExtractDirectoryOf(st, JObj(entries));
      var exp := Get(entries, "Data Info");
      var rel := Get(entries, "Correlation Info");
      var cal := Get(entries, "Calibration Case");
      && (exp.Some? && exp.value.JObj? && Get(exp.value.entries, "File location/Links").Some?
          && Get(exp.value.entries, "File location/Links").value.JStr? ==>
            o.result == Success(JStr(Dirname(Get(exp.value.entries, "File location/Links").value.s))))
      && (exp.None? && rel.Some? && rel.value.JObj? && Get(rel.value.entries, "Python file path").Some?
          && Get(rel.value.entries, "Python file path").value.JStr? ==>
            o.result == Success(JStr(Dirname(Get(rel.value.entries, "Python file path").value.s))))
      && (exp.None? && rel.None? && cal.Some? && cal.value.JObj? ==>
            o.result == Success(Get(cal.value.entries, "Local Directory").GetOr(JStr(""))))
  {
    var data := JObj(entries);
    if "Data Info" in Keys(entries) {
      FromFilePathSets(st, data, "Data Info", "File location/Links", "exp", ExperimentLabel);
    } else if "Correlation Info" in Keys(entries) {
      FromFilePathSets(st, data, "Correlation Info", "Python file path", "rel", RelationalLabel);
    } else if "Calibration Case" in Keys(entries) {
      FromCalibrationCaseSets(st, data);
    }
  }
  /** `set_input_data` on non-empty text: the state is that of `extract_directory`;
      its exception is raised as it is, and when it succeeds with a directory
      that is not a text, `refresh_directory_info` raises TypeError. */
  lemma SetInputDataRefresh(st: DoiState, text: string, parsed: Json)
    requires text != ""
    ensures var o := SetInputDataOf(st, text, parsed);
      var e := ExtractDirectoryOf(st.(input := parsed), parsed);
      o.state == e.state
      && (e.result.Failure? ==> o.result == e.result)
      && (e.result.Success? && e.result.value.JStr? ==> o.result == e.result)
      && (e.result.Success? && !e.result.value.JStr? ==> o.result == Failure(TypeError))
  {
    var e := ExtractDirectoryOf(st.(input := parsed), parsed);
    if e.result.Success? {
      ExtractDirectoryConsistent(st.(input := parsed), parsed);
    }
  }

  /** A calibration case whose `Local Directory` is `null` raises in the refresh. */
  lemma NullLocalDirectoryRaises(st: DoiState)
    ensures var parsed := JObj([("Calibration Case", JObj([("Local Directory", JNull)]))]);
      var o := SetInputDataOf(st, "{}", parsed);
      o.result == Failure(TypeError) && o.state.directory == JNull && o.state.indicator == Some("calib")
  {
    var parsed := JObj([("Calibration Case", JObj([("Local Directory", JNull)]))]);
    assert Keys(parsed.entries) == ["Calibration Case"];
    assert Keys(parsed.entries[0].1.entries) == ["Local Directory"];
    assert "Data Info" !in Keys(parsed.entries) && "Correlation Info" !in Keys(parsed.entries);
  }
}
