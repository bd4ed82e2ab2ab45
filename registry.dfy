/** The metadata warehouse registry (OWMetaDataRegistry.py:150-236). The
    warehouse directory is a map from file name to the JSON record stored
    there; the user's answers to the two dialogs are parameters. */
module Registry {
  import opened Base
  import opened Text
  import opened Dicts
  import opened Json
  import opened MetaInfo
  import opened ReadAspherixWidget

  /** `is_valid_json_data`: the three keys in `json_data.get("meta_info", {})`. */
  function IsValidJsonData(data: Json): (r: Result<bool>)
    ensures !data.JObj? ==> r == Failure(AttributeError)
    ensures data.JObj? && "meta_info" !in Keys(data.entries) ==> r == Success(false)
    ensures data.JObj? && Get(data.entries, "meta_info").Some? && Get(data.entries, "meta_info").value.JObj? ==>
      var meta := Get(data.entries, "meta_info").value.entries;
      r == Success("version" in Keys(meta) && "doi" in Keys(meta) && "Archived time" in Keys(meta))
  {
    var meta :- PyGet(data, "meta_info", JObj([]));
    HasRequiredKeys(meta)
  }

  /** On a dictionary the registry's check and the calibration widget's
      `validate_json_structure` agree, although one uses `.get` with a default
      and the other an `in` test. */
  lemma ValidationsAgree(data: Json)
    requires data.JObj?
    ensures IsValidJsonData(data) == ValidateJsonStructure(data)
  {
  }

  /** `generate_file_name_from_json_data`: the doi's text before the first `-`,
      a `-`, at most 8 characters of the text after it, and `.json`. */
  function FileNameFromJsonData(data: Json): (r: Result<string>)
    ensures r.Success? ==> EndsWith(r.value, ".json")
  {
    var meta :- PyIndex(data, "meta_info");
    var doi :- PyIndex(meta, "doi");
    if !doi.JStr? then Failure(AttributeError)
    else
      var parts := Split(doi.s, '-');
      if |parts| < 2 then Failure(IndexError)
      else
        var name := parts[0] + "-" + Take(parts[1], 8) + ".json";
        assert name[|name| - 5..] == ".json";
        Success(name)
  }

  /** The record whose `meta_info` holds `doi`. */
  function RecordWithDoi(doi: string): Json {
    JObj([("meta_info", JObj([("doi", JStr(doi))]))])
  }

  /** A doi without `-` makes `split('-')[1]` raise; with one, the name is its
      first group, a `-`, and the next group cut to 8 characters. */
  lemma FileNameOfDoi(doi: string)
    ensures FileNameFromJsonData(RecordWithDoi(doi)).Success? <==> '-' in doi
    ensures '-' !in doi ==> FileNameFromJsonData(RecordWithDoi(doi)) == Failure(IndexError)
    ensures '-' in doi ==> (FileNameFromJsonData(RecordWithDoi(doi)) ==
      Success(Split(doi, '-')[0] + "-" + Take(Split(doi, '-')[1], 8) + ".json"))
  {
    var d := RecordWithDoi(doi);
    assert PyIndex(d, "meta_info") == Success(JObj([("doi", JStr(doi))]));
    assert PyIndex(JObj([("doi", JStr(doi))]), "doi") == Success(JStr(doi));
  }

  // ---------------------------------------------------------------------
  // The decisions, as a function of the warehouse before the click

  datatype Outcome =
    | NoDirectory        // "Please choose the Metadata Warehouse Directory…"
    | NoData             // "Metadata JSON file was not found!"
    | InvalidData        // "Invalid JSON metadata."
    | Registered         // a new name was written
    | NewVersionStored   // the old record moved to `.bak`, the new one stored
    | NewVersionDeclined // the user answered No
    | Overwritten        // the user chose Overwrite
    | OverwriteAborted   // the user chose Abort

  /** The outcome and the warehouse afterwards. */
  datatype Registration = Registration(outcome: Result<Outcome>, files: map<string, Json>)

  function BackupName(name: string): string { name + ".bak" }

  /** `prompt_for_new_version_registration`. */
  function NewVersionOf(files: map<string, Json>, name: string, data: Json, accept: bool): Registration
    requires name in files
  {
    if accept then Registration(Success(NewVersionStored), files[BackupName(name) := files[name]][name := data])
    else Registration(Success(NewVersionDeclined), files)
  }

  /** `prompt_for_forced_overwrite`. */
  function ForcedOverwriteOf(files: map<string, Json>, name: string, data: Json, overwrite: bool): Registration {
    if overwrite then Registration(Success(Overwritten), files[name := data])
    else Registration(Success(OverwriteAborted), files)
  }

  /** The version of a record: `record["meta_info"]["version"]`. */
  function VersionOf(record: Json): Result<Json> {
    var meta :- PyIndex(record, "meta_info");
    PyIndex(meta, "version")
  }

  /** `handle_existing_file`: a strictly greater version asks for a new version,
      anything else for a forced overwrite. */
  function HandleExistingOf(files: map<string, Json>, name: string, data: Json, accept: bool, overwrite: bool): Registration
    requires name in files
  {
    match VersionOf(data)
    case Failure(e) => Registration(Failure(e), files)
    case Success(newVersion) =>
      match VersionOf(files[name])
      case Failure(e) => Registration(Failure(e), files)
      case Success(oldVersion) =>
        match PyGreater(newVersion, oldVersion)
        case Failure(e) => Registration(Failure(e), files)
        case Success(greater) =>
          if greater then NewVersionOf(files, name, data, accept) else ForcedOverwriteOf(files, name, data, overwrite)
  }

  /** `register_metadata`; `data` is what `get_json_data` returned (`JNull` for `None`). */
  function RegisterOf(files: map<string, Json>, directorySet: bool, data: Json, accept: bool, overwrite: bool): Registration {
    if !directorySet then Registration(Success(NoDirectory), files)
    else if !Truthy(data) then Registration(Success(NoData), files)
    else
      match IsValidJsonData(data)
      case Failure(e) => Registration(Failure(e), files)
      case Success(valid) =>
        if !valid then Registration(Success(InvalidData), files)
        else
          match FileNameFromJsonData(data)
          case Failure(e) => Registration(Failure(e), files)
          case Success(name) =>
            if name in files then HandleExistingOf(files, name, data, accept, overwrite)
            else Registration(Success(Registered), files[name := data])
  }

  // ---------------------------------------------------------------------
  // The widget

  class Warehouse {
    var files: map<string, Json>

    constructor (contents: map<string, Json>)
      ensures files == contents
    {
      files := contents;
    }

    method RegisterMetadata(directorySet: bool, data: Json, accept: bool, overwrite: bool) returns (outcome: Result<Outcome>)
      modifies this
      ensures Registration(outcome, files) == RegisterOf(old(files), directorySet, data, accept, overwrite)
    {
      if !directorySet {
        return Success(NoDirectory);
      }
      if !Truthy(data) {
        return Success(NoData);
      }
      var valid := IsValidJsonData(data);
      if valid.Failure? {
        return Failure(valid.error);
      }
      if !valid.value {
        return Success(InvalidData);
      }
      var name := FileNameFromJsonData(data);
      if name.Failure? {
        return Failure(name.error);
      }
      if name.value in files {
        outcome := HandleExistingFile(name.value, data, accept, overwrite);
      } else {
        files := files[name.value := data];
        outcome := Success(Registered);
      }
    }

    method HandleExistingFile(name: string, data: Json, accept: bool, overwrite: bool) returns (outcome: Result<Outcome>)
      requires name in files
      modifies this
      ensures Registration(outcome, files) == HandleExistingOf(old(files), name, data, accept, overwrite)
    {
      var existing := files[name];
      var newVersion := VersionOf(data);
      if newVersion.Failure? {
        return Failure(newVersion.error);
      }
      var oldVersion := VersionOf(existing);
      if oldVersion.Failure? {
        return Failure(oldVersion.error);
      }
      var greater := PyGreater(newVersion.value, oldVersion.value);
      if greater.Failure? {
        return Failure(greater.error);
      }
      if greater.value {
        outcome := PromptForNewVersionRegistration(name, data, accept);
      } else {
        outcome := PromptForForcedOverwrite(name, data, overwrite);
      }
    }

    method PromptForNewVersionRegistration(name: string, data: Json, accept: bool) returns (outcome: Result<Outcome>)
      requires name in files
      modifies this
      ensures Registration(outcome, files) == NewVersionOf(old(files), name, data, accept)
    {
      if !accept {
        return Success(NewVersionDeclined);
      }
      var backup := BackupName(name);
      assert backup != name by {
        assert |backup| == |name| + 4;
      }
      if backup in files {
        files := map k | k in files && k != backup :: files[k];
      }
      assert files[name] == old(files)[name];
      files := files[backup := files[name]];
      assert files == old(files)[backup := old(files)[name]];
      files := files - {name};
      files := files[name := data];
      outcome := Success(NewVersionStored);
    }

    method PromptForForcedOverwrite(name: string, data: Json, overwrite: bool) returns (outcome: Result<Outcome>)
      modifies this
      ensures Registration(outcome, files) == ForcedOverwriteOf(old(files), name, data, overwrite)
    {
      if overwrite {
        files := files[name := data];
        outcome := Success(Overwritten);
      } else {
        outcome := Success(OverwriteAborted);
      }
    }
  }

  // ---------------------------------------------------------------------
  // What a registration does to the warehouse

  /** The outcomes that write nothing. */
  predicate Unwritten(r: Registration) {
    r.outcome.Failure? || r.outcome.value in {NoDirectory, NoData, InvalidData, NewVersionDeclined, OverwriteAborted}
  }

  /** Handling an existing name either writes nothing or stores the record under that name. */
  lemma HandleExistingWrites(files: map<string, Json>, name: string, data: Json, accept: bool, overwrite: bool)
    requires name in files
    ensures var r := HandleExistingOf(files, name, data, accept, overwrite);
      (Unwritten(r) ==> r.files == files) && (!Unwritten(r) ==> name in r.files && r.files[name] == data)
  {
    var nv, ov := VersionOf(data), VersionOf(files[name]);
    if nv.Success? && ov.Success? && PyGreater(nv.value, ov.value).Success? {
      if PyGreater(nv.value, ov.value).value {
        var r := NewVersionOf(files, name, data, accept);
        assert HandleExistingOf(files, name, data, accept, overwrite) == r;
      } else {
        var r := ForcedOverwriteOf(files, name, data, overwrite);
        assert HandleExistingOf(files, name, data, accept, overwrite) == r;
      }
    }
  }

  /** Without a directory, without data, with invalid data, on an error or when
      the user declines, nothing is written; otherwise the record is stored
      under the name its doi gives. */
  lemma NothingWrittenUnlessAccepted(files: map<string, Json>, directorySet: bool, data: Json, accept: bool, overwrite: bool)
    ensures var r := RegisterOf(files, directorySet, data, accept, overwrite);
      Unwritten(r) ==> r.files == files
    ensures var r := RegisterOf(files, directorySet, data, accept, overwrite);
      !Unwritten(r)
      ==> (directorySet && Truthy(data) && IsValidJsonData(data) == Success(true) && FileNameFromJsonData(data).Success?
           && FileNameFromJsonData(data).value in r.files && r.files[FileNameFromJsonData(data).value] == data)
  {
    var r := RegisterOf(files, directorySet, data, accept, overwrite);
    if directorySet && Truthy(data) && IsValidJsonData(data) == Success(true) && FileNameFromJsonData(data).Success? {
      var name := FileNameFromJsonData(data).value;
      if name in files {
        assert r == HandleExistingOf(files, name, data, accept, overwrite);
        HandleExistingWrites(files, name, data, accept, overwrite);
      } else {
        assert r == Registration(Success(Registered), files[name := data]);
      }
    } else {
      assert Unwritten(r) && r.files == files;
    }
  }

  /** The checks before any name is computed, in the order `register_metadata` makes them. */
  lemma EarlyExits(files: map<string, Json>, directorySet: bool, data: Json, accept: bool, overwrite: bool)
    ensures !directorySet ==> RegisterOf(files, directorySet, data, accept, overwrite) == Registration(Success(NoDirectory), files)
    ensures directorySet && !Truthy(data) ==> RegisterOf(files, directorySet, data, accept, overwrite) == Registration(Success(NoData), files)
    ensures directorySet && Truthy(data) && IsValidJsonData(data) == Success(false) ==>
      RegisterOf(files, directorySet, data, accept, overwrite) == Registration(Success(InvalidData), files)
  {
  }

  /** A name not yet in the warehouse is written, and no other entry changes. */
  lemma AbsentNameWritten(files: map<string, Json>, data: Json, accept: bool, overwrite: bool)
    requires Truthy(data) && IsValidJsonData(data) == Success(true) && FileNameFromJsonData(data).Success?
    requires FileNameFromJsonData(data).value !in files
    ensures var name := FileNameFromJsonData(data).value;
      RegisterOf(files, true, data, accept, overwrite) == Registration(Success(Registered), files[name := data])
  {
  }

  /** A strictly newer version: Yes moves the old record to `<name>.bak`, replacing
      any earlier backup, and stores the new one; No changes nothing. */
  lemma NewerVersion(files: map<string, Json>, name: string, data: Json, accept: bool, overwrite: bool)
    requires name in files
    requires VersionOf(data).Success? && VersionOf(files[name]).Success?
    requires PyGreater(VersionOf(data).value, VersionOf(files[name]).value) == Success(true)
    ensures var r := HandleExistingOf(files, name, data, accept, overwrite);
      if accept then
        r.outcome == Success(NewVersionStored) && r.files.Keys == files.Keys + {BackupName(name)}
        && r.files[name] == data && r.files[BackupName(name)] == files[name]
        && forall k :: k in files && k != name && k != BackupName(name) ==> r.files[k] == files[k]
      else r == Registration(Success(NewVersionDeclined), files)
  {
    assert HandleExistingOf(files, name, data, accept, overwrite) == NewVersionOf(files, name, data, accept);
    NewVersionStores(files, name, data, accept);
  }

  /** What `prompt_for_new_version_registration` leaves in the warehouse. */
  lemma NewVersionStores(files: map<string, Json>, name: string, data: Json, accept: bool)
    requires name in files
    ensures var r := NewVersionOf(files, name, data, accept);
      if accept then
        r.outcome == Success(NewVersionStored) && r.files.Keys == files.Keys + {BackupName(name)}
        && r.files[name] == data && r.files[BackupName(name)] == files[name]
        && forall k :: k in files && k != name && k != BackupName(name) ==> r.files[k] == files[k]
      else r == Registration(Success(NewVersionDeclined), files)
  {
    assert BackupName(name) != name by {
      assert |BackupName(name)| == |name| + 4;
    }
  }

  /** The same or an older version: Overwrite replaces `<name>` and creates no
      backup; Abort changes nothing. */
  lemma SameOrOlderVersion(files: map<string, Json>, name: string, data: Json, accept: bool, overwrite: bool)
    requires name in files
    requires VersionOf(data).Success? && VersionOf(files[name]).Success?
    requires PyGreater(VersionOf(data).value, VersionOf(files[name]).value) == Success(false)
    ensures var r := HandleExistingOf(files, name, data, accept, overwrite);
      if overwrite then r == Registration(Success(Overwritten), files[name := data]) && r.files.Keys == files.Keys
      else r == Registration(Success(OverwriteAborted), files)
  {
  }

  /** Handling an existing name changes at most that name and its backup. */
  lemma HandleExistingFrame(files: map<string, Json>, name: string, data: Json, accept: bool, overwrite: bool, k: string)
    requires name in files && k != name && k != BackupName(name)
    ensures var r := HandleExistingOf(files, name, data, accept, overwrite);
      (k in r.files <==> k in files) && (k in files ==> r.files[k] == files[k])
  {
    var nv, ov := VersionOf(data), VersionOf(files[name]);
    if nv.Success? && ov.Success? && PyGreater(nv.value, ov.value).Success? {
      if PyGreater(nv.value, ov.value).value {
        assert HandleExistingOf(files, name, data, accept, overwrite) == NewVersionOf(files, name, data, accept);
      } else {
        assert HandleExistingOf(files, name, data, accept, overwrite) == ForcedOverwriteOf(files, name, data, overwrite);
      }
    }
  }

  /** Whatever happens, at most `<name>` and `<name>.bak` change. */
  lemma RegisterFrame(files: map<string, Json>, directorySet: bool, data: Json, accept: bool, overwrite: bool, k: string)
    requires FileNameFromJsonData(data).Success? ==>
      k != FileNameFromJsonData(data).value && k != BackupName(FileNameFromJsonData(data).value)
    ensures var r := RegisterOf(files, directorySet, data, accept, overwrite);
      (k in r.files <==> k in files) && (k in files ==> r.files[k] == files[k])
  {
    var r := RegisterOf(files, directorySet, data, accept, overwrite);
    if directorySet && Truthy(data) && IsValidJsonData(data) == Success(true) && FileNameFromJsonData(data).Success? {
      var name := FileNameFromJsonData(data).value;
      if name in files {
        assert r == HandleExistingOf(files, name, data, accept, overwrite);
        HandleExistingFrame(files, name, data, accept, overwrite, k);
      } else {
        assert r.files == files[name := data];
      }
    } else {
      assert r.files == files;
    }
  }
}
