# DEMvironment core, modelled in Dafny

DEMvironment is an add-on for the Orange data-mining canvas. It collects
metadata about discrete-element-method (DEM) simulations and experiments, and
files that metadata as JSON records in a warehouse directory. Most of the
repository is Qt widget code. Inside the widgets are self-contained pieces of
plain logic over strings, dictionaries and lists. This project models those
pieces and proves what they do:

- **Calibration-log extractor** (`CalibrationLog`, `LogPatterns`, `PyNumbers`,
  `CalibratedParams`). The log of an Aspherix calibration is scanned from the
  last line to the first, and each line goes through a fixed chain of pattern
  matchers. This yields the software info, templates and target parameters,
  contact models, input parameters (filtered by a model-dependent whitelist),
  PSD lists and calibrated-parameter bounds. `read_calibrated_params` reads the
  `name value` table. Both copies of the extractor (`readAspehrix.py` and the
  widget's own) are one `Step` with a flag for the widget's extras.
- **Calibration widget checks** (`ReadAspherixWidget`, `MetaInfo`, `UserInfo`):
  the `meta_info` structure check, the ordered error messages of
  `validate_data`, and the calibration-case record.
- **Warehouse registry** (`Registry`): registering a record under the file name
  derived from its doi. A record is written, backed up and replaced, or
  overwritten, depending on the version comparison and the user's answers.
- **DOI widget** (`DoiJson`, `Paths`): naming the connected widget, finding the
  data directory, stamping a doi and version, new versions with `.v<n>.bak`
  backups, and listing existing records.
- **Warehouse lookup** (`WarehouseLookup`): per-type counts and key sets of the
  warehouse, the deep key/value search and the top-level search.
- **Dictionary helpers** (`DictHandler`, `Dicts`, `Json`): a dictionary as a
  one-row table and back, and the coloured HTML preview.
- **Form validators** (`Relational`, `UserForm`, `Experiment`): the URL, DOI,
  ISBN and author-list patterns, read over ASCII and proved equal to plain
  descriptions; the e-mail pattern; the ordered error checks; and the filtering
  of the preview records.
- **Recent directories** (`SimulationDirectory`): the bounded, duplicate-free
  list of recent directories, kept in step with the combo box. Also the
  log-file info label, the empty-directory warning and the PSD rows of the
  simulation form. `OWTest.py:67-105` is the same code as
  `OWTest_form.py:135-173`, and the same members model both.

Stateful widgets are classes. Each method's new state is stated through a
specification function of the old state, and the lemmas are about those
functions. Loops are methods whose invariants tie the loop state to the
specification. Regular expressions are hand-written recognisers for the
specific patterns. Each recogniser is proved equal to a direct description of
the texts it accepts.

The file system, `os.path.exists`, `os.listdir`, the clock, `uuid4()`,
`json.dumps`, the user's dialog answers and `validate_python_file` are
parameters of the operations that use them.

## Model

| member | source | states |
|---|---|---|
| LogPatterns.LitRun | orangedemvironment/readAspehrix.py:5-7 | a match is the literal followed by a non-empty maximal run of the class; the end index is just past the run and the next character is outside the class |
| LogPatterns.RunModeAt | orangedemvironment/readAspehrix.py:56 | a match is `run mode single` or `run mode sequential` at that index, and no match means neither text is there |
| LogPatterns.TargetSectionAt | orangedemvironment/readAspehrix.py:73 | the section lies between `target_param` and the first `measfile` after it, on one line, and holds no `measfile` |
| LogPatterns.AttemptAt | orangedemvironment/readAspehrix.py:116 | a match is `attempting to run ` or `attempting to restart ` at that index |
| PyNumbers.ParseValue | orangedemvironment/readAspehrix.py:34-41 | an int when `int()` accepts the text; failing that a float (keeping the text) when `float()` accepts it; otherwise the text itself |
| PyNumbers.ParseValueOfNat | orangedemvironment/readAspehrix.py:34-36 | the decimal text of a natural number parses back to that number |
| PyNumbers.IntLiteralIsFloatLiteral | orangedemvironment/readAspehrix.py:36-39 | every text `int()` accepts, `float()` accepts too, so the float branch is never reached for it |
| CalibrationLog.ScanLines | orangedemvironment/readAspehrix.py:54-129 | the loop over `reversed(lines)` leaves the accumulators at the fold of the loop body over the lines, last line first |
| CalibrationLog.ExtractCalibrationData | orangedemvironment/readAspehrix.py:44-164 | fails with IndexError on an empty file (`lines[-1]`); otherwise gives the six accumulators after the reverse scan and the whitelist filter, without the convergence flag |
| CalibrationLog.ExtractCalibrationDataWidget | orangedemvironment/OWReadAspherix.py:193-361 | the widget copy: the same scan with dispersity tracking and the filter, plus the `isconverged` record as seventh element |
| CalibrationLog.FirstHitIsFirst | orangedemvironment/readAspehrix.py:54 | the first hit is the hit of the lowest-numbered line that has one; no hit means no line has one |
| CalibrationLog.InitialModelKeys | orangedemvironment/readAspehrix.py:17-24 | the models dictionary starts with exactly the six model names |
| CalibrationLog.ConsumesOnKeys | orangedemvironment/readAspehrix.py:84-88 | whether the model matcher ends a line depends only on the six keys, not on the values found so far |
| CalibrationLog.LaterMatchersFrame | orangedemvironment/readAspehrix.py:90-129 | the matchers after the model matcher change neither the models nor the templates |
| CalibrationLog.CoarseGrainingKeys | orangedemvironment/readAspehrix.py:84-85 | storing the coarse-graining value keeps the six model keys |
| CalibrationLog.StepModelKeys | orangedemvironment/readAspehrix.py:81-88 | one loop iteration keeps the six model keys |
| CalibrationLog.StepModels | orangedemvironment/readAspehrix.py:81-88 | one iteration sets a model exactly when the line is a model hit for it, and leaves it otherwise |
| CalibrationLog.LaterMatchersInputs | orangedemvironment/readAspehrix.py:90-98 | after the model matcher, an input parameter changes exactly on a numeric-variable line for it |
| CalibrationLog.StepInputs | orangedemvironment/readAspehrix.py:54-98 | one iteration sets an input parameter exactly on a line that reaches the numeric matcher with that name |
| CalibrationLog.LaterMatchersCalibrated | orangedemvironment/readAspehrix.py:100-114 | after the model matcher, a calibrated parameter changes exactly on a `param_calibration` line that no numeric match took |
| CalibrationLog.StepCalibrated | orangedemvironment/readAspehrix.py:100-114 | one iteration sets a calibrated parameter exactly when the line is a calibration hit for it |
| CalibrationLog.LaterMatchersInfo | orangedemvironment/readAspehrix.py:116-129 | the three software-info fields change only on lines past the numeric and calibration matchers |
| CalibrationLog.StepInfo | orangedemvironment/readAspehrix.py:56-60 | a run-mode line sets only the run mode; otherwise the software info is what the later matchers make of it |
| CalibrationLog.LaterMatchersPsd | orangedemvironment/OWReadAspherix.py:279-288 | a numeric line appends its value to the radii (`rp…`) or else the mass fractions (`mf…`), and the widget copy sets dispersity to the radii count |
| CalibrationLog.StepPsd | orangedemvironment/OWReadAspherix.py:244-288 | one iteration appends a line's `rp…` value to the radii and, for a non-`rp` name, its `mf…` value to the mass fractions; dispersity stays or, in the widget copy, becomes the radii count |
| CalibrationLog.StepTemplates | orangedemvironment/readAspehrix.py:56-78 | the template block runs on every line without a run-mode match |
| CalibrationLog.TemplateUpdateEffect | orangedemvironment/readAspehrix.py:66-78 | the named template is created empty on first sight and extended by the section words; other templates are untouched |
| CalibrationLog.TemplateStepEffect | orangedemvironment/readAspehrix.py:63-78 | the template block touches only the template a `calibration_case` line names |
| CalibrationLog.ModelKeysInvariant | orangedemvironment/readAspehrix.py:17-24 | after any scan the models dictionary has exactly the six initial keys |
| CalibrationLog.RunModeLineIsolated | orangedemvironment/readAspehrix.py:56-60 | a run-mode line sets the run mode to `single` or `sequential` and nothing else changes |
| CalibrationLog.ModelsEarliestWins | orangedemvironment/readAspehrix.py:81-88 | every model ends up with the value of its earliest model line in the file, or its initial value (lines are visited from the last, line 54) |
| CalibrationLog.InputsEarliestWins | orangedemvironment/readAspehrix.py:90-98 | every input parameter holds the value of its earliest numeric line that the earlier matchers let through (lines are visited from the last, line 54) |
| CalibrationLog.CalibratedEarliestWins | orangedemvironment/readAspehrix.py:100-114 | every calibrated parameter holds the details of its earliest `param_calibration` line (lines are visited from the last, line 54) |
| CalibrationLog.InfoEarliestWins | orangedemvironment/readAspehrix.py:116-129 | attempting-to, git commit, version and run mode each hold the earliest matching line's group, or `""` (lines are visited from the last, line 54) |
| CalibrationLog.PsdListsReversed | orangedemvironment/readAspehrix.py:93-96 | the radii and mass-fraction lists are the `rp`/`mf` values in reverse file order |
| CalibrationLog.DispersityCountsRadii | orangedemvironment/OWReadAspherix.py:286 | only the widget copy updates dispersity, and there it is the number of radii; in the script copy it stays 0 |
| CalibrationLog.MentionsTemplateIff | orangedemvironment/readAspehrix.py:63-66 | a template is mentioned exactly when some line is a `calibration_case` line with `template` and that name |
| CalibrationLog.TemplatesCollected | orangedemvironment/readAspehrix.py:63-78 | a template key exists iff some line names it, and its list is the words of its target sections in scan order, duplicates kept |
| CalibrationLog.UnmentionedHasNoWords | orangedemvironment/readAspehrix.py:69-78 | a template no line names collects no words |
| CalibrationLog.FilteredInputs | orangedemvironment/readAspehrix.py:156-162 | the filtered parameters are the unfiltered ones restricted to the whitelist: no value changes and no key is added |
| CalibrationLog.DesiredMembers | orangedemvironment/readAspehrix.py:131-154 | the whitelist is the eleven base names, `char_vel` iff hooke, the two rolling-damping names iff epsd, the cohesion-energy names iff sjkr/sjkr2, the eight adaptive names iff adaptive |
| CalibrationLog.CharVelOnlyWithHooke | orangedemvironment/readAspehrix.py:136-137 | `char_vel` is admitted exactly when the normal contact model is `hooke` |
| CalibrationLog.WidgetConvergence | orangedemvironment/OWReadAspherix.py:238-242 | an empty file fails; otherwise `isconverged` is `Yes` iff the stripped last line holds `calibration ended successfully` and no `ERROR` |
| CalibratedParams.RowFields | orangedemvironment/readAspehrix.py:171-173 | a row has fields exactly when `strip().split()` gives at least two tokens, and they are the first two |
| CalibratedParams.ReadRows | orangedemvironment/readAspehrix.py:170-175 | reading the rows fails only with ValueError |
| CalibratedParams.ReadRowsSnoc | orangedemvironment/readAspehrix.py:170-175 | reading one more row is one more step of the loop body |
| CalibratedParams.ReadRowsPrefixStep | orangedemvironment/readAspehrix.py:170-175 | reading one more row of a prefix is one more step of the loop body |
| CalibratedParams.FailureSticks | orangedemvironment/readAspehrix.py:174 | once a row raises, reading more rows still raises |
| CalibratedParams.FailureStep | orangedemvironment/readAspehrix.py:174 | a failing prefix stays failing one row further |
| CalibratedParams.ReadCalibratedParams | orangedemvironment/readAspehrix.py:166-176 | the loop over `lines[1:]` gives the rows' dictionary, or the ValueError of the first bad row |
| CalibratedParams.StepByParts | orangedemvironment/readAspehrix.py:171-175 | one row read through its tokens: skipped below two tokens, else the name mapped to the second token or a ValueError |
| CalibratedParams.LastValueWins | orangedemvironment/readAspehrix.py:175 | a repeated name keeps the value of its last row; a name without a row is absent |
| CalibratedParams.ReadRowsFailsIff | orangedemvironment/readAspehrix.py:172-174 | reading fails exactly when some row with two tokens has a second token `float()` rejects |
| CalibratedParams.FailureHasBadRow | orangedemvironment/readAspehrix.py:174 | a failure is caused by some bad row |
| CalibratedParams.BadRowFails | orangedemvironment/readAspehrix.py:174 | any bad row makes the whole read fail |
| CalibratedParams.ReadRowsLast | orangedemvironment/readAspehrix.py:170-175 | reading a non-empty list of rows is reading all but the last, then the last |
| CalibratedParams.RowStepFails | orangedemvironment/readAspehrix.py:174 | one row fails exactly when it is bad, whatever came before |
| CalibratedParams.ReadRowsDistinct | orangedemvironment/readAspehrix.py:167-175 | the result has no key twice |
| CalibratedParams.ShortRowSkipped | orangedemvironment/readAspehrix.py:172 | a row with fewer than two tokens changes nothing |
| CalibratedParams.HeaderIgnored | orangedemvironment/readAspehrix.py:170 | the first line is never read as a row, whatever it holds |
| MetaInfo.AllIn | orangedemvironment/OWReadAspherix.py:587 | `all(key in hay …)` raises for a scalar `hay` and a non-empty key list, and is otherwise true iff every key is `in` it |
| MetaInfo.AllInRequired | orangedemvironment/OWReadAspherix.py:586-587 | for the three required keys, `all` is true iff `version`, `doi` and `Archived time` are each `in` the value |
| MetaInfo.HasRequiredKeys | orangedemvironment/OWReadAspherix.py:586-587 | on a dictionary: true iff its keys include `version`, `doi` and `Archived time`, extra keys allowed; a scalar raises |
| ReadAspherixWidget.ValidateJsonStructure | orangedemvironment/OWReadAspherix.py:582-587 | false without `meta_info`; with a dictionary `meta_info`, true iff the three keys are in it; a scalar document raises TypeError |
| ReadAspherixWidget.ReferenceErrors | orangedemvironment/OWReadAspherix.py:477-479 | at most one error per reference row; none exactly when every row's path is non-empty and a file |
| ReadAspherixWidget.ValidateData | orangedemvironment/OWReadAspherix.py:444-481 | the error list is the user, case-name, directory/log, calibrated-params and reference errors in check order |
| ReadAspherixWidget.CheckReferences | orangedemvironment/OWReadAspherix.py:477-479 | the loop appends exactly the reference errors, in row order, to the errors before it |
| ReadAspherixWidget.ReferenceErrorsNameBadRows | orangedemvironment/OWReadAspherix.py:478-479 | every reference error names a row that fails the check, in row order |
| ReadAspherixWidget.ReferenceErrorsStep | orangedemvironment/OWReadAspherix.py:477-479 | one more row of the loop adds its error or nothing |
| ReadAspherixWidget.ReferenceErrorsSplit | orangedemvironment/OWReadAspherix.py:477-479 | the errors of rows followed by one row are those rows' errors followed by that row's |
| ReadAspherixWidget.ReferenceErrorsAppend | orangedemvironment/OWReadAspherix.py:477-479 | the reference errors of two runs of rows concatenate |
| ReadAspherixWidget.ValidateDataEmptyIff | orangedemvironment/OWReadAspherix.py:444-481 | no error exactly when the user data is complete, the case name is not blank, the directory and both files exist and every reference is a file |
| ReadAspherixWidget.CaseNameReported | orangedemvironment/OWReadAspherix.py:459-461 | the empty-case-name error is reported exactly for a whitespace-only name |
| ReadAspherixWidget.PyListIndex | orangedemvironment/OWReadAspherix.py:644-649 | Python list indexing: in range for `-len <= i < len`, negative indices from the end, IndexError otherwise |
| ReadAspherixWidget.PrepareCalibrationCaseData | orangedemvironment/OWReadAspherix.py:642-650 | six keys in source order, case name, pressure and directory copied; fails with IndexError exactly when a combo index is out of Python's range |
| ReadAspherixWidget.CaseLabels | orangedemvironment/OWReadAspherix.py:646-648 | Cohesivity 0/1 is cohesionless/cohesive, flow state 0/1/2 Quasi-static/Intermediate/Rapid, consolidation 0/1 low/high |
| UserInfo.MissingFields | orangedemvironment/OWReadAspherix.py:454 | the missing fields are exactly the listed fields that are absent or empty, none more than the list |
| UserInfo.MissingFieldsAppend | orangedemvironment/OWReadAspherix.py:454 | the comprehension keeps field order: it distributes over concatenation |
| UserInfo.UserInfoErrors | orangedemvironment/OWReadAspherix.py:449-457 | empty user data gives one "User data is required." error; otherwise none iff all four fields are filled, else one message naming the blank fields in order |
| Registry.IsValidJsonData | orangedemvironment/OWMetaDataRegistry.py:184-185 | a non-dictionary raises AttributeError; without `meta_info` the answer is false (the `{}` default); with a dictionary `meta_info`, true iff `version`, `doi` and `Archived time` are keys of it |
| Registry.ValidationsAgree | orangedemvironment/OWMetaDataRegistry.py:184-185 | on a dictionary the registry's check and `validate_json_structure` give the same answer |
| Registry.FileNameFromJsonData | orangedemvironment/OWMetaDataRegistry.py:234-236 | a derived name always ends `.json` |
| Registry.FileNameOfDoi | orangedemvironment/OWMetaDataRegistry.py:236 | a doi without `-` raises IndexError; with one, the name is the first group, `-`, at most 8 characters of the second group, and `.json` |
| Registry.Warehouse.constructor | orangedemvironment/OWMetaDataRegistry.py:150 | the warehouse starts with the given files |
| Registry.Warehouse.RegisterMetadata | orangedemvironment/OWMetaDataRegistry.py:150-173 | the outcome and the new files are those of the decision function `RegisterOf` on the old files |
| Registry.Warehouse.HandleExistingFile | orangedemvironment/OWMetaDataRegistry.py:187-194 | the outcome and the new files are those of `HandleExistingOf`: a strictly greater version asks for a new version, anything else for a forced overwrite |
| Registry.Warehouse.PromptForNewVersionRegistration | orangedemvironment/OWMetaDataRegistry.py:196-207 | the outcome and the new files are those of `NewVersionOf` |
| Registry.Warehouse.PromptForForcedOverwrite | orangedemvironment/OWMetaDataRegistry.py:209-228 | the outcome and the new files are those of `ForcedOverwriteOf` |
| Registry.HandleExistingWrites | orangedemvironment/OWMetaDataRegistry.py:187-228 | handling an existing name either writes nothing or leaves the record stored under that name |
| Registry.NothingWrittenUnlessAccepted | orangedemvironment/OWMetaDataRegistry.py:150-173 | without a directory, without data, with invalid data, on an error, or when the user declines, the warehouse is unchanged; otherwise the record is stored under the name its doi gives |
| Registry.EarlyExits | orangedemvironment/OWMetaDataRegistry.py:151-162 | the directory check, then the data check, then the validity check, each leaving the warehouse unchanged |
| Registry.AbsentNameWritten | orangedemvironment/OWMetaDataRegistry.py:167-171 | a name not in the warehouse is written with the record and no other entry changes |
| Registry.NewerVersion | orangedemvironment/OWMetaDataRegistry.py:191-206 | a strictly newer version: Yes moves the old record to `<name>.bak`, replacing any earlier backup, and stores the new one, all other entries unchanged; No changes nothing |
| Registry.NewVersionStores | orangedemvironment/OWMetaDataRegistry.py:196-207 | Yes: the keys gain only `<name>.bak`, which holds the old record, and `<name>` holds the new one; No: nothing changes |
| Registry.SameOrOlderVersion | orangedemvironment/OWMetaDataRegistry.py:193-227 | the same or an older version: Overwrite replaces `<name>` with no new key; Abort changes nothing |
| Registry.HandleExistingFrame | orangedemvironment/OWMetaDataRegistry.py:187-228 | handling an existing name changes no entry other than that name and its backup |
| Registry.RegisterFrame | orangedemvironment/OWMetaDataRegistry.py:150-228 | whatever happens, no entry other than `<name>` and `<name>.bak` changes |
| Paths.PathJoin | orangedemvironment/OWDOIJson.py:195 | `os.path.join`: an absolute name discards the directory; otherwise the directory, a `/` unless it ends with one, and the name |
| Paths.Dirname | orangedemvironment/OWDOIJson.py:280 | `os.path.dirname`: a prefix of the path, empty when it holds no `/` |
| Paths.DirnameOfJoin | orangedemvironment/OWDOIJson.py:280 | the directory of a plain file name joined to a directory without trailing slash is that directory (also lines 195) |
| DoiJson.WidgetIndicator | orangedemvironment/OWDOIJson.py:262-271 | one of exp/rel/calib/""; exp iff the label mentions the Experiment widget, and "" iff it mentions none of the three |
| DoiJson.IndicatorHasNoSlash | orangedemvironment/OWDOIJson.py:262-271 | no indicator contains `/` |
| DoiJson.LabelIndicators | orangedemvironment/OWDOIJson.py:264-294 | each label `extract_directory` sets maps back to its own indicator, the None label to "" |
| DoiJson.MergeKeepsOrder | orangedemvironment/OWDOIJson.py:191 | the combined record keeps the keys it starts with first, in their order |
| DoiJson.MergeGet | orangedemvironment/OWDOIJson.py:191 | every key of the input gets a value; other keys keep theirs |
| DoiJson.MergeTakesInput | orangedemvironment/OWDOIJson.py:191 | an input key gets the input's value, so an input `meta_info` overrides the stamped one |
| DoiJson.Stamp | orangedemvironment/OWDOIJson.py:183-187 | `Archived time` and `doi` are set, `version` keeps its value or becomes 0, every other key is unchanged |
| DoiJson.CheckExistingJsonFiles | orangedemvironment/OWDOIJson.py:332-336 | only files present in the warehouse are listed |
| DoiJson.DoiWidget.Assign | orangedemvironment/OWDOIJson.py:161-336 | the widget state becomes the given state |
| DoiJson.DoiWidget.constructor | orangedemvironment/OWDOIJson.py:161-336 | empty meta info, not a new version, the None label, the saved directory, no indicator, no input |
| DoiJson.DoiWidget.GenerateDoi | orangedemvironment/OWDOIJson.py:161-212 | result and new state are `GenerateDoiOf` of the old state |
| DoiJson.DoiWidget.StampAndWriteWith | orangedemvironment/OWDOIJson.py:179-212 | result and new state are `StampAndWrite` of the old state |
| DoiJson.DoiWidget.SubmitNewVersion | orangedemvironment/OWDOIJson.py:302-330 | result and new state are `SubmitNewVersionOf` of the old state |
| DoiJson.DoiWidget.BumpAndGenerate | orangedemvironment/OWDOIJson.py:320-326 | result and new state are `BumpVersion` of the old state |
| DoiJson.DoiWidget.ExtractDirectory | orangedemvironment/OWDOIJson.py:273-300 | result and new state are `ExtractDirectoryOf` of the old state |
| DoiJson.DoiWidget.SetInputData | orangedemvironment/OWDOIJson.py:338-359 | result and new state are `SetInputDataOf` of the old state, which `SetInputDataRefresh` characterises |
| DoiJson.NewDataRecord | orangedemvironment/OWDOIJson.py:166-210 | new data: version 0, doi `indicator-<whole uuid>`, the file `indicator-<uuid[:8]>.json` in the directory is the only file written, and the flag ends false; the result is that path, or AttributeError from the refresh after the write when no indicator has been set (line 206) |
| DoiJson.NewVersionKeepsVersion | orangedemvironment/OWDOIJson.py:174-210 | on the new-version path the stored version is kept, not reset, and the flag ends false |
| DoiJson.WrittenRecordShape | orangedemvironment/OWDOIJson.py:191-197 | the written file holds `{"meta_info": meta, **input}`, with `meta_info` first and every input key |
| DoiJson.CombinedRecord | orangedemvironment/OWDOIJson.py:191 | the combined record has `meta_info` first and every input key with the input's value; an input `meta_info` wins |
| DoiJson.RegistryNameAgrees | orangedemvironment/OWDOIJson.py:185-195 | for an indicator without `-` and a uuid4 text, the registry's name for the doi is the name the file was written under |
| DoiJson.UuidFirstGroup | orangedemvironment/OWDOIJson.py:171-172 | the first `-`-group of a uuid4 text is its first 8 characters |
| DoiJson.NewVersionFlow | orangedemvironment/OWDOIJson.py:309-326 | an existing file with integer version v moves to `<file>.v<v>.bak`, version becomes v+1, the old uuid stays in the doi, the new file is written, and nothing else changes |
| DoiJson.NewVersionReachesStamp | orangedemvironment/OWDOIJson.py:309-326 | the new-version path for an integer version reaches stamping with the kept uuid |
| DoiJson.BumpIntReachesStamp | orangedemvironment/OWDOIJson.py:320-326 | bumping an integer version leads to stamping with the kept uuid |
| DoiJson.SubmitReachesBump | orangedemvironment/OWDOIJson.py:309-320 | a stored record yielding its version and uuid leads, after the rename, to the version bump |
| DoiJson.BumpReachesGenerate | orangedemvironment/OWDOIJson.py:320-326 | a version that can be incremented leads to `generate_doi` with the next version |
| DoiJson.WithVersionFacts | orangedemvironment/OWDOIJson.py:321-322 | before `generate_doi` the record holds the new version and the doi with the old uuid, and nothing else changes |
| DoiJson.StoredUniqueOf | orangedemvironment/OWDOIJson.py:176 | the unique part of a doi `<indicator>-<u>` is `u` |
| DoiJson.StampAndWriteFacts | orangedemvironment/OWDOIJson.py:179-210 | once the unique part is chosen: the version is kept or 0, the doi is `indicator-<u>`, one file is written; without an indicator the refresh raises AttributeError after the write and the flag keeps its value, otherwise the flag ends false |
| DoiJson.MissingSelection | orangedemvironment/OWDOIJson.py:303-309 | without the selected file only the new-version flag changes |
| DoiJson.BackupsNeverListed | orangedemvironment/OWDOIJson.py:332-336 | a name ending `.bak` never matches `<indicator>-*.json` |
| DoiJson.JsonIsNotBak | orangedemvironment/OWDOIJson.py:334 | a name ending `.json` does not end `.bak` |
| DoiJson.GeneratedFileListed | orangedemvironment/OWDOIJson.py:195 | the file written for new data is listed afterwards, for a uuid whose first 8 characters hold no `/` (also lines 332-336) |
| DoiJson.NameListed | orangedemvironment/OWDOIJson.py:195 | the name `generate_doi` gives a file matches `<directory>/<indicator>-*.json` (also lines 334) |
| DoiJson.ExtractDirectoryConsistent | orangedemvironment/OWDOIJson.py:273-300 | after a successful `extract_directory` the label names the stored indicator, the directory is the one returned, and the files and meta info are unchanged |
| DoiJson.ExtractDirectoryShape | orangedemvironment/OWDOIJson.py:278-297 | a success stores one of the four label/indicator pairs and the returned directory, and nothing else |
| DoiJson.FromFilePathSets | orangedemvironment/OWDOIJson.py:278-287 | the Experiment and Relational branches store their label, indicator and directory and nothing else; the directory is `os.path.dirname` of the path field, "" when the field is missing, TypeError for a path that is not a text, AttributeError for a section that is not a dictionary |
| DoiJson.FromCalibrationCaseSets | orangedemvironment/OWDOIJson.py:288-291 | the Read Aspherix branch stores its label, indicator and directory and nothing else; the directory is the `Local Directory` value as it stands, "" when the key is missing, AttributeError for a section that is not a dictionary |
| DoiJson.ExtractDirectoryCases | orangedemvironment/OWDOIJson.py:278-294 | `Data Info`, then `Correlation Info`, then `Calibration Case` decide the indicator; the directory is the dirname of `File location/Links`, the dirname of `Python file path`, or `Local Directory` (default ""); with none of the sections the directory is "" and the label None |
| DoiJson.SetInputDataRefresh | orangedemvironment/OWDOIJson.py:340-346 | for non-empty text the state is that of `extract_directory`; its exception is raised as it is, and a directory that is not a text makes `refresh_directory_info` raise TypeError (line 334) |
| DoiJson.NullLocalDirectoryRaises | orangedemvironment/OWDOIJson.py:345 | a calibration case with `"Local Directory": null` stores `None` as the directory and raises TypeError in the refresh |
| WarehouseLookup.ExtractKeys | orangedemvironment/OWLookupMetadataWarehouse.py:141-148 | the set afterwards is the set before plus every key of the document at any depth |
| WarehouseLookup.EntriesKeysIff | orangedemvironment/OWLookupMetadataWarehouse.py:143-145 | the loop over a dictionary collects exactly its keys and the keys inside its values |
| WarehouseLookup.ItemsKeysIff | orangedemvironment/OWLookupMetadataWarehouse.py:147-148 | the loop over a list collects exactly the keys inside its items |
| WarehouseLookup.AllKeysIff | orangedemvironment/OWLookupMetadataWarehouse.py:141-148 | a key is collected exactly when some dictionary reachable through dictionaries and lists has it; scalars give nothing |
| WarehouseLookup.ObjKeyFound | orangedemvironment/OWLookupMetadataWarehouse.py:142-145 | a key collected from a dictionary belongs to a reachable dictionary |
| WarehouseLookup.ObjKeyCollected | orangedemvironment/OWLookupMetadataWarehouse.py:142-145 | a key of a dictionary reachable from a dictionary is collected |
| WarehouseLookup.ArrKeyFound | orangedemvironment/OWLookupMetadataWarehouse.py:146-148 | a key collected from a list belongs to a reachable dictionary |
| WarehouseLookup.ArrKeyCollected | orangedemvironment/OWLookupMetadataWarehouse.py:146-148 | a key of a dictionary reachable from a list is collected |
| WarehouseLookup.MatchEntriesIff | orangedemvironment/OWLookupMetadataWarehouse.py:176-181 | the loop over a dictionary succeeds exactly when an entry has the key and `str` of its value is the text, or a container value matches |
| WarehouseLookup.MatchItemsIff | orangedemvironment/OWLookupMetadataWarehouse.py:183-186 | the loop over a list succeeds exactly when some item matches |
| WarehouseLookup.MatchKeyValueIff | orangedemvironment/OWLookupMetadataWarehouse.py:174-187 | a document matches exactly when some dictionary reachable through dictionaries and lists has the entry with that `str()`; a scalar never matches |
| WarehouseLookup.ObjMatchFound | orangedemvironment/OWLookupMetadataWarehouse.py:175-181 | a match in a dictionary is an entry of a reachable dictionary |
| WarehouseLookup.ObjEntryMatched | orangedemvironment/OWLookupMetadataWarehouse.py:175-181 | an entry of a dictionary reachable from a dictionary makes it match |
| WarehouseLookup.ArrMatchFound | orangedemvironment/OWLookupMetadataWarehouse.py:182-186 | a match in a list is an entry of a reachable dictionary |
| WarehouseLookup.ArrEntryMatched | orangedemvironment/OWLookupMetadataWarehouse.py:182-186 | an entry of a dictionary reachable from a list makes it match |
| WarehouseLookup.MatchSearchesMatchingKey | orangedemvironment/OWLookupMetadataWarehouse.py:177-181 | an entry with the key but another value does not stop the search: its container value is still searched |
| WarehouseLookup.CountOf | orangedemvironment/OWLookupMetadataWarehouse.py:125-129 | a count never exceeds the number of listed names |
| WarehouseLookup.CountedHasDash | orangedemvironment/OWLookupMetadataWarehouse.py:126-128 | a counted name starts with its type and a `-` |
| WarehouseLookup.BackupNotCounted | orangedemvironment/OWLookupMetadataWarehouse.py:126 | adding a `.bak` name to the listing changes no count and no key set |
| WarehouseLookup.CountsDisjoint | orangedemvironment/OWLookupMetadataWarehouse.py:127-129 | a name counts for at most one type, so the three counts add up to at most the listing size |
| WarehouseLookup.StatsOf | orangedemvironment/OWLookupMetadataWarehouse.py:122 | the statistics have exactly the keys exp, rel and calib |
| WarehouseLookup.KeysByType | orangedemvironment/OWLookupMetadataWarehouse.py:123 | the key sets have exactly the keys exp, rel and calib |
| WarehouseLookup.StatsStep | orangedemvironment/OWLookupMetadataWarehouse.py:126-129 | one more listed name bumps its type's counter exactly when it is a counted `.json` name, and changes nothing otherwise |
| WarehouseLookup.StatsCounted | orangedemvironment/OWLookupMetadataWarehouse.py:129 | a counted name adds one to its type's counter only |
| WarehouseLookup.KeysStep | orangedemvironment/OWLookupMetadataWarehouse.py:126-130 | one more listed name adds its keys to its type's set exactly when it is counted |
| WarehouseLookup.KeysCounted | orangedemvironment/OWLookupMetadataWarehouse.py:130-139 | a counted name adds all its keys to its type's set only |
| WarehouseLookup.Step | orangedemvironment/OWLookupMetadataWarehouse.py:125-130 | the count for a type grows by one, and its keys by the document's, exactly for a counted name |
| WarehouseLookup.StatsCountedFrom | orangedemvironment/OWLookupMetadataWarehouse.py:129 | one counted name from given statistics bumps that type's counter |
| WarehouseLookup.KeysCountedFrom | orangedemvironment/OWLookupMetadataWarehouse.py:130 | one counted name from given key sets adds its keys to that type's set |
| WarehouseLookup.CountFile | orangedemvironment/OWLookupMetadataWarehouse.py:126-139 | the loop body for one name gives the statistics and key sets of the listing one name longer |
| WarehouseLookup.Lookup.constructor | orangedemvironment/OWLookupMetadataWarehouse.py:122-123 | zero counts, empty key sets, no file type chosen |
| WarehouseLookup.Lookup.LoadAndValidate | orangedemvironment/OWLookupMetadataWarehouse.py:117-133 | a missing directory leaves the statistics untouched; otherwise the counters restart and become the counts and key sets of the listing |
| WarehouseLookup.Lookup.OnFileTypeChanged | orangedemvironment/OWLookupMetadataWarehouse.py:151-158 | an unknown text raises KeyError and keeps the type; otherwise the type is its code and the offered keys are that type's keys, sorted |
| WarehouseLookup.TypeCode | orangedemvironment/OWLookupMetadataWarehouse.py:152 | exactly Experiment, Relational and Calibration have a code, one of exp, rel, calib |
| WarehouseLookup.LeastExists | orangedemvironment/OWLookupMetadataWarehouse.py:158 | a finite non-empty set of texts has a least element in Python's string order |
| WarehouseLookup.SortedKeys | orangedemvironment/OWLookupMetadataWarehouse.py:158 | `sorted(keys)`: strictly ascending, the same elements, as many as the set has |
| WarehouseLookup.Select | orangedemvironment/OWLookupMetadataWarehouse.py:202-208 | the selected names are at most the listing, and a name is selected exactly when a listed entry with it satisfies the test |
| WarehouseLookup.SelectIff | orangedemvironment/OWLookupMetadataWarehouse.py:202-208 | a name is selected exactly when some listed entry with that name satisfies the test |
| WarehouseLookup.OnSearchClicked | orangedemvironment/OWLookupMetadataWarehouse.py:189-208 | an empty key or value gives no results; it raises exactly when no type is chosen and the listing is not empty |
| WarehouseLookup.OnSearchClickedIff | orangedemvironment/OWLookupMetadataWarehouse.py:197-208 | with a key and a value given, the results are exactly the names of the type ending `.json` whose document has the entry at some depth |
| WarehouseLookup.TopLevelMatch | orangedemvironment/OWLookupMetadataWarehouse.py:171 | on a dictionary: true exactly when the key holds the string value itself, with no `str()` conversion |
| WarehouseLookup.SearchFiles | orangedemvironment/OWLookupMetadataWarehouse.py:161-172 | without a chosen type it raises exactly when the listing is not empty |
| WarehouseLookup.SearchFilesIff | orangedemvironment/OWLookupMetadataWarehouse.py:166-172 | on dictionaries, the results are exactly the names of the type whose top-level `key` holds the string `value` |
| WarehouseLookup.NoErrorOnDictionaries | orangedemvironment/OWLookupMetadataWarehouse.py:171 | on dictionaries the top-level test never raises |
| WarehouseLookup.TopLevelImpliesDeep | orangedemvironment/OWLookupMetadataWarehouse.py:171-187 | a top-level match is also a match of the deep search |
| DictHandler.FlatFresh | shared/dictHandler.py:33-39 | with distinct keys, the key at a position is not yet in the flattened dictionary of the entries before it |
| DictHandler.FlatStep | shared/dictHandler.py:34-39 | one loop step stores the flattened entry at its position as a new key at the end |
| DictHandler.Flatten | shared/dictHandler.py:33-39 | the loop builds the flattened dictionary: same keys in the same order, a nested dictionary replaced by its `json.dumps` text |
| DictHandler.DictToOrangeTable | shared/dictHandler.py:29-45 | one meta per key in key order, and a single row that holds at each position the flattened value |
| DictHandler.FlattenKeepsOrder | shared/dictHandler.py:34-39 | flattening keeps every key and its position; a nested dictionary becomes its `dumps` text and every other value stays as it is |
| DictHandler.FlattenIsFlat | shared/dictHandler.py:35-37 | no value of the flattened dictionary is a dictionary |
| DictHandler.RowPairs | shared/dictHandler.py:69-70 | `zip` stops at the shorter side, pairing each meta with the `str()` of its value |
| DictHandler.OrangeTableToDict | shared/dictHandler.py:53-72 | the two loops build the dictionary of rows assigned in order |
| DictHandler.PutRow | shared/dictHandler.py:69-70 | the inner loop assigns each zipped pair in order |
| DictHandler.PutAllGet | shared/dictHandler.py:70 | the last assignment to a key decides its value; a key never assigned keeps its old value |
| DictHandler.FreshAt | shared/dictHandler.py:70 | when no key repeats, the key at a position is new to the pairs before it |
| DictHandler.PutAllNew | shared/dictHandler.py:70 | assigning a key that is not present appends it |
| DictHandler.PutAllStep | shared/dictHandler.py:69-70 | with distinct keys, one more assignment appends one more pair |
| DictHandler.PutAllRest | shared/dictHandler.py:69-70 | assigning the remaining distinct pairs in order appends them all |
| DictHandler.PutAllFresh | shared/dictHandler.py:67-70 | distinct pairs assigned to an empty dictionary are its entries, in order |
| DictHandler.RowsIntoSnoc | shared/dictHandler.py:68-70 | reading one more row is one more run of the inner loop |
| DictHandler.LastRowWins | shared/dictHandler.py:68-70 | after a row, each meta it reaches holds the `str()` of that row's value |
| DictHandler.ShortRowKeeps | shared/dictHandler.py:69 | a meta beyond the end of a short row keeps its earlier value |
| DictHandler.EmptyTable | shared/dictHandler.py:67-72 | a table without rows gives an empty dictionary |
| DictHandler.RoundTrip | shared/dictHandler.py:29-72 | a dictionary sent to a table and back keeps its keys in order; each value becomes the `str()` of its flattened value |
| DictHandler.RoundTripGet | shared/dictHandler.py:29-72 | after the round trip each key looks up the `str()` of its flattened value |
| DictHandler.GetFirst | shared/dictHandler.py:70 | in a dictionary without repeated keys, a lookup finds the entry at its position |
| DictHandler.EntriesHtml | shared/dictHandler.py:50 | there are at most as many entries as the dictionary has |
| DictHandler.FormatDictAsText | shared/dictHandler.py:47-51 | the title in bold and the opening brace come first, and the text ends with the plain literal `<br/>{ "}" }`, which is not an f-string and so is emitted as it stands |
| DictHandler.NothingToShow | shared/dictHandler.py:50-51 | a dictionary with only falsy values shows `<b>title</b><br/>{<br/><br/>{ "}" }` and nothing else |
| DictHandler.NoEntries | shared/dictHandler.py:50 | only falsy values give no entries |
| DictHandler.EntriesAppend | shared/dictHandler.py:50 | the entries of two dictionaries joined are the entries of the first, then those of the second |
| DictHandler.AppendOne | shared/dictHandler.py:50 | a falsy value adds no entry; a truthy value adds exactly its own |
| DictHandler.TruthyShown | shared/dictHandler.py:50 | every truthy value appears as its entry |
| Relational.RestOfLine | orangedemvironment/OWRelational.py:297 | `.*$` reaches `$` exactly when no line feed comes before the last character |
| Relational.UrlOkIff | orangedemvironment/OWRelational.py:297-299 | a URL passes exactly when it starts with `http://` or `https://` and has no line feed before its last character |
| Relational.DoiOkIff | orangedemvironment/OWRelational.py:325-328 | the DOI pattern accepts exactly the texts whose line (the text without one final line feed) is `10`, any non-line-feed character, four to nine digits, `/`, and one or more DOI characters in any case |
| Relational.IsbnShape | orangedemvironment/OWRelational.py:330-332 | an accepted ISBN on one line has 10 or 13 characters, all digits except that the last may be `X` |
| Relational.IsbnOkIff | orangedemvironment/OWRelational.py:330-332 | the ISBN pattern accepts exactly the texts whose line (without one final line feed) has ten characters, or thirteen beginning `978` or `979`, all digits except a last `X` |
| Relational.IsbnNeedsPrefix | orangedemvironment/OWRelational.py:330 | thirteen digits without the `978`/`979` prefix are refused |
| Relational.IsbnPrefixOptional | orangedemvironment/OWRelational.py:330 | putting `978` or `979` in front of an accepted ten-character ISBN keeps it accepted |
| Relational.IsbnNoCheckDigit | orangedemvironment/OWRelational.py:330 | the check digit is not verified: the same nine digits are accepted with `0` and with `X` |
| Relational.ParseGroup | orangedemvironment/OWRelational.py:318 | what follows a parsed group is shorter than the text |
| Relational.ParseGroupSound | orangedemvironment/OWRelational.py:318 | a parsed group is `(` last `,` whitespace first `)` with both names from `[A-Za-z\s]+`, followed by the rest of the text |
| Relational.ParseRestSound | orangedemvironment/OWRelational.py:318 | the repeated `,\s*group` part gives well-formed groups that render back to the text |
| Relational.RestStepText | orangedemvironment/OWRelational.py:318 | one repetition renders back to its text |
| Relational.RestStepWellFormed | orangedemvironment/OWRelational.py:318 | the gap of one repetition is whitespace, so its group is well formed |
| Relational.RenderRestCons | orangedemvironment/OWRelational.py:318 | a repetition is written as `,`, its gap, then the group |
| Relational.GapBeforeGroup | orangedemvironment/OWRelational.py:318 | after `,` the whitespace run stops at the `(` of the next group |
| Relational.ParseAuthorsSound | orangedemvironment/OWRelational.py:318-321 | an accepted author text is a well-formed list that renders back to it |
| Relational.GroupTextLayout | orangedemvironment/OWRelational.py:318 | the positions of `(`, `,`, the gap and `)` inside a written group |
| Relational.ParseGroupText | orangedemvironment/OWRelational.py:318 | parsing a written group gives back its two names and the text after it |
| Relational.ParseRestCons | orangedemvironment/OWRelational.py:318 | parsing a repetition written in front of more repetitions gives the group followed by theirs |
| Relational.ParseRestRender | orangedemvironment/OWRelational.py:318 | parsing rendered repetitions gives them back |
| Relational.ParseAuthorsRender | orangedemvironment/OWRelational.py:318-321 | parsing a rendered author list gives the list back |
| Relational.AuthorsOkIff | orangedemvironment/OWRelational.py:318-322 | an author text passes exactly when its line (the text without one final line feed) is one or more `(Last, First)` groups joined by `,` and optional whitespace |
| Relational.ValidateData | orangedemvironment/OWRelational.py:284-354 | the error list is built check by check in the source's order; an exception from opening the Python file propagates |
| Relational.CheckFields | orangedemvironment/OWRelational.py:287-303 | the name, year, URL and first Python-file errors, in that order |
| Relational.CheckLater | orangedemvironment/OWRelational.py:317-344 | the authors, identifier and second Python-file errors, added after those before |
| Relational.LaterErrorsSplit | orangedemvironment/OWRelational.py:317-344 | the later errors are the authors error, then the identifier error, then the Python-file error, each only when its check fails |
| Relational.ValidIff | orangedemvironment/OWRelational.py:284-354 | no error exactly when the name is set, the year has four digits, the URL, authors and identifier match, the Python file has a function, and the user data has every required field |
| Relational.PythonFileReportedTwice | orangedemvironment/OWRelational.py:302-344 | a missing or function-less Python file is reported after the URL check and again as the last error |
| Relational.FirstErrorInOrder | orangedemvironment/OWRelational.py:287-293 | an empty name is the first error; with a name, a bad year is the first error |
| Relational.UnreadableFileRaises | orangedemvironment/OWRelational.py:254-256 | a chosen file that cannot be opened raises out of `validate_data` (also lines 302) |
| Relational.DropEmpty | orangedemvironment/OWRelational.py:399-418 | a pair is kept exactly when its value is set and not empty, and no pair is added |
| Relational.KeyedAt | orangedemvironment/OWRelational.py:418 | for a key that occurs once, whether `(key, v)` is kept depends on its own entry alone |
| Relational.ReferenceKeysOf | orangedemvironment/OWRelational.py:403-415 | the reference record lists the eleven keys in the source's order |
| Relational.ReferenceInfoNonEmpty | orangedemvironment/OWRelational.py:418 | no kept value is empty |
| Relational.JournalOnlyForArticle | orangedemvironment/OWRelational.py:407-418 | the journal is kept exactly for an article with a journal filled in |
| Relational.PublisherOnlyForBook | orangedemvironment/OWRelational.py:408-418 | the publisher is kept exactly for a book with a publisher filled in |
| Relational.EditionOnlyForBook | orangedemvironment/OWRelational.py:409-418 | the edition is kept exactly for a book with an edition filled in |
| Relational.ReferenceTypeAlwaysKept | orangedemvironment/OWRelational.py:404 | the reference type, `Article` for index 0 and `Book` otherwise, is always kept |
| Relational.IdTypeAlwaysKept | orangedemvironment/OWRelational.py:410 | the ID type, `DOI` for index 0 and `ISBN` otherwise, is always kept |
| Relational.CorrelationInfoKept | orangedemvironment/OWRelational.py:394-399 | the correlation record keeps the name and the Python file path exactly when each is filled in |
| UserForm.DotBeforeIff | orangedemvironment/OWUser.py:99 | the backtracking search for `\.` finds a `.` with at least one character of the run after it exactly when there is one |
| UserForm.ValidEmailHasShape | orangedemvironment/OWUser.py:99-100 | an accepted e-mail starts with a non-empty run without `@`, an `@`, a non-empty run, a `.` and a character that is not `@` |
| UserForm.ShapeIsValidEmail | orangedemvironment/OWUser.py:99-100 | a text that starts with that shape is accepted |
| UserForm.IsValidEmailIff | orangedemvironment/OWUser.py:97-100 | the e-mail check accepts exactly the texts that start with that shape |
| UserForm.TrailingTextAccepted | orangedemvironment/OWUser.py:100 | `re.match` anchors only at the start: `a@b.c@` is accepted |
| UserForm.DotPlacementRefused | orangedemvironment/OWUser.py:99 | a `.` right after the `@` or at the very end is refused |
| UserForm.ValidateInputs | orangedemvironment/OWUser.py:102-115 | an empty field gives the required-fields message, otherwise a bad e-mail gives the format message; success exactly when all fields are set and the e-mail passes, with an empty message |
| Experiment.FirstBlank | orangedemvironment/OWExperiment.py:154-175 | no field is reported exactly when every required field has non-whitespace text |
| Experiment.FirstBlankIs | orangedemvironment/OWExperiment.py:154-175 | the loops report the first whitespace-only field |
| Experiment.ValidateDataOf | orangedemvironment/OWExperiment.py:148-195 | missing user data is reported first; no message exactly when the required fields are filled, diameter and density are floats, and the link and file location pass |
| Experiment.FirstBlankReported | orangedemvironment/OWExperiment.py:150-175 | with user data present, the message names the first whitespace-only required field |
| Experiment.EmptyDensityNotANumber | orangedemvironment/OWExperiment.py:178-183 | an empty density is reported as not a floating number |
| Experiment.LinkLocationNeedsNoDisk | orangedemvironment/OWExperiment.py:191-193 | a link is accepted as file location whether or not the path exists |
| Experiment.LinkExamples | orangedemvironment/OWExperiment.py:186-188 | ` NoNe ` is accepted as MSDS link and `http://` alone is not |
| Experiment.CountDiscarded | orangedemvironment/OWExperiment.py:363-365 | as written, `Multi` with counts 2 and 3 gives the same text; the intended value tells them apart |
| Experiment.NumberOfVariablesKeepsCount | orangedemvironment/OWExperiment.py:363-365 | the intended value is injective in the count for `Multi` and keeps any other choice unchanged |
| SimulationDirectory.RecentAfterNew | orangedemvironment/OWTest_form.py:145-154 | a new directory goes first, the previous list follows, cut to at most ten |
| SimulationDirectory.RecentAfterIdempotent | orangedemvironment/OWTest_form.py:145 | afterwards the directory is in the list, and changing to it again changes nothing |
| SimulationDirectory.RecentAfterBounded | orangedemvironment/OWTest_form.py:149-151 | a list of at most ten directories stays at most ten |
| SimulationDirectory.RecentAfterDistinct | orangedemvironment/OWTest_form.py:145-146 | a list without repeats keeps having none |
| SimulationDirectory.OldestDropped | orangedemvironment/OWTest_form.py:145-151 | from a full list, exactly the first nine old entries survive a new directory |
| SimulationDirectory.FindText | orangedemvironment/OWTest_form.py:152-153 | `findText` gives -1 exactly when the text is absent, otherwise its first index |
| SimulationDirectory.RemoveFirstCounts | orangedemvironment/OWTest_form.py:152-154 | removing the found item takes one copy of it from the combo, and an absent text changes nothing |
| SimulationDirectory.TrimmedMirror | orangedemvironment/OWTest_form.py:150-154 | when the combo starts equal to a list without repeats, popping from the list and removing from the combo keep them equal |
| SimulationDirectory.ComboMirrorsRecent | orangedemvironment/OWTest_form.py:145-154 | a combo that shows the recent list still shows it after the update |
| SimulationDirectory.LogFiles | orangedemvironment/OWTest_form.py:160 | a name is a log file exactly when it is listed, starts with `log` and does not end in `.bak` |
| SimulationDirectory.LogFilesAppend | orangedemvironment/OWTest_form.py:160 | the filter works name by name, in listing order |
| SimulationDirectory.LogFilesIdempotent | orangedemvironment/OWTest_form.py:160 | filtering the log files again keeps them all |
| SimulationDirectory.InfoLabelOf | orangedemvironment/OWTest_form.py:155-164 | the empty-directory text exactly for no names, the no-log text exactly when no name is a log file, the log list otherwise |
| SimulationDirectory.EmptyDirectoryNotWarned | orangedemvironment/OWTest_form.py:141-142 | as written no listing, the empty one included, is `False`, so the warning is never shown; the intended test warns on the empty listing |
| SimulationDirectory.WarningMatchesLabel | orangedemvironment/OWTest_form.py:141-157 | the intended warning shows exactly when the label for a present directory reads empty |
| SimulationDirectory.SimulationWidget.constructor | orangedemvironment/OWTest_form.py:20-32 | the widget starts from its saved directory and recent list, and the combo shows that list (also lines 81) |
| SimulationDirectory.SimulationWidget.AddPsdEntry | orangedemvironment/OWTest_form.py:120-132 | one row at the end with diameter 0, type `mass` and fraction 0, within their ranges |
| SimulationDirectory.SimulationWidget.UpdateInfoLabel | orangedemvironment/OWTest_form.py:155-164 | a missing directory reads empty; an unreadable one raises and keeps the label; otherwise the label follows the listing |
| SimulationDirectory.SimulationWidget.RememberDirectory | orangedemvironment/OWTest_form.py:145-154 | the list and the combo become the specified recent list and combo |
| SimulationDirectory.SimulationWidget.OnDirectoryChange | orangedemvironment/OWTest_form.py:135-154 | the directory is set and the label updated; an unreadable listing raises before the list changes; otherwise the warning test is the one written (`os.listdir(d) is False`), so no warning shows, and the list is updated, keeping the widget's invariant |
| SimulationDirectory.SimulationWidget.Browse | orangedemvironment/OWTest_form.py:165-173 | a chosen directory goes through the directory change: an unreadable listing raises its error with the recent list and combo unchanged, otherwise the result is "no warning" and the list and combo are updated; a cancelled dialog keeps the directory and the list; the label is updated for the current directory either way |
| Text.Strip | orangedemvironment/OWExperiment.py:157 | `strip()`: the result neither starts nor ends with whitespace, and it is empty exactly when the text is all whitespace |
| Text.Lower | orangedemvironment/OWExperiment.py:187 | `lower()`: the same length, each character lowered |
| Text.Tokens | orangedemvironment/readAspehrix.py:171 | `split()`: every token is non-empty and holds no whitespace |
| Text.Words | orangedemvironment/readAspehrix.py:76 | `re.findall(r'(\w+)')`: every word is a non-empty run of word characters |
| Text.Split | orangedemvironment/OWMetaDataRegistry.py:236 | `split(sep)`: at least one part, no part holds the separator, joining the parts gives the text back, and there are two or more parts exactly when the separator occurs |
| Text.SplitFirst | orangedemvironment/OWMetaDataRegistry.py:236 | the first part is the text before the first separator |
| Text.ReplaceFirst | orangedemvironment/OWDOIJson.py:176 | `replace(old, new, 1)`: a text without the pattern is unchanged, and a leading pattern is replaced |
| Text.DropPrefix | orangedemvironment/OWDOIJson.py:176 | removing the indicator prefix leaves what follows it |
| Text.Take | orangedemvironment/OWDOIJson.py:172 | `s[:8]`: a prefix of the text, of length at most eight |
| Text.FindFrom | orangedemvironment/readAspehrix.py:49-63 | the first occurrence at or after the start: an occurrence, with none before it; none found means none exists |
| Text.ContainsIff | orangedemvironment/readAspehrix.py:49-63 | `p in s` holds exactly when `p` occurs at some index |
| Text.NatToString | orangedemvironment/OWExperiment.py:365 | the decimal text of a count is a non-empty run of digits |
| Text.NatToStringInjective | orangedemvironment/OWExperiment.py:365 | different counts have different decimal texts |
| Text.LexLessIrreflexive | orangedemvironment/OWLookupMetadataWarehouse.py:158 | Python's string order puts no text before itself |
| Text.LexLessTransitive | orangedemvironment/OWLookupMetadataWarehouse.py:158 | Python's string order is transitive |
| Text.LexLessTotal | orangedemvironment/OWLookupMetadataWarehouse.py:158 | of two different texts one comes first |
| Text.RunEnd | orangedemvironment/OWUser.py:99 | a greedy character-class run: every character up to the end is in the class and the next one is not |
| LogPatterns.Search | orangedemvironment/readAspehrix.py:56 | `re.search`: the first index at which the pattern matches, with its groups; no result means it matches nowhere |
| LogPatterns.BeforeFirstOccurrence | orangedemvironment/readAspehrix.py:73 | the lazy `(.*?)` stops at the first `measfile`, so the section holds none |
| LogPatterns.OccursConcat | orangedemvironment/readAspehrix.py:73 | `target_param`, the section and `measfile` next to each other are one occurrence of the whole pattern |
| PyNumbers.RemoveUnderscores | orangedemvironment/readAspehrix.py:36 | `int()` ignores single underscores between digits: digits and underscores give digits, and text without underscores is kept |
| PyNumbers.DigitsValueOfNat | orangedemvironment/readAspehrix.py:36 | `int(str(n)) == n` for a natural number |
| CalibrationLog.Reverse | orangedemvironment/readAspehrix.py:54 | `reversed(lines)` has as many items as the lines |
| CalibrationLog.ReverseCons | orangedemvironment/readAspehrix.py:54 | reversing a list with one more item in front puts it last |
| CalibrationLog.ReverseHitList | orangedemvironment/readAspehrix.py:93-96 | a value found on a line goes last in the reversed order (lines are visited from the last, line 54) |
| Json.PyGet | orangedemvironment/OWDOIJson.py:186 | `get(key, default)` raises exactly on a non-dictionary, and gives the default for a missing key (also lines 279) |
| Json.PyIndex | orangedemvironment/OWMetaDataRegistry.py:191 | `j[key]` succeeds exactly on a dictionary with the key, giving its value, and raises KeyError for a missing key |
| Json.PyIn | orangedemvironment/OWDOIJson.py:278 | `needle in j`: key membership on a dictionary, item membership on a list; raises on a number, `None` or a bool |
| Json.PyGreater | orangedemvironment/OWMetaDataRegistry.py:191 | `a > b`: numeric on integers and bools, Python's string order on texts, TypeError with `None` or a dictionary |
| Json.PyAddOne | orangedemvironment/OWDOIJson.py:320 | `j + 1`: one more for an integer, TypeError for a text, `None`, a list or a dictionary |
| Json.MantissaTruth | shared/dictHandler.py:50 | `bool()` of a float without exponent: false exactly when every character is a zero digit, a point, a sign, an underscore or a space (also `OWMetaDataRegistry.py:157`) |
| Json.ExponentIgnored | shared/dictHandler.py:50 | `bool()` of a float is decided by its mantissa; whatever follows the first `e` or `E` does not change it (also `OWMetaDataRegistry.py:157`) |
| Json.ZeroWithExponentIsFalse | orangedemvironment/OWMetaDataRegistry.py:157 | `0e5` is a falsy float, so `if not json_data` stops registration for it |
| Json.NegativeZeroIsFalse | shared/dictHandler.py:50 | `-0.0E-3` is a falsy float |
| Json.NonZeroFloatsAreTrue | shared/dictHandler.py:50 | `1e-9` and `inf` are truthy floats |
| Json.StrOfList | shared/dictHandler.py:70 | `str()` of a list shows each item by its `repr`, separated by `, `, in brackets: `['a', 1]` |
| Json.StrRepr | shared/dictHandler.py:70 | `repr` of a text is quoted, so it has at least two characters |
| Dicts.Get | orangedemvironment/OWReadAspherix.py:454 | `get(k)`: nothing exactly when the key is absent, otherwise a value stored under it |
| Dicts.Put | shared/dictHandler.py:70 | `d[k] = v`: the key now gives `v`, other keys are unchanged, a new key goes last, and no key repeats |
| Dicts.Restrict | orangedemvironment/readAspehrix.py:157-159 | the dictionary comprehension keeps exactly the keys that pass, with their values, in order |
| Dicts.RestrictAppend | orangedemvironment/readAspehrix.py:157-159 | the comprehension keeps the entries' order |
| Dicts.PutNewAppends | shared/dictHandler.py:37-39 | assigning a key the dictionary lacks appends one entry |
| Dicts.PutKeysPrefix | shared/dictHandler.py:70 | assigning keeps the existing keys first, in their order |
| Paths.DirPrefix | orangedemvironment/OWDOIJson.py:195 | `os.path.join` puts the directory, with one `/` added when needed, in front of the name |
| Paths.LastSlashEnd | orangedemvironment/OWDOIJson.py:280 | the position after the last `/`, with no `/` beyond it |
| Paths.RStripSlashes | orangedemvironment/OWDOIJson.py:280 | `rstrip('/')`: a prefix of the text without a trailing `/`, and only slashes are removed |
| DoiJson.NoSlashInName | orangedemvironment/OWDOIJson.py:195 | a file name built from an indicator and a text without `/` has none |

## Left out

- Qt and Orange widget construction, signals, labels, message boxes, file dialogs and the HTML set into text views: display only. The combo box's current text is not modelled, nor the re-entry of `on_directory_change` through `currentTextChanged` when `browse` sets it.
- File-system I/O (`open`, `json.load`, `json.dump`, `os.rename`, `os.remove`, `glob`, `os.listdir`, `os.path.exists`, `os.path.isfile`): the warehouse is a map from path to JSON record, and existence and listings are parameters. A listing is assumed not to change between two calls within one operation.
- Malformed JSON files: every file is taken to hold a JSON document.
- Floating point: a float is kept as the literal that denotes it, and `float()` is modelled as "accepts / rejects" over Python's literal grammar on ASCII. Comparisons and arithmetic on floats are not interpreted.
- Json.PyGreater: `>` between two lists (element-wise comparison) is not interpreted either, like `>` involving a float; both give a not-modelled outcome instead of a value.
- Json.Str: `str()` of a float is the literal it was read from. That equals Python's `str(float)` only when the literal is already Python's shortest repr, which is what `json.dump` writes; a literal such as `1.50`, `1e5` or `1E-3` shows as written, not as `1.5`, `100000.0` or `0.001`.
- WarehouseLookup.MatchKeyValueIff: compares the searched text with `str()` of a float value as its stored literal (see Json.Str), so a file holding a float in a form other than Python's repr may be matched differently.
- DictHandler.RowPairs: a float value is shown as its stored literal (see Json.Str). The same holds for DictHandler.LastRowWins, DictHandler.RoundTrip and DictHandler.FormatDictAsText.
- DoiJson.NewVersionFlow: the backup name `<file>.v<version>.bak` is only proved for an integer version; for a float version it holds the stored literal (see Json.Str).
- Unicode: `\w`, `\s`, `\d`, `str.isdigit`, `str.strip`, `str.lower` and IGNORECASE are read over ASCII. Non-ASCII digits, whitespace and case folding are not modelled. `$` is modelled as the end of the text or the position before a final line feed.
- `json.dumps` formatting is a parameter of `DictHandler.DictToOrangeTable`. Orange's `Table.from_list` and its value conversion are not modelled: a table is its meta names and rows of values.
- `validate_python_file` (`ast.parse` of the chosen file) is a parameter: whether a function was found, or the exception opening the file raised.
- `uuid.uuid4()` and `datetime.now()` are parameters.
- DoiJson.CheckExistingJsonFiles: `glob` metacharacters (`*`, `?`, `[`) inside the directory or the indicator are matched as plain characters, and only the `*` of `<indicator>-*.json` is a wildcard (with no `/` in what it matches); a directory name holding such characters is globbed differently by Python.
- DoiJson.DoiWidget.StampAndWriteWith: updates the whole widget state at once from a specification function, instead of field by field as `generate_doi` does. The intermediate states are not modelled.
- WarehouseLookup.SearchFiles: when one document raises (for instance `in` on a number), the result is that exception. The names already added to the results list before it are not kept.
- The PSD spin boxes after `add_psd_entry`: user edits to a row are not modelled. Only the rows appended, and their initial values and ranges, are.
- `generate_metadata` in `OWTest.py` and `OWTest_form.py`: file I/O. The `OWTest_form.py` copy reads an attribute the widget never defines.
- `OWRun.py`: random sampling with a numpy permutation and a floating-point fraction.
- The module-level example at `readAspehrix.py:178-183`: hard-coded paths run on import.
- `setup.py`: packaging metadata only.
- The fields `update_preview` reads from the line edits are taken to be in step with the form passed to the validators.

## Findings

| source | as written | input that shows it | evidently intended | confidence | as-written member | corrected member |
|---|---|---|---|---|---|---|
| orangedemvironment/OWExperiment.py:363-365 | `num_vars_text + f" ({...})"` is evaluated and thrown away, so "Number of variables" is always just the combo text | combo `Multi` with counts 2 and 3 both give `Multi` | `num_vars_text` becomes `Multi (<count>)` | not executed | Experiment.NumberOfVariablesAsWritten, Experiment.CountDiscarded | Experiment.NumberOfVariables, Experiment.NumberOfVariablesKeepsCount |
| orangedemvironment/OWTest_form.py:141 (also OWTest.py:73) | `os.listdir(d) is False` compares a list with the `False` object, so the empty-directory warning never shows | a present directory with the empty listing `[]` | warn when the listing is empty (`not os.listdir(d)`) | not executed | SimulationDirectory.WarnsEmptyAsWritten, SimulationDirectory.EmptyDirectoryNotWarned | SimulationDirectory.WarnsEmpty, SimulationDirectory.WarningMatchesLabel |

The widget methods `OnDirectoryChange` and `Browse` keep the test as written, so they never warn; the intended test is stated and proved beside it.
