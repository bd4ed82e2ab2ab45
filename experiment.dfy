/** The experiment widget (OWExperiment.py): the ordered first-error check of
    `validate_data` (OWExperiment.py:148-195) and the "Number of variables"
    value of `update_preview` (OWExperiment.py:363-365). Whether the file
    location exists on disk (`os.path.exists`) is a parameter. */
module Experiment {
  import opened Base
  import opened Text
  import opened Dicts
  import opened PyNumbers

  /** The texts of the line edits `validate_data` reads. */
  datatype Form = Form(name: string, quantities: string, device: string, material: string, diameter: string,
                       shape: string, location: string, place: string, density: string, link: string)

  /** The required fields with their labels, in the order the three loops check them. */
  function RequiredFields(f: Form): seq<(string, string)> {
    [("Name of the Experiment", f.name), ("Measured Quantities", f.quantities), ("Measurement Device", f.device),
     ("Particle's Material", f.material), ("Particle's Diameter", f.diameter), ("Particle's Shape", f.shape),
     ("File location/Links", f.location), ("Place of data collection", f.place)]
  }

  const NoUserMessage := "User data not received. Please connect the User widget."
  const LinkMessage := "'Links to MSDS or more details' is not a valid link. You can also enter 'None' if there's no link."
  const LocationMessage := "'File location/Links' is not a valid location or link."

  function EmptyMessage(field: string): string {
    "'" + field + "' is empty. Please provide the required information."
  }

  function NotFloatMessage(field: string): string {
    "'" + field + "' must be a floating number."
  }

  /** The label of the first field whose text is only whitespace. */
  function FirstBlank(fields: seq<(string, string)>): (r: Option<string>)
    ensures r.None? <==> forall k :: 0 <= k < |fields| ==> Strip(fields[k].1) != ""
  {
    if fields == [] then None
    else if Strip(fields[0].1) == "" then Some(fields[0].0)
    else
      var r := FirstBlank(fields[1..]);
      assert forall k :: 1 <= k < |fields| ==> fields[k] == fields[1..][k - 1];
      r
  }

  /** The loops stop at the first blank field. */
  lemma {:induction false} FirstBlankIs(fields: seq<(string, string)>, k: nat)
    requires k < |fields| && Strip(fields[k].1) == ""
    requires forall j :: 0 <= j < k ==> Strip(fields[j].1) != ""
    ensures FirstBlank(fields) == Some(fields[k].0)
  {
    if k > 0 {
      assert forall j :: 0 <= j < k - 1 ==> fields[1..][j] == fields[j + 1];
      FirstBlankIs(fields[1..], k - 1);
    }
  }

  /** `re.match(r'https?://\S+', t)`: the scheme, then one non-whitespace character. */
  predicate IsLink(t: string) {
    (StartsWith(t, "http://") && |t| > 7 && !IsSpace(t[7]))
    || (StartsWith(t, "https://") && |t| > 8 && !IsSpace(t[8]))
  }

  /** The MSDS link check on the stripped text: empty, `none` in any case, or a link. */
  predicate LinkAcceptable(link: string) {
    var t := Strip(link);
    t == "" || Lower(t) == "none" || IsLink(t)
  }

  /** The file-location check on the stripped text: a link, or a path that
      exists (`locationExists`). */
  predicate LocationAcceptable(location: string, locationExists: bool) {
    var t := Strip(location);
    t == "" || IsLink(t) || locationExists
  }

  /** `validate_data`: the message of the first failing check, or None. */
  function ValidateDataOf(userInfo: Dict<string>, f: Form, locationExists: bool): (r: Option<string>)
    ensures userInfo == [] ==> r == Some(NoUserMessage)
    ensures r.None? <==> (userInfo != []
      && (forall k :: 0 <= k < 8 ==> Strip(RequiredFields(f)[k].1) != "")
      && IsFloatLiteral(f.diameter) && IsFloatLiteral(f.density)
      && LinkAcceptable(f.link) && LocationAcceptable(f.location, locationExists))
  {
    if userInfo == [] then Some(NoUserMessage)
    else
      match FirstBlank(RequiredFields(f))
      case Some(field) => Some(EmptyMessage(field))
      case None =>
        if !IsFloatLiteral(f.diameter) then Some(NotFloatMessage("Particle's Diameter (m)"))
        else if !IsFloatLiteral(f.density) then Some(NotFloatMessage("Particle's Density"))
        else if !LinkAcceptable(f.link) then Some(LinkMessage)
        else if !LocationAcceptable(f.location, locationExists) then Some(LocationMessage)
        else None
  }

  /** With user data present, the first whitespace-only required field is the one reported. */
  lemma FirstBlankReported(userInfo: Dict<string>, f: Form, locationExists: bool, k: nat)
    requires userInfo != [] && k < 8
    requires Strip(RequiredFields(f)[k].1) == ""
    requires forall j :: 0 <= j < k ==> Strip(RequiredFields(f)[j].1) != ""
    ensures ValidateDataOf(userInfo, f, locationExists) == Some(EmptyMessage(RequiredFields(f)[k].0))
  {
    FirstBlankIs(RequiredFields(f), k);
  }

  /** `float("")` raises: the density is not a required field, so an empty
      density is reported as not a number. */
  lemma EmptyDensityNotANumber(userInfo: Dict<string>, f: Form, locationExists: bool)
    requires userInfo != [] && forall k :: 0 <= k < 8 ==> Strip(RequiredFields(f)[k].1) != ""
    requires IsFloatLiteral(f.diameter) && f.density == ""
    ensures ValidateDataOf(userInfo, f, locationExists) == Some(NotFloatMessage("Particle's Density"))
  {
    assert Strip("") == "";
    assert Lower("") == "";
    assert !IsFloatLiteral("");
  }

  /** A link is accepted as file location without looking at the disk. */
  lemma LinkLocationNeedsNoDisk(location: string)
    requires IsLink(Strip(location))
    ensures LocationAcceptable(location, false)
  {
  }

  /** `None` in any case and surrounding whitespace is an acceptable MSDS link;
      a `http://` without a character after it is not. */
  lemma LinkExamples()
    ensures LinkAcceptable(" NoNe ") && !LinkAcceptable("http://")
  {
    var t := " NoNe ";
    assert LeadingSpaces(t) == 1;
    assert TrailingSpaces(t[1..]) == 1;
    assert Strip(t) == "NoNe";
    assert Lower("NoNe") == "none";
    StripKeepsUnpadded("http://");
  }

  // ---------------------------------------------------------------------
  // "Number of variables" (OWExperiment.py:363-365)

  /** As written: the concatenation with the count is evaluated and thrown
      away, so the value is the combo text whatever the count. */
  function NumberOfVariablesAsWritten(combo: string, count: nat): string {
    combo
  }

  /** The evidently intended value: `Multi` followed by the count in brackets. */
  function NumberOfVariables(combo: string, count: nat): string {
    if combo == "Multi" then combo + " (" + NatToString(count) + ")" else combo
  }

  /** As written, two different counts give the same text. */
  lemma CountDiscarded()
    ensures NumberOfVariablesAsWritten("Multi", 2) == NumberOfVariablesAsWritten("Multi", 3)
    ensures NumberOfVariables("Multi", 2) != NumberOfVariables("Multi", 3)
  {
    assert NumberOfVariables("Multi", 2)[7] == '2';
    assert NumberOfVariables("Multi", 3)[7] == '3';
  }

  /** The intended value keeps the count: different counts give different texts,
      and any other choice is kept as it is. */
  lemma NumberOfVariablesKeepsCount(combo: string, a: nat, b: nat)
    ensures combo == "Multi" && NumberOfVariables(combo, a) == NumberOfVariables(combo, b) ==> a == b
    ensures combo != "Multi" ==> NumberOfVariables(combo, a) == combo
  {
    if combo == "Multi" && NumberOfVariables(combo, a) == NumberOfVariables(combo, b) {
      var sa, sb := NumberOfVariables(combo, a), NumberOfVariables(combo, b);
      assert sa[7..|sa| - 1] == NatToString(a);
      assert sb[7..|sb| - 1] == NatToString(b);
      NatToStringInjective(a, b);
    }
  }
}
