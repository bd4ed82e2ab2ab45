/** The user widget's input checks (OWUser.py:97-115): the e-mail pattern read
    over ASCII and the required-field check before it. */
module UserForm {
  import opened Text

  predicate NotAt(c: char) { c != '@' }

  /** Some `.` at an index `p` with `lo <= p` and a character before `hi` after it. */
  predicate DotBefore(s: string, lo: nat, hi: nat)
    requires hi <= |s|
    decreases hi - lo
  {
    lo + 1 < hi && (s[lo] == '.' || DotBefore(s, lo + 1, hi))
  }

  lemma {:induction false} DotBeforeIff(s: string, lo: nat, hi: nat)
    requires hi <= |s|
    decreases hi - lo
    ensures DotBefore(s, lo, hi) <==> exists p :: lo <= p && p + 1 < hi && s[p] == '.'
  {
    if lo + 1 < hi {
      DotBeforeIff(s, lo + 1, hi);
    }
  }

  /** `re.match(r"[^@]+@[^@]+\.[^@]+", email) is not None`. The first run of
      non-`@` characters cannot give anything back, since an `@` must follow it;
      the second run backtracks to a `.` with at least one character of the run
      on each side. Nothing is demanded after that character. */
  predicate IsValidEmail(email: string) {
    var i := RunEnd(email, 0, NotAt);
    0 < i < |email| && DotBefore(email, i + 2, RunEnd(email, i + 1, NotAt))
  }

  /** The prefix `email[..p + 2]` has the pattern's shape, with the `@` at `i`
      and the `.` at `p`. */
  predicate EmailShapeAt(s: string, i: nat, p: nat) {
    0 < i && i + 1 < p && p + 1 < |s| && s[i] == '@' && s[p] == '.' && s[p + 1] != '@'
    && forall k :: 0 <= k < p && k != i ==> s[k] != '@'
  }

  lemma ValidEmailHasShape(s: string)
    requires IsValidEmail(s)
    ensures exists i, p :: EmailShapeAt(s, i, p)
  {
    var i := RunEnd(s, 0, NotAt);
    var e := RunEnd(s, i + 1, NotAt);
    DotBeforeIff(s, i + 2, e);
    var p :| i + 2 <= p && p + 1 < e && s[p] == '.';
    assert EmailShapeAt(s, i, p);
  }

  lemma ShapeIsValidEmail(s: string, i: nat, p: nat)
    requires EmailShapeAt(s, i, p)
    ensures IsValidEmail(s)
  {
    RunEndIs(s, 0, i, NotAt);
    var e := RunEnd(s, i + 1, NotAt);
    assert p + 1 < e;
    DotBeforeIff(s, i + 2, e);
  }

  /** The e-mail check accepts exactly the texts with a prefix of the shape
      non-empty non-`@` run, `@`, non-empty non-`@` run, `.`, non-`@` character. */
  lemma IsValidEmailIff(s: string)
    ensures IsValidEmail(s) <==> exists i, p :: EmailShapeAt(s, i, p)
  {
    if IsValidEmail(s) {
      ValidEmailHasShape(s);
    }
    if exists i, p :: EmailShapeAt(s, i, p) {
      var i: nat, p: nat :| EmailShapeAt(s, i, p);
      ShapeIsValidEmail(s, i, p);
    }
  }

  /** Text after the shape is not examined: `a@b.c@` is accepted. */
  lemma TrailingTextAccepted()
    ensures IsValidEmail("a@b.c@")
  {
    assert EmailShapeAt("a@b.c@", 1, 3);
    ShapeIsValidEmail("a@b.c@", 1, 3);
  }

  /** A `.` right after the `@`, or a `.` with nothing after it, is refused. */
  lemma DotPlacementRefused()
    ensures !IsValidEmail("a@.c") && !IsValidEmail("a@b.")
  {
    IsValidEmailIff("a@.c");
    IsValidEmailIff("a@b.");
  }

  const RequiredMessage := "All fields are required."
  const EmailMessage := "Invalid email format."

  /** `validate_inputs`: every field must be non-empty, then the e-mail must
      pass; the message is empty exactly on success. */
  function ValidateInputs(firstName: string, lastName: string, email: string, affiliation: string): (r: (bool, string))
    ensures r.0 <==> r.1 == ""
    ensures r.0 <==> firstName != "" && lastName != "" && email != "" && affiliation != "" && IsValidEmail(email)
    ensures (firstName == "" || lastName == "" || email == "" || affiliation == "") ==> r == (false, RequiredMessage)
    ensures firstName != "" && lastName != "" && email != "" && affiliation != "" && !IsValidEmail(email)
      ==> r == (false, EmailMessage)
  {
    if firstName == "" || lastName == "" || email == "" || affiliation == "" then (false, RequiredMessage)
    else if !IsValidEmail(email) then (false, EmailMessage)
    else (true, "")
  }
}
