/** The relational (correlation) widget: the regular expressions of
    `validate_data` read over ASCII (OWRelational.py:292-332), the ordered error
    list it builds (OWRelational.py:284-354), and the filtering of the preview
    records in `update_preview` (OWRelational.py:392-418). Whether the chosen
    Python file defines a function is the outcome of `validate_python_file`,
    passed in. */
module Relational {
  import opened Base
  import opened Text
  import opened Dicts
  import opened UserInfo

  // ---------------------------------------------------------------------
  // Python's `$` and the URL pattern

  /** `$` without MULTILINE: the end of the text, or just before a final line feed. */
  predicate AtEnd(s: string, i: nat) { i == |s| || (i + 1 == |s| && s[i] == '\n') }

  /** The text `$` lets a pattern see: without one final line feed. */
  function Line(s: string): (r: string)
    ensures s != [] && s[|s| - 1] == '\n' ==> r == s[..|s| - 1]
    ensures (s == [] || s[|s| - 1] != '\n') ==> r == s
  {
    if s != [] && s[|s| - 1] == '\n' then s[..|s| - 1] else s
  }

  /** No line feed before the last character. */
  predicate SingleLine(s: string) { forall k :: 0 <= k < |s| - 1 ==> s[k] != '\n' }

  /** `.*$` from `n`: the greedy run of non-line-feed characters reaches `$`
      exactly when no line feed comes before the last character. */
  lemma RestOfLine(s: string, n: nat)
    requires n <= |s|
    ensures AtEnd(s, RunEnd(s, n, NotNewline)) <==> forall k :: n <= k < |s| - 1 ==> s[k] != '\n'
  {
  }

  /** `re.compile(r'^(http|https)://.*$').match(url)`. */
  predicate UrlOk(url: string) {
    (StartsWith(url, "http://") && AtEnd(url, RunEnd(url, 7, NotNewline)))
    || (StartsWith(url, "https://") && AtEnd(url, RunEnd(url, 8, NotNewline)))
  }

  /** A URL passes exactly when it begins with `http://` or `https://` and has
      no line feed before its last character. */
  lemma UrlOkIff(url: string)
    ensures UrlOk(url) <==> (StartsWith(url, "http://") || StartsWith(url, "https://")) && SingleLine(url)
  {
    if StartsWith(url, "https://") {
      RestOfLine(url, 8);
      assert forall k :: 0 <= k < 8 ==> url[k] == "https://"[k];
    } else if StartsWith(url, "http://") {
      RestOfLine(url, 7);
      assert forall k :: 0 <= k < 7 ==> url[k] == "http://"[k];
    }
  }

  // ---------------------------------------------------------------------
  // The DOI pattern

  /** `[-._;()/:A-Z0-9]` under IGNORECASE. */
  predicate DoiSuffixChar(c: char) {
    IsLetter(c) || IsDigit(c) || c == '-' || c == '.' || c == '_' || c == ';'
    || c == '(' || c == ')' || c == '/' || c == ':'
  }

  /** `re.compile(r"^10.\d{4,9}/[-._;()/:A-Z0-9]+$", re.IGNORECASE).match(v)`:
      `10`, one character other than a line feed, a digit run of four to nine
      (a longer run leaves a digit where the `/` must be), `/`, and a suffix
      whose greedy run reaches `$`. */
  predicate DoiOk(v: string) {
    |v| >= 3 && v[0] == '1' && v[1] == '0' && v[2] != '\n'
    && (var e := RunEnd(v, 3, IsDigit);
        7 <= e <= 12 && e < |v| && v[e] == '/'
        && (var f := RunEnd(v, e + 1, DoiSuffixChar);
            e + 1 < f && AtEnd(v, f)))
  }

  /** The DOI shape with `d` registrant digits. */
  predicate DoiShape(v: string, d: nat) {
    4 <= d <= 9 && 4 + d < |v| && v[0] == '1' && v[1] == '0' && v[2] != '\n'
    && AllDigits(v[3..3 + d]) && v[3 + d] == '/'
    && forall k :: 4 + d <= k < |v| ==> DoiSuffixChar(v[k])
  }

  /** The scan accepts exactly the texts whose line, the text without one
      final line feed, has the DOI shape. */
  lemma DoiOkIff(v: string)
    ensures DoiOk(v) <==> exists d :: DoiShape(Line(v), d)
  {
    if DoiOk(v) {
      DoiAcceptedHasShape(v);
    }
    if exists d :: DoiShape(Line(v), d) {
      var d: nat :| DoiShape(Line(v), d);
      DoiShapeAccepted(v, d);
    }
  }

  lemma DoiAcceptedHasShape(v: string)
    requires DoiOk(v)
    ensures DoiShape(Line(v), RunEnd(v, 3, IsDigit) - 3)
  {
    var w := Line(v);
    var e := RunEnd(v, 3, IsDigit);
    var f := RunEnd(v, e + 1, DoiSuffixChar);
    assert f == |w| by {
      if f == |v| {
        assert DoiSuffixChar(v[|v| - 1]);
      }
    }
    assert w[3..e] == v[3..e];
    forall k | 4 + (e - 3) <= k < |w| ensures DoiSuffixChar(w[k]) {
      assert w[k] == v[k];
    }
  }

  lemma DoiShapeAccepted(v: string, d: nat)
    requires DoiShape(Line(v), d)
    ensures DoiOk(v)
  {
    var w := Line(v);
    forall k | 3 <= k < 3 + d ensures IsDigit(v[k]) {
      assert v[k] == w[3..3 + d][k - 3];
    }
    RunEndIs(v, 3, 3 + d, IsDigit);
    forall k | 4 + d <= k < |w| ensures DoiSuffixChar(v[k]) {
      assert v[k] == w[k];
    }
    RunEndIs(v, 4 + d, |w|, DoiSuffixChar);
  }

  // ---------------------------------------------------------------------
  // The ISBN pattern

  /** `\d{9}(\d|X)` starting at `i`. */
  predicate IsbnBody(v: string, i: nat) {
    i + 10 <= |v| && AllDigits(v[i..i + 9]) && (IsDigit(v[i + 9]) || v[i + 9] == 'X')
  }

  /** `re.compile(r"^(97(8|9))?\d{9}(\d|X)$").match(v)`: the body alone or
      after a `978`/`979` prefix, followed by `$`. */
  predicate IsbnOk(v: string) {
    (IsbnBody(v, 0) && AtEnd(v, 10))
    || (|v| >= 3 && v[0] == '9' && v[1] == '7' && (v[2] == '8' || v[2] == '9') && IsbnBody(v, 3) && AtEnd(v, 13))
  }

  /** On one line an accepted ISBN has 10 or 13 characters: digits, except that
      the last may be an upper-case `X`. */
  lemma IsbnShape(v: string)
    requires '\n' !in v && IsbnOk(v)
    ensures |v| == 10 || |v| == 13
    ensures forall k :: 0 <= k < |v| - 1 ==> IsDigit(v[k])
    ensures IsDigit(v[|v| - 1]) || v[|v| - 1] == 'X'
  {
    if IsbnBody(v, 0) && AtEnd(v, 10) {
      forall k | 0 <= k < 9 ensures IsDigit(v[k]) { assert v[k] == v[0..9][k]; }
    } else {
      forall k | 3 <= k < 12 ensures IsDigit(v[k]) { assert v[k] == v[3..12][k - 3]; }
    }
  }

  /** An ISBN in plain terms: ten characters, or thirteen beginning `978` or
      `979`; all digits, except that the last may be an upper-case `X`. */
  predicate IsbnText(w: string) {
    (|w| == 10 || (|w| == 13 && w[0] == '9' && w[1] == '7' && (w[2] == '8' || w[2] == '9')))
    && (forall k :: 0 <= k < |w| - 1 ==> IsDigit(w[k]))
    && (IsDigit(w[|w| - 1]) || w[|w| - 1] == 'X')
  }

  /** The ISBN pattern accepts exactly the texts whose line is an ISBN. */
  lemma IsbnOkIff(v: string)
    ensures IsbnOk(v) <==> IsbnText(Line(v))
  {
    var w := Line(v);
    assert forall k :: 0 <= k < |w| ==> w[k] == v[k];
    if IsbnOk(v) {
      if IsbnBody(v, 0) && AtEnd(v, 10) {
        assert |w| == 10;
        forall k | 0 <= k < 9 ensures IsDigit(w[k]) { assert v[k] == v[0..9][k]; }
      } else {
        assert |w| == 13;
        forall k | 3 <= k < 12 ensures IsDigit(w[k]) { assert v[k] == v[3..12][k - 3]; }
      }
    }
    if IsbnText(w) {
      if |w| == 10 {
        assert v[0..9] == w[0..9];
        assert IsbnBody(v, 0) && AtEnd(v, 10);
      } else {
        assert v[3..12] == w[3..12];
        assert IsbnBody(v, 3) && AtEnd(v, 13);
      }
    }
  }

  /** A thirteen-character text without the `978`/`979` prefix is refused. */
  lemma IsbnNeedsPrefix()
    ensures !IsbnOk("1234567890123")
  {
    IsbnOkIff("1234567890123");
  }

  /** The prefix is optional: a ten-character ISBN stays accepted behind `978` or `979`. */
  lemma IsbnPrefixOptional(t: string)
    requires |t| == 10 && IsbnOk(t)
    ensures IsbnOk("978" + t) && IsbnOk("979" + t)
  {
    forall p | p == "978" || p == "979" ensures IsbnOk(p + t) {
      var v := p + t;
      assert v[3..12] == t[0..9];
      assert v[12] == t[9];
    }
  }

  /** The check digit is not computed: both `0` and `X` end an accepted ISBN
      after the same nine digits. */
  lemma IsbnNoCheckDigit()
    ensures IsbnOk("1234567890") && IsbnOk("123456789X")
  {
    assert AllDigits("1234567890"[0..9]);
    assert AllDigits("123456789X"[0..9]);
  }

  // ---------------------------------------------------------------------
  // The authors pattern

  /** `[A-Za-z\s]`. */
  predicate NameChar(c: char) { IsLetter(c) || IsSpace(c) }

  /** `[A-Za-z\s]+`. */
  predicate IsName(s: string) { s != [] && forall k :: 0 <= k < |s| ==> NameChar(s[k]) }

  /** One `(last, first)` group and the whitespace `gap` before it. `first` keeps
      the whitespace character the pattern demands after the comma. */
  datatype Author = Author(gap: string, last: string, first: string)

  predicate WellFormedAuthor(a: Author) {
    (forall k :: 0 <= k < |a.gap| ==> IsSpace(a.gap[k]))
    && IsName(a.last) && |a.first| >= 2 && IsSpace(a.first[0]) && IsName(a.first[1..])
  }

  /** `\([A-Za-z\s]+,\s[A-Za-z\s]+\)`. */
  function GroupText(a: Author): string { "(" + a.last + "," + a.first + ")" }

  /** The first group has no gap, every later one is written after `,` and its gap. */
  predicate WellFormedAuthors(authors: seq<Author>) {
    |authors| >= 1 && authors[0].gap == ""
    && forall k :: 0 <= k < |authors| ==> WellFormedAuthor(authors[k])
  }

  function RenderRest(authors: seq<Author>): string {
    if authors == [] then ""
    else "," + authors[0].gap + GroupText(authors[0]) + RenderRest(authors[1..])
  }

  function Render(authors: seq<Author>): string
    requires |authors| >= 1
  {
    GroupText(authors[0]) + RenderRest(authors[1..])
  }

  /** One group at the start of `t`: its two names and what follows it. The
      name runs are greedy and neither may contain `,`, `(` or `)`, so the
      scan is deterministic. */
  function ParseGroup(t: string): (r: Option<(string, string, string)>)
    ensures r.Some? ==> |r.value.2| < |t|
  {
    if t == [] || t[0] != '(' then None
    else
      var c := RunEnd(t, 1, NameChar);
      if c == 1 || c == |t| || t[c] != ',' || c + 1 == |t| || !IsSpace(t[c + 1]) then None
      else
        var d := RunEnd(t, c + 2, NameChar);
        if d == c + 2 || d == |t| || t[d] != ')' then None
        else Some((t[1..c], t[c + 1..d], t[d + 1..]))
  }

  /** What `ParseGroup` accepts is a well-formed group followed by the rest. */
  lemma ParseGroupSound(t: string)
    requires ParseGroup(t).Some?
    ensures var (last, first, rest) := ParseGroup(t).value;
      WellFormedAuthor(Author("", last, first)) && t == GroupText(Author("", last, first)) + rest
  {
    var c := RunEnd(t, 1, NameChar);
    var d := RunEnd(t, c + 2, NameChar);
    var last, first := t[1..c], t[c + 1..d];
    assert forall k :: 0 <= k < |first| - 1 ==> first[1..][k] == t[c + 2 + k];
    assert t == "(" + last + "," + first + ")" + t[d + 1..];
  }

  /** `(,\s*group)*` followed by the end of the text. */
  function ParseRest(t: string): Option<seq<Author>>
    decreases |t|
  {
    if t == [] then Some([])
    else if t[0] != ',' then None
    else
      var g := RunEnd(t, 1, IsSpace);
      match ParseGroup(t[g..])
      case None => None
      case Some((last, first, rest)) =>
        match ParseRest(rest)
        case None => None
        case Some(more) => Some([Author(t[1..g], last, first)] + more)
  }

  /** What `ParseRest` accepts is a list of well-formed groups that renders back to the text. */
  lemma {:induction false} ParseRestSound(t: string)
    requires ParseRest(t).Some?
    decreases |t|
    ensures forall k :: 0 <= k < |ParseRest(t).value| ==> WellFormedAuthor(ParseRest(t).value[k])
    ensures RenderRest(ParseRest(t).value) == t
  {
    if t != [] {
      var g := RunEnd(t, 1, IsSpace);
      var (last, first, rest) := ParseGroup(t[g..]).value;
      ParseGroupSound(t[g..]);
      ParseRestSound(rest);
      RestStepText(t, g, last, first, rest, ParseRest(rest).value);
      RestStepWellFormed(t, g, last, first, ParseRest(rest).value);
    }
  }

  /** One step of `ParseRest`: the parsed group and the parsed tail render back to the text. */
  lemma RestStepText(t: string, g: nat, last: string, first: string, rest: string, more: seq<Author>)
    requires t != [] && t[0] == ',' && 1 <= g <= |t|
    requires t[g..] == GroupText(Author("", last, first)) + rest
    requires RenderRest(more) == rest
    ensures RenderRest([Author(t[1..g], last, first)] + more) == t
  {
    var a := Author(t[1..g], last, first);
    assert t[..1] == ",";
    assert t == t[..1] + t[1..g] + t[g..];
    RenderRestCons(a, more);
  }

  /** One step of `ParseRest`: the gap is whitespace, so the new group is well formed. */
  lemma RestStepWellFormed(t: string, g: nat, last: string, first: string, more: seq<Author>)
    requires 1 <= g <= |t| && g == RunEnd(t, 1, IsSpace)
    requires WellFormedAuthor(Author("", last, first))
    requires forall k :: 0 <= k < |more| ==> WellFormedAuthor(more[k])
    ensures forall k :: 0 <= k < |more| + 1 ==> WellFormedAuthor(([Author(t[1..g], last, first)] + more)[k])
  {
    var a := Author(t[1..g], last, first);
    assert forall k :: 0 <= k < |a.gap| ==> a.gap[k] == t[1 + k];
    assert WellFormedAuthor(a);
    forall k | 0 <= k < |more| + 1 ensures WellFormedAuthor(([a] + more)[k]) {
      if k > 0 { assert ([a] + more)[k] == more[k - 1]; }
    }
  }

  lemma RenderRestCons(a: Author, more: seq<Author>)
    ensures RenderRest([a] + more) == "," + a.gap + GroupText(a) + RenderRest(more)
  {
    assert ([a] + more)[1..] == more;
  }

  /** After `,`, the whitespace gap ends where the next group's `(` begins. */
  lemma GapBeforeGroup(a: Author, tail: string)
    requires WellFormedAuthor(a)
    ensures var t := "," + a.gap + (GroupText(a) + tail);
      RunEnd(t, 1, IsSpace) == 1 + |a.gap| && t[1..1 + |a.gap|] == a.gap
      && t[1 + |a.gap|..] == GroupText(a) + tail
  {
    var t := "," + a.gap + (GroupText(a) + tail);
    forall k | 1 <= k < 1 + |a.gap| ensures IsSpace(t[k]) { assert t[k] == a.gap[k - 1]; }
    assert t[1 + |a.gap|] == '(';
    RunEndIs(t, 1, 1 + |a.gap|, IsSpace);
    assert t[1 + |a.gap|..] == GroupText(a) + tail;
  }

  /** The whole author list, up to the end of the text. */
  function ParseAuthors(s: string): Option<seq<Author>> {
    match ParseGroup(s)
    case None => None
    case Some((last, first, rest)) =>
      match ParseRest(rest)
      case None => None
      case Some(more) => Some([Author("", last, first)] + more)
  }

  /** What `ParseAuthors` accepts is a well-formed list that renders back to the text. */
  lemma ParseAuthorsSound(s: string)
    ensures ParseAuthors(s).Some? ==> WellFormedAuthors(ParseAuthors(s).value) && Render(ParseAuthors(s).value) == s
  {
    if ParseAuthors(s).Some? {
      var r := ParseAuthors(s).value;
      ParseGroupSound(s);
      ParseRestSound(ParseGroup(s).value.2);
      assert r[1..] == ParseRest(ParseGroup(s).value.2).value;
    }
  }

  /** `authors_pattern.match(s)`: an author list up to `$`. */
  predicate AuthorsOk(s: string) {
    ParseAuthors(s).Some? || (s != [] && s[|s| - 1] == '\n' && ParseAuthors(s[..|s| - 1]).Some?)
  }

  /** Where the parts of a written group sit. */
  lemma GroupTextLayout(a: Author, rest: string)
    requires |a.first| >= 1
    ensures var t, c := GroupText(a) + rest, 1 + |a.last|;
      var d := c + 1 + |a.first|;
      t[0] == '(' && t[c] == ',' && t[c + 1] == a.first[0] && t[d] == ')'
      && t[1..c] == a.last && t[c + 1..d] == a.first && t[d + 1..] == rest
      && (forall k :: 1 <= k < c ==> t[k] == a.last[k - 1])
      && (forall k :: c + 2 <= k < d ==> t[k] == a.first[1..][k - c - 2])
  {
  }

  lemma ParseGroupText(a: Author, rest: string)
    requires WellFormedAuthor(a)
    ensures ParseGroup(GroupText(a) + rest) == Some((a.last, a.first, rest))
  {
    var t := GroupText(a) + rest;
    var c := 1 + |a.last|;
    var d := c + 1 + |a.first|;
    GroupTextLayout(a, rest);
    RunEndIs(t, 1, c, NameChar);
    RunEndIs(t, c + 2, d, NameChar);
  }

  /** `ParseRest` on a group written after `,` and its gap. */
  lemma ParseRestCons(a: Author, tail: string, more: seq<Author>)
    requires WellFormedAuthor(a)
    requires ParseRest(tail) == Some(more)
    ensures ParseRest("," + a.gap + (GroupText(a) + tail)) == Some([a] + more)
  {
    GapBeforeGroup(a, tail);
    ParseGroupText(a, tail);
  }

  lemma {:induction false} ParseRestRender(authors: seq<Author>)
    requires forall k :: 0 <= k < |authors| ==> WellFormedAuthor(authors[k])
    ensures ParseRest(RenderRest(authors)) == Some(authors)
  {
    if authors != [] {
      var a := authors[0];
      ParseRestRender(authors[1..]);
      RenderRestCons(a, authors[1..]);
      assert RenderRest(authors) == "," + a.gap + (GroupText(a) + RenderRest(authors[1..]));
      ParseRestCons(a, RenderRest(authors[1..]), authors[1..]);
      assert [a] + authors[1..] == authors;
    }
  }

  /** Parsing a rendered author list gives the list back; with the contract of
      `ParseAuthors` this makes the two inverse, so `ParseAuthors` accepts
      exactly the rendered lists. */
  lemma ParseAuthorsRender(authors: seq<Author>)
    requires WellFormedAuthors(authors)
    ensures ParseAuthors(Render(authors)) == Some(authors)
  {
    ParseGroupText(authors[0], RenderRest(authors[1..]));
    ParseRestRender(authors[1..]);
    assert [authors[0]] + authors[1..] == authors;
  }

  /** A written author list ends with the `)` of its last group. */
  lemma {:induction false} RenderRestEnds(authors: seq<Author>)
    ensures RenderRest(authors) == [] || RenderRest(authors)[|RenderRest(authors)| - 1] == ')'
  {
    if authors != [] {
      RenderRestEnds(authors[1..]);
    }
  }

  /** A text passes the authors check exactly when its line, the text without
      one final line feed, is a list of one or more `(Last, First)` groups
      joined by `,` and optional whitespace. */
  lemma AuthorsOkIff(s: string)
    ensures AuthorsOk(s) <==> exists authors :: WellFormedAuthors(authors) && Render(authors) == Line(s)
  {
    ParseAuthorsSound(s);
    if s != [] && s[|s| - 1] == '\n' {
      ParseAuthorsSound(s[..|s| - 1]);
      if ParseAuthors(s).Some? {
        RenderRestEnds(ParseAuthors(s).value[1..]);
        assert false;
      }
    }
    if exists authors :: WellFormedAuthors(authors) && Render(authors) == Line(s) {
      var authors :| WellFormedAuthors(authors) && Render(authors) == Line(s);
      ParseAuthorsRender(authors);
    }
  }

  // ---------------------------------------------------------------------
  // validate_data (OWRelational.py:284-354)

  /** The fields `validate_data` reads. `idType` is the index of the ID-type
      combo box: 0 is DOI, any other index ISBN. */
  datatype Form = Form(correlationName: string, year: string, url: string, pythonFile: string,
                       authors: string, idType: int, idValue: string)

  const NameError := "Please enter a correlation name before proceeding."
  const YearError := "Year should be a four-digit integer."
  const UrlError := "Invalid URL format."
  const PythonFileError := "A valid Python file is required."
  const AuthorsError := "Authors should be in the format '(Last Name, First Name), ...'."
  const DoiError := "Invalid DOI format."
  const IsbnError := "Invalid ISBN format."
  const PythonFunctionError := "Please select a valid Python file containing a function."

  /** `year.isdigit() and len(year) == 4`: `isdigit` is false on the empty text. */
  predicate YearOk(year: string) { year != "" && AllDigits(year) && |year| == 4 }

  /** The identifier check: the DOI pattern for index 0, the ISBN pattern otherwise. */
  function IdErrors(idType: int, idValue: string): seq<string> {
    if idType == 0 then (if DoiOk(idValue) then [] else [DoiError])
    else if IsbnOk(idValue) then [] else [IsbnError]
  }

  /** The chosen file passes both Python-file checks: a path is set and
      `validate_python_file` found a function in it. */
  predicate PythonFileOk(form: Form, functionFound: Result<bool>) {
    form.pythonFile != "" && functionFound == Success(true)
  }

  /** The checks before the user-information check, in order; `found` says
      whether the Python file passed. */
  function FieldErrors(form: Form, found: bool): seq<string> {
    (if form.correlationName == "" then [NameError] else [])
    + (if YearOk(form.year) then [] else [YearError])
    + (if UrlOk(form.url) then [] else [UrlError])
    + (if found then [] else [PythonFileError])
  }

  /** The checks after the user-information check, in order. */
  function LaterErrors(form: Form, found: bool): seq<string> {
    (if AuthorsOk(form.authors) then [] else [AuthorsError])
    + IdErrors(form.idType, form.idValue)
    + (if found then [] else [PythonFunctionError])
  }

  /** The outcome of `validate_data`: `functionFound` is what
      `validate_python_file(form.pythonFile)` returns or raises; it is consulted
      only for a non-empty path, and an exception from opening the file ends
      the method at the first Python-file check. */
  function ValidateDataOf(form: Form, userInfo: Dict<string>, functionFound: Result<bool>): Result<seq<string>> {
    if form.pythonFile != "" && functionFound.Failure? then Failure(functionFound.error)
    else
      var found := PythonFileOk(form, functionFound);
      Success(FieldErrors(form, found) + UserInfoErrors(userInfo) + LaterErrors(form, found))
  }

  /** `validate_data`, appending to `errors` check by check. The two previews
      it writes are display only. */
  method ValidateData(form: Form, userInfo: Dict<string>, functionFound: Result<bool>) returns (r: Result<seq<string>>)
    ensures r == ValidateDataOf(form, userInfo, functionFound)
  {
    var found := false;
    if form.pythonFile != "" {
      if functionFound.Failure? {
        return Failure(functionFound.error);
      }
      found := functionFound.value;
    }
    assert found == PythonFileOk(form, functionFound);
    var errors := CheckFields(form, found);
    errors := errors + UserInfoErrors(userInfo);
    errors := CheckLater(errors, form, found);
    r := Success(errors);
  }

  /** The name, year, URL and first Python-file checks. */
  method CheckFields(form: Form, found: bool) returns (errors: seq<string>)
    ensures errors == FieldErrors(form, found)
  {
    errors := [];
    if form.correlationName == "" {
      errors := errors + [NameError];
    }
    if !YearOk(form.year) {
      errors := errors + [YearError];
    }
    if !UrlOk(form.url) {
      errors := errors + [UrlError];
    }
    if !found {
      errors := errors + [PythonFileError];
    }
  }

  /** The authors, identifier and second Python-file checks, appended to `before`. */
  method CheckLater(before: seq<string>, form: Form, found: bool) returns (errors: seq<string>)
    ensures errors == before + LaterErrors(form, found)
  {
    errors := before;
    if !AuthorsOk(form.authors) {
      errors := errors + [AuthorsError];
    }
    ghost var afterAuthors := errors;
    errors := errors + IdErrors(form.idType, form.idValue);
    ghost var afterId := errors;
    if !found {
      errors := errors + [PythonFunctionError];
    }
    LaterErrorsSplit(before, form, found);
  }

  lemma LaterErrorsSplit(before: seq<string>, form: Form, found: bool)
    ensures before + LaterErrors(form, found) == before + (if AuthorsOk(form.authors) then [] else [AuthorsError])
      + IdErrors(form.idType, form.idValue) + (if found then [] else [PythonFunctionError])
  {
    ConcatAssoc4(before, if AuthorsOk(form.authors) then [] else [AuthorsError], IdErrors(form.idType, form.idValue),
      if found then [] else [PythonFunctionError]);
  }

  /** The list is empty exactly when every check passes. */
  lemma ValidIff(form: Form, userInfo: Dict<string>, functionFound: Result<bool>)
    ensures ValidateDataOf(form, userInfo, functionFound) == Success([]) <==>
      form.correlationName != "" && YearOk(form.year) && UrlOk(form.url)
      && PythonFileOk(form, functionFound) && userInfo != []
      && (forall k :: k in RequiredUserFields ==> !Blank(userInfo, k))
      && AuthorsOk(form.authors)
      && (if form.idType == 0 then DoiOk(form.idValue) else IsbnOk(form.idValue))
  {
  }

  /** A missing or function-less Python file is reported twice: right after
      the URL check and again as the last error; a file that cannot be opened
      raises instead. */
  lemma PythonFileReportedTwice(form: Form, userInfo: Dict<string>, functionFound: Result<bool>)
    requires form.pythonFile == "" || functionFound.Success?
    requires !PythonFileOk(form, functionFound)
    ensures var r := ValidateDataOf(form, userInfo, functionFound);
      r.Success? && |r.value| >= 2 && r.value[|r.value| - 1] == PythonFunctionError
      && PythonFileError in r.value
  {
  }

  /** The checks report in their order: the first reported error is the name
      error when the name is empty, otherwise the year error when the year is bad. */
  lemma FirstErrorInOrder(form: Form, userInfo: Dict<string>, functionFound: Result<bool>)
    requires form.pythonFile == "" || functionFound.Success?
    ensures var r := ValidateDataOf(form, userInfo, functionFound);
      r.Success? && (form.correlationName == "" ==> r.value[0] == NameError)
      && (form.correlationName != "" && !YearOk(form.year) ==> r.value[0] == YearError)
  {
  }

  /** Opening the chosen file fails: the exception propagates. */
  lemma UnreadableFileRaises(form: Form, userInfo: Dict<string>, e: PyError)
    requires form.pythonFile != ""
    ensures ValidateDataOf(form, userInfo, Failure(e)) == Failure(e)
  {
  }

  // ---------------------------------------------------------------------
  // The preview records of update_preview (OWRelational.py:392-418)

  /** `{k: v for k, v in d.items() if v is not None and v != ""}`. */
  function DropEmpty(entries: seq<(string, Option<string>)>): (r: Dict<string>)
    ensures forall k, v :: (k, v) in r <==> (k, Some(v)) in entries && v != ""
    ensures |r| <= |entries|
  {
    if entries == [] then []
    else
      var rest := DropEmpty(entries[1..]);
      assert forall e :: e in entries <==> e == entries[0] || e in entries[1..];
      match entries[0].1
      case Some(v) => if v != "" then [(entries[0].0, v)] + rest else rest
      case None => rest
  }

  /** `correlation_info`: the correlation name and the Python file path, if set. */
  function CorrelationInfo(name: string, pythonFile: string): Dict<string> {
    DropEmpty([("Correlation Name", Some(name)), ("Python file path", Some(pythonFile))])
  }

  /** The reference fields `update_preview` reads. `referenceType` 0 is an
      article, any other index a book. */
  datatype Reference = Reference(referenceType: int, title: string, authors: string, journal: string,
                                 publisher: string, edition: string, idType: int, idValue: string,
                                 url: string, year: string, equationRef: string)

  /** `reference_info` before filtering. */
  function ReferenceEntries(ref: Reference): seq<(string, Option<string>)> {
    [("Reference Type", Some(if ref.referenceType == 0 then "Article" else "Book")),
     ("Title", Some(ref.title)),
     ("Authors", Some(ref.authors)),
     ("Journal", if ref.referenceType == 0 then Some(ref.journal) else None),
     ("Publisher", if ref.referenceType == 1 then Some(ref.publisher) else None),
     ("Edition", if ref.referenceType == 1 then Some(ref.edition) else None),
     ("ID Type", Some(if ref.idType == 0 then "DOI" else "ISBN")),
     ("ID Value", Some(ref.idValue)),
     ("URL", Some(ref.url)),
     ("Year", Some(ref.year)),
     ("Equation Ref. Number", Some(ref.equationRef))]
  }

  /** `reference_info` after filtering. */
  function ReferenceInfo(ref: Reference): Dict<string> {
    DropEmpty(ReferenceEntries(ref))
  }

  /** An entry whose key occurs once in `keys`, at `i`: membership of that
      key's pairs is decided there. */
  lemma KeyedAt(entries: seq<(string, Option<string>)>, keys: seq<string>, i: nat, k: string, v: string)
    requires |keys| == |entries| && forall j :: 0 <= j < |entries| ==> entries[j].0 == keys[j]
    requires i < |keys| && keys[i] == k
    requires forall j :: 0 <= j < |keys| && j != i ==> keys[j] != k
    ensures (k, v) in DropEmpty(entries) <==> entries[i].1 == Some(v) && v != ""
  {
    if (k, Some(v)) in entries {
      var j :| 0 <= j < |entries| && entries[j] == (k, Some(v));
    }
  }

  const ReferenceKeys: seq<string> := ["Reference Type", "Title", "Authors", "Journal", "Publisher", "Edition",
    "ID Type", "ID Value", "URL", "Year", "Equation Ref. Number"]

  lemma ReferenceKeysOf(ref: Reference)
    ensures |ReferenceEntries(ref)| == |ReferenceKeys|
    ensures forall j :: 0 <= j < |ReferenceKeys| ==> ReferenceEntries(ref)[j].0 == ReferenceKeys[j]
  {
  }

  /** No kept entry is empty. */
  lemma ReferenceInfoNonEmpty(ref: Reference)
    ensures forall k, v :: (k, v) in ReferenceInfo(ref) ==> v != ""
  {
  }

  /** The journal is kept only for an article, and only when filled in. */
  lemma JournalOnlyForArticle(ref: Reference, v: string)
    ensures ("Journal", v) in ReferenceInfo(ref) <==> ref.referenceType == 0 && v == ref.journal && v != ""
  {
    ReferenceKeysOf(ref);
    KeyedAt(ReferenceEntries(ref), ReferenceKeys, 3, "Journal", v);
  }

  /** Publisher and edition are kept only for a book (index 1), and only when filled in. */
  lemma PublisherOnlyForBook(ref: Reference, v: string)
    ensures ("Publisher", v) in ReferenceInfo(ref) <==> ref.referenceType == 1 && v == ref.publisher && v != ""
  {
    ReferenceKeysOf(ref);
    KeyedAt(ReferenceEntries(ref), ReferenceKeys, 4, "Publisher", v);
  }

  lemma EditionOnlyForBook(ref: Reference, v: string)
    ensures ("Edition", v) in ReferenceInfo(ref) <==> ref.referenceType == 1 && v == ref.edition && v != ""
  {
    ReferenceKeysOf(ref);
    KeyedAt(ReferenceEntries(ref), ReferenceKeys, 5, "Edition", v);
  }

  /** The reference type and the ID type are always present. */
  lemma ReferenceTypeAlwaysKept(ref: Reference)
    ensures ("Reference Type", if ref.referenceType == 0 then "Article" else "Book") in ReferenceInfo(ref)
  {
    ReferenceKeysOf(ref);
    KeyedAt(ReferenceEntries(ref), ReferenceKeys, 0, "Reference Type", if ref.referenceType == 0 then "Article" else "Book");
  }

  lemma IdTypeAlwaysKept(ref: Reference)
    ensures ("ID Type", if ref.idType == 0 then "DOI" else "ISBN") in ReferenceInfo(ref)
  {
    ReferenceKeysOf(ref);
    KeyedAt(ReferenceEntries(ref), ReferenceKeys, 6, "ID Type", if ref.idType == 0 then "DOI" else "ISBN");
  }

  /** The correlation record keeps exactly the filled-in fields. */
  lemma CorrelationInfoKept(name: string, pythonFile: string, v: string)
    ensures ("Correlation Name", v) in CorrelationInfo(name, pythonFile) <==> v == name && name != ""
    ensures ("Python file path", v) in CorrelationInfo(name, pythonFile) <==> v == pythonFile && pythonFile != ""
  {
  }
}
