/** The values a JSON document loads to in Python, with the parts of Python's
    value semantics the core relies on: truthiness, `str()`, `in`, `d[k]`,
    `d.get(k, default)`, `>` and `+ 1`. */
module Json {
  import opened Base
  import opened Text
  import opened Dicts

  /** `JFloat` keeps the literal that denotes the number; its value is not interpreted. */
  datatype Json =
    | JNull
    | JBool(b: bool)
    | JInt(i: int)
    | JFloat(text: string)
    | JStr(s: string)
    | JArr(items: seq<Json>)
    | JObj(entries: seq<(string, Json)>)

  predicate IsContainer(j: Json) { j.JArr? || j.JObj? }

  // ---------------------------------------------------------------------
  // Truthiness

  predicate NotExponentMark(c: char) { c != 'e' && c != 'E' }

  /** A character a zero mantissa may hold: a zero digit, the point, an
      underscore, a sign or surrounding whitespace. */
  predicate ZeroMantissaChar(c: char) {
    c == '0' || c == '.' || c == '_' || c == '+' || c == '-' || IsSpace(c)
  }

  /** A float literal denotes zero when its mantissa, the text before the
      first `e` or `E`, has no non-zero digit; the exponent does not matter.
      `inf` and `nan` contain letters, so they are not zero. */
  predicate FloatTextIsZero(t: string) {
    var m := RunEnd(t, 0, NotExponentMark);
    forall k :: 0 <= k < m ==> ZeroMantissaChar(t[k])
  }

  /** Python `bool(j)`. */
  predicate Truthy(j: Json) {
    match j
    case JNull => false
    case JBool(b) => b
    case JInt(i) => i != 0
    case JFloat(t) => !FloatTextIsZero(t)
    case JStr(s) => s != ""
    case JArr(items) => items != []
    case JObj(entries) => entries != []
  }

  /** The exponent never decides whether a float is true: a mantissa followed
      by `e` or `E` and any exponent is true exactly when the mantissa alone is. */
  lemma ExponentIgnored(mantissa: string, mark: char, exponent: string)
    requires forall k :: 0 <= k < |mantissa| ==> NotExponentMark(mantissa[k])
    requires !NotExponentMark(mark)
    ensures Truthy(JFloat(mantissa + [mark] + exponent)) == Truthy(JFloat(mantissa))
  {
    var t := mantissa + [mark] + exponent;
    assert t[|mantissa|] == mark;
    RunEndIs(t, 0, |mantissa|, NotExponentMark);
    RunEndIs(mantissa, 0, |mantissa|, NotExponentMark);
    assert forall k :: 0 <= k < |mantissa| ==> t[k] == mantissa[k];
  }

  /** A float literal without exponent is false exactly when every character
      of it may stand in a zero. */
  lemma MantissaTruth(mantissa: string)
    requires forall k :: 0 <= k < |mantissa| ==> NotExponentMark(mantissa[k])
    ensures !Truthy(JFloat(mantissa)) <==> forall k :: 0 <= k < |mantissa| ==> ZeroMantissaChar(mantissa[k])
  {
    RunEndIs(mantissa, 0, |mantissa|, NotExponentMark);
  }

  /** `bool(0e5)` is false although the exponent has a non-zero digit. */
  lemma ZeroWithExponentIsFalse()
    ensures !Truthy(JFloat("0e5"))
  {
    MantissaTruth("0");
    assert "0e5" == "0" + ['e'] + "5";
    ExponentIgnored("0", 'e', "5");
  }

  /** `bool(-0.0E-3)` is false. */
  lemma NegativeZeroIsFalse()
    ensures !Truthy(JFloat("-0.0E-3"))
  {
    MantissaTruth("-0.0");
    assert "-0.0E-3" == "-0.0" + ['E'] + "-3";
    ExponentIgnored("-0.0", 'E', "-3");
  }

  /** `bool(1e-9)` and `bool(inf)` are true. */
  lemma NonZeroFloatsAreTrue()
    ensures Truthy(JFloat("1e-9")) && Truthy(JFloat("inf"))
  {
    MantissaTruth("1");
    assert "1e-9" == "1" + ['e'] + "-9";
    ExponentIgnored("1", 'e', "-9");
    MantissaTruth("inf");
    assert !ZeroMantissaChar("inf"[0]);
  }

  // ---------------------------------------------------------------------
  // str() and repr()

  function HexDigit(d: nat): char
    requires d < 16
  {
    "0123456789abcdef"[d]
  }

  /** One character inside a Python string literal quoted with `q`. */
  function EscapeChar(c: char, q: char): string {
    if c == '\\' then "\\\\"
    else if c == q then ['\\', q]
    else if c == '\n' then "\\n"
    else if c == '\r' then "\\r"
    else if c == '\t' then "\\t"
    else if c < ' ' || c == '\U{7F}' then ['\\', 'x', HexDigit(c as nat / 16), HexDigit(c as nat % 16)]
    else [c]
  }

  function EscapeAll(s: string, q: char): string {
    if s == [] then "" else EscapeChar(s[0], q) + EscapeAll(s[1..], q)
  }

  /** Python `repr(s)` for a string: single quotes unless the text has a single
      quote and no double quote. */
  function StrRepr(s: string): (r: string)
    ensures |r| >= 2
  {
    var q := if '\'' in s && '"' !in s then '"' else '\'';
    [q] + EscapeAll(s, q) + [q]
  }

  /** Python `str(j)`; inside containers the elements are shown by `repr`. */
  function Str(j: Json): string
    decreases j, 1
  {
    match j
    case JNull => "None"
    case JBool(b) => if b then "True" else "False"
    case JInt(i) => IntToString(i)
    case JFloat(t) => t
    case JStr(s) => s
    case JArr(items) => "[" + Join(", ", ReprItems(j, items)) + "]"
    case JObj(entries) => "{" + Join(", ", ReprEntries(j, entries)) + "}"
  }

  function Repr(j: Json): string
    decreases j, 2
  {
    if j.JStr? then StrRepr(j.s) else Str(j)
  }

  function ReprItems(parent: Json, items: seq<Json>): seq<string>
    requires forall k :: 0 <= k < |items| ==> items[k] < parent
    decreases parent, 0, |items|
  {
    if items == [] then [] else [Repr(items[0])] + ReprItems(parent, items[1..])
  }

  function ReprEntries(parent: Json, entries: seq<(string, Json)>): seq<string>
    requires forall k :: 0 <= k < |entries| ==> entries[k].1 < parent
    decreases parent, 0, |entries|
  {
    if entries == [] then []
    else [StrRepr(entries[0].0) + ": " + Repr(entries[0].1)] + ReprEntries(parent, entries[1..])
  }

  /** `str()` of scalars: `None`, `False` and the decimal integer with its sign. */
  lemma StrScalars()
    ensures Str(JNull) == "None" && Str(JBool(false)) == "False" && Str(JInt(-12)) == "-12"
  {
    assert NatToString(12) == "12";
  }

  /** `repr` of a text without quotes puts it in single quotes. */
  lemma ReprPlainText()
    ensures StrRepr("a") == "'a'"
  {
    assert '\'' !in "a";
    assert EscapeChar('a', '\'') == "a";
    assert EscapeAll("a"[1..], '\'') == "";
  }

  /** `str()` of a list shows a text item by its `repr`: `str(['a', 1])` is `['a', 1]`. */
  lemma StrOfList()
    ensures Str(JArr([JStr("a"), JInt(1)])) == "['a', 1]"
  {
    var j := JArr([JStr("a"), JInt(1)]);
    ReprPlainText();
    assert NatToString(1) == "1";
    assert ReprItems(j, [JStr("a"), JInt(1)]) == ["'a'", "1"];
  }

  // ---------------------------------------------------------------------
  // Operators

  /** Python `needle in hay` for a string needle. */
  function PyIn(needle: string, hay: Json): (r: Result<bool>)
    ensures r.Failure? <==> !(hay.JStr? || hay.JArr? || hay.JObj?)
    ensures hay.JObj? ==> r == Success(needle in Keys(hay.entries))
    ensures hay.JArr? ==> r == Success(JStr(needle) in hay.items)
  {
    match hay
    case JStr(s) => Success(Contains(s, needle))
    case JArr(items) => Success(JStr(needle) in items)
    case JObj(entries) => Success(needle in Keys(entries))
    case _ => Failure(TypeError)
  }

  /** Python `j[key]` for a string key. */
  function PyIndex(j: Json, key: string): (r: Result<Json>)
    ensures r.Success? <==> j.JObj? && key in Keys(j.entries)
    ensures r.Success? ==> Get(j.entries, key) == Some(r.value)
    ensures j.JObj? && key !in Keys(j.entries) ==> r == Failure(KeyError)
  {
    if !j.JObj? then Failure(TypeError)
    else
      match Get(j.entries, key)
      case Some(v) => Success(v)
      case None => Failure(KeyError)
  }

  /** Python `j.get(key, default)`: only dictionaries have `get`. */
  function PyGet(j: Json, key: string, default: Json): (r: Result<Json>)
    ensures r.Failure? <==> !j.JObj?
    ensures j.JObj? && key !in Keys(j.entries) ==> r == Success(default)
  {
    match j
    case JObj(entries) => Success(Get(entries, key).GetOr(default))
    case _ => Failure(AttributeError)
  }

  /** The integer a Python `bool` or `int` stands for in arithmetic. */
  function AsInt(j: Json): int
    requires j.JBool? || j.JInt?
  {
    if j.JBool? then (if j.b then 1 else 0) else j.i
  }

  /** Python `a > b` over loaded JSON values. Lists compare element-wise and
      floats by value, neither of which is interpreted here. */
  function PyGreater(a: Json, b: Json): (r: Result<bool>)
    ensures (a.JInt? || a.JBool?) && (b.JInt? || b.JBool?) ==> r == Success(AsInt(a) > AsInt(b))
    ensures a.JStr? && b.JStr? ==> r == Success(LexLess(b.s, a.s))
    ensures a.JNull? || b.JNull? || a.JObj? || b.JObj? ==> r == Failure(TypeError)
  {
    if (a.JInt? || a.JBool?) && (b.JInt? || b.JBool?) then Success(AsInt(a) > AsInt(b))
    else if a.JStr? && b.JStr? then Success(LexLess(b.s, a.s))
    else if a.JFloat? && (b.JFloat? || b.JInt? || b.JBool?) then Failure(NotModelled)
    else if b.JFloat? && (a.JInt? || a.JBool?) then Failure(NotModelled)
    else if a.JArr? && b.JArr? then Failure(NotModelled)
    else Failure(TypeError)
  }

  /** Python `j + 1`. */
  function PyAddOne(j: Json): (r: Result<Json>)
    ensures j.JInt? ==> r == Success(JInt(j.i + 1))
    ensures j.JStr? || j.JNull? || j.JArr? || j.JObj? ==> r == Failure(TypeError)
  {
    match j
    case JInt(i) => Success(JInt(i + 1))
    case JBool(b) => Success(JInt(if b then 2 else 1))
    case JFloat(_) => Failure(NotModelled)
    case _ => Failure(TypeError)
  }

  /** An integer plus one. */
  lemma AddOneInt(i: int)
    ensures PyAddOne(JInt(i)) == Success(JInt(i + 1))
  {
  }

  // ---------------------------------------------------------------------
  // Reachability through containers

  /** `sub` is `j` itself or is reached from it through dict values and list items. */
  ghost predicate Within(sub: Json, j: Json)
    decreases j
  {
    sub == j
    || (j.JArr? && exists k :: 0 <= k < |j.items| && Within(sub, j.items[k]))
    || (j.JObj? && exists k :: 0 <= k < |j.entries| && Within(sub, j.entries[k].1))
  }
}
