/** Python's `int(text)` and `float(text)` on ASCII text, and the value
    `parse_value` makes of a token: an int if `int()` accepts it, else a float if
    `float()` accepts it, else the text itself. */
module PyNumbers {
  import opened Text
  import opened Json

  /** Digits, with single underscores allowed between two digits. */
  predicate IsDigitPart(u: string) {
    u != [] && IsDigit(u[0]) && IsDigit(u[|u| - 1])
    && (forall k :: 0 <= k < |u| ==> IsDigit(u[k]) || u[k] == '_')
    && (forall k :: 0 <= k < |u| - 1 ==> u[k] == '_' ==> u[k + 1] != '_')
  }

  function DropSign(t: string): string {
    if t != [] && (t[0] == '+' || t[0] == '-') then t[1..] else t
  }

  function RemoveUnderscores(u: string): (r: string)
    ensures (forall k :: 0 <= k < |u| ==> IsDigit(u[k]) || u[k] == '_') ==> AllDigits(r)
    ensures '_' !in u ==> r == u
  {
    if u == [] then [] else (if u[0] == '_' then [] else [u[0]]) + RemoveUnderscores(u[1..])
  }

  /** The number a string of decimal digits denotes. */
  function DigitsValue(s: string): (n: nat)
    requires AllDigits(s)
  {
    if s == [] then 0
    else
      assert IsDigit(s[|s| - 1]);
      DigitsValue(s[..|s| - 1]) * 10 + (s[|s| - 1] as int - '0' as int)
  }

  /** `int(s)` succeeds. */
  predicate IsIntLiteral(s: string) {
    IsDigitPart(DropSign(Strip(s)))
  }

  /** The value of `int(s)`. */
  function IntValue(s: string): int
    requires IsIntLiteral(s)
  {
    var t := Strip(s);
    var n: int := DigitsValue(RemoveUnderscores(DropSign(t)));
    if t[0] == '-' then -n else n
  }

  /** `a[.b]`, `a.` or `.b` with digit parts a and b. */
  predicate IsMantissa(m: string) {
    match IndexOf(m, '.')
    case None => IsDigitPart(m)
    case Some(i) =>
      var a, b := m[..i], m[i + 1..];
      (a == [] || IsDigitPart(a)) && (b == [] || IsDigitPart(b)) && (a != [] || b != [])
  }

  /** Python's `float()` grammar after stripping and the sign, lower-cased. */
  predicate IsUnsignedFloat(lu: string) {
    lu == "inf" || lu == "infinity" || lu == "nan" ||
    match IndexOf(lu, 'e')
    case None => IsMantissa(lu)
    case Some(i) => IsMantissa(lu[..i]) && IsDigitPart(DropSign(lu[i + 1..]))
  }

  /** `float(s)` succeeds. */
  predicate IsFloatLiteral(s: string) {
    IsUnsignedFloat(Lower(DropSign(Strip(s))))
  }

  /** `parse_value` (readAspehrix.py, OWReadAspherix.py). */
  function ParseValue(s: string): (v: Json)
    ensures v.JInt? <==> IsIntLiteral(s)
    ensures v.JFloat? <==> !IsIntLiteral(s) && IsFloatLiteral(s)
    ensures v.JStr? <==> !IsIntLiteral(s) && !IsFloatLiteral(s)
    ensures v.JFloat? ==> v.text == s
    ensures v.JStr? ==> v.s == s
  {
    if IsIntLiteral(s) then JInt(IntValue(s))
    else if IsFloatLiteral(s) then JFloat(s)
    else JStr(s)
  }

  lemma {:induction false} DigitsValueOfNat(n: nat)
    ensures DigitsValue(NatToString(n)) == n
  {
    var s := NatToString(n);
    if n >= 10 {
      DigitsValueOfNat(n / 10);
      assert s[..|s| - 1] == NatToString(n / 10);
    }
  }

  /** The decimal text of a natural number parses back to that number. */
  lemma ParseValueOfNat(n: nat)
    ensures ParseValue(NatToString(n)) == JInt(n)
  {
    var s := NatToString(n);
    StripKeepsUnpadded(s);
    assert DropSign(s) == s;
    assert RemoveUnderscores(s) == s;
    DigitsValueOfNat(n);
  }

  /** Whatever `int()` accepts, `float()` accepts too. */
  lemma IntLiteralIsFloatLiteral(s: string)
    requires IsIntLiteral(s)
    ensures IsFloatLiteral(s)
  {
    var u := DropSign(Strip(s));
    var lu := Lower(u);
    assert lu == u;
    assert 'e' !in u;
    assert '.' !in u;
  }
}
