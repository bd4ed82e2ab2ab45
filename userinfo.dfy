/** The user-information check that the relational and the calibration widgets
    share (OWRelational.py:306-314, OWReadAspherix.py:449-457). The user record
    is the dictionary the User widget sends, with string values. */
module UserInfo {
  import opened Base
  import opened Text
  import opened Dicts

  const RequiredUserFields: seq<string> := ["First Name", "Last Name", "Email", "Affiliation"]

  /** `not info.get(key)`: the field is absent or empty. */
  predicate Blank(info: Dict<string>, key: string) { Get(info, key).GetOr("") == "" }

  /** `[key for key in fields if not info.get(key)]`. */
  function MissingFields(info: Dict<string>, fields: seq<string>): (r: seq<string>)
    ensures forall k :: k in r <==> k in fields && Blank(info, k)
    ensures |r| <= |fields|
  {
    if fields == [] then []
    else (if Blank(info, fields[0]) then [fields[0]] else []) + MissingFields(info, fields[1..])
  }

  /** The filter keeps the order of the fields: it distributes over concatenation. */
  lemma {:induction false} MissingFieldsAppend(info: Dict<string>, a: seq<string>, b: seq<string>)
    ensures MissingFields(info, a + b) == MissingFields(info, a) + MissingFields(info, b)
  {
    if a == [] {
      assert a + b == b;
    } else {
      assert (a + b)[0] == a[0];
      assert (a + b)[1..] == a[1..] + b;
      var head := if Blank(info, a[0]) then [a[0]] else [];
      assert MissingFields(info, a + b) == head + MissingFields(info, a[1..] + b);
      MissingFieldsAppend(info, a[1..], b);
      var x, y := MissingFields(info, a[1..]), MissingFields(info, b);
      assert head + (x + y) == (head + x) + y;
    }
  }

  const MissingFieldsPrefix := "Missing user information for the following fields: "

  /** The errors the user check adds: none, the empty-record error, or one message
      naming every blank field. */
  function UserInfoErrors(info: Dict<string>): (r: seq<string>)
    ensures info == [] ==> r == ["User data is required."]
    ensures info != [] ==> (r == [] <==> forall k :: k in RequiredUserFields ==> !Blank(info, k))
    ensures info != [] && r != [] ==> r == [MissingFieldsPrefix + Join(", ", MissingFields(info, RequiredUserFields))]
    ensures |r| <= 1
  {
    if info == [] then ["User data is required."]
    else
      var missing := MissingFields(info, RequiredUserFields);
      if missing != [] then
        assert missing[0] in missing;
        [MissingFieldsPrefix + Join(", ", missing)]
      else
        assert forall k :: k in RequiredUserFields ==> !Blank(info, k) by {
          forall k | k in RequiredUserFields ensures !Blank(info, k) {
            assert k !in missing;
          }
        }
        []
  }
}
