/** The check, shared by the registry (OWMetaDataRegistry.py:184-185) and the
    calibration widget (OWReadAspherix.py:582-587), that a record's `meta_info`
    holds the three keys the warehouse relies on. */
module MetaInfo {
  import opened Base
  import opened Dicts
  import opened Json

  const RequiredMetaKeys: seq<string> := ["version", "doi", "Archived time"]

  /** Python `all(key in hay for key in keys)`: stops at the first `False`, and
      `in` raises for a scalar `hay`. */
  function AllIn(keys: seq<string>, hay: Json): (r: Result<bool>)
    ensures r.Failure? <==> keys != [] && !(hay.JStr? || hay.JArr? || hay.JObj?)
    ensures r.Success? ==> (r.value <==> forall k :: 0 <= k < |keys| ==> PyIn(keys[k], hay) == Success(true))
  {
    if keys == [] then Success(true)
    else
      var found :- PyIn(keys[0], hay);
      if !found then Success(false)
      else
        var rest := AllIn(keys[1..], hay);
        assert rest.Success? ==> (rest.value <==> forall k :: 1 <= k < |keys| ==> PyIn(keys[k], hay) == Success(true)) by {
          if rest.Success? {
            forall k | 1 <= k < |keys| ensures keys[k] == keys[1..][k - 1] { }
          }
        }
        rest
  }

  lemma AllInRequired(meta: Json)
    ensures AllIn(RequiredMetaKeys, meta).Success? ==> (AllIn(RequiredMetaKeys, meta).value <==>
      PyIn("version", meta) == Success(true) && PyIn("doi", meta) == Success(true) && PyIn("Archived time", meta) == Success(true))
  {
    var r := AllIn(RequiredMetaKeys, meta);
    if r.Success? {
      if r.value {
        assert PyIn(RequiredMetaKeys[0], meta) == Success(true);
        assert PyIn(RequiredMetaKeys[1], meta) == Success(true);
        assert PyIn(RequiredMetaKeys[2], meta) == Success(true);
      } else {
        var k :| 0 <= k < 3 && PyIn(RequiredMetaKeys[k], meta) != Success(true);
        assert k == 0 || k == 1 || k == 2;
      }
    }
  }

  /** The three keys are all `in` the `meta_info` value. */
  function HasRequiredKeys(meta: Json): (r: Result<bool>)
    ensures r.Failure? <==> !(meta.JStr? || meta.JArr? || meta.JObj?)
    ensures meta.JObj? ==> r == Success("version" in Keys(meta.entries) && "doi" in Keys(meta.entries) && "Archived time" in Keys(meta.entries))
  {
    AllInRequired(meta);
    AllIn(RequiredMetaKeys, meta)
  }
}
