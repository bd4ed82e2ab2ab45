/** The metadata warehouse lookup widget (OWLookupMetadataWarehouse.py:116-208):
    per-type file counts and key sets, and the two searches. The directory is
    its listing in `os.listdir` order, each name with the JSON it loads to. */
module WarehouseLookup {
  import opened Base
  import opened Text
  import opened Dicts
  import opened Json

  type Directory = seq<(string, Json)>

  /** The file types a warehouse name may start with. */
  const Prefixes: set<string> := {"exp", "rel", "calib"}

  // ---------------------------------------------------------------------
  // Keys at any depth (`extract_keys`)

  /** Every dictionary key of `j`, descending through dictionary values and list items. */
  function AllKeys(j: Json): set<string>
    decreases j, 1
  {
    match j
    case JObj(entries) => EntriesKeys(j, entries)
    case JArr(items) => ItemsKeys(j, items)
    case _ => {}
  }

  function EntriesKeys(parent: Json, entries: seq<(string, Json)>): set<string>
    requires forall k :: 0 <= k < |entries| ==> entries[k].1 < parent
    decreases parent, 0, |entries|
  {
    if entries == [] then {}
    else
      var last := entries[|entries| - 1];
      EntriesKeys(parent, entries[..|entries| - 1]) + {last.0} + AllKeys(last.1)
  }

  function ItemsKeys(parent: Json, items: seq<Json>): set<string>
    requires forall k :: 0 <= k < |items| ==> items[k] < parent
    decreases parent, 0, |items|
  {
    if items == [] then {}
    else ItemsKeys(parent, items[..|items| - 1]) + AllKeys(items[|items| - 1])
  }

  /** `extract_keys(data, keys_set)`: adds every key of `data` to the set it is given. */
  method ExtractKeys(data: Json, keys: set<string>) returns (r: set<string>)
    ensures r == keys + AllKeys(data)
    decreases data
  {
    r := keys;
    match data {
      case JObj(entries) =>
        var i := 0;
        while i < |entries|
          invariant 0 <= i <= |entries|
          invariant r == keys + EntriesKeys(data, entries[..i])
        {
          assert entries[..i + 1][..i] == entries[..i];
          r := r + {entries[i].0};
          r := ExtractKeys(entries[i].1, r);
          i := i + 1;
        }
        assert entries[..i] == entries;
      case JArr(items) =>
        var i := 0;
        while i < |items|
          invariant 0 <= i <= |items|
          invariant r == keys + ItemsKeys(data, items[..i])
        {
          assert items[..i + 1][..i] == items[..i];
          r := ExtractKeys(items[i], r);
          i := i + 1;
        }
        assert items[..i] == items;
      case _ =>
    }
  }

  /** `sub` is a dictionary that has `key` among its own keys. */
  ghost predicate HasKey(sub: Json, key: string) { sub.JObj? && key in Keys(sub.entries) }

  lemma {:induction false} EntriesKeysIff(parent: Json, entries: seq<(string, Json)>, k: string)
    requires forall i :: 0 <= i < |entries| ==> entries[i].1 < parent
    ensures k in EntriesKeys(parent, entries) <==> exists i :: 0 <= i < |entries| && (entries[i].0 == k || k in AllKeys(entries[i].1))
    decreases |entries|
  {
    if entries != [] {
      var init := entries[..|entries| - 1];
      EntriesKeysIff(parent, init, k);
      if exists i :: 0 <= i < |entries| && (entries[i].0 == k || k in AllKeys(entries[i].1)) {
        var i :| 0 <= i < |entries| && (entries[i].0 == k || k in AllKeys(entries[i].1));
        if i < |init| { assert init[i] == entries[i]; }
      }
      if exists i :: 0 <= i < |init| && (init[i].0 == k || k in AllKeys(init[i].1)) {
        var i :| 0 <= i < |init| && (init[i].0 == k || k in AllKeys(init[i].1));
        assert entries[i] == init[i];
      }
    }
  }

  lemma {:induction false} ItemsKeysIff(parent: Json, items: seq<Json>, k: string)
    requires forall i :: 0 <= i < |items| ==> items[i] < parent
    ensures k in ItemsKeys(parent, items) <==> exists i :: 0 <= i < |items| && k in AllKeys(items[i])
    decreases |items|
  {
    if items != [] {
      var init := items[..|items| - 1];
      ItemsKeysIff(parent, init, k);
      if exists i :: 0 <= i < |items| && k in AllKeys(items[i]) {
        var i :| 0 <= i < |items| && k in AllKeys(items[i]);
        if i < |init| { assert init[i] == items[i]; }
      }
      if exists i :: 0 <= i < |init| && k in AllKeys(init[i]) {
        var i :| 0 <= i < |init| && k in AllKeys(init[i]);
        assert items[i] == init[i];
      }
    }
  }

  /** A key is collected exactly when some dictionary reachable through
      dictionaries and lists has it; scalars contribute nothing. */
  lemma {:induction false} AllKeysIff(j: Json, k: string)
    ensures k in AllKeys(j) <==> exists sub :: Within(sub, j) && HasKey(sub, k)
    decreases j, 1
  {
    match j
    case JObj(entries) =>
      EntriesKeysIff(j, entries, k);
      if k in AllKeys(j) {
        ObjKeyFound(j, k);
      }
      if exists sub :: Within(sub, j) && HasKey(sub, k) {
        ObjKeyCollected(j, k);
      }
    case JArr(items) =>
      ItemsKeysIff(j, items, k);
      if k in AllKeys(j) {
        ArrKeyFound(j, k);
      }
      if exists sub :: Within(sub, j) && HasKey(sub, k) {
        ArrKeyCollected(j, k);
      }
    case _ =>
  }

  lemma {:induction false} ObjKeyFound(j: Json, k: string)
    requires j.JObj? && k in AllKeys(j)
    ensures exists sub :: Within(sub, j) && HasKey(sub, k)
    decreases j, 0
  {
    var entries := j.entries;
    EntriesKeysIff(j, entries, k);
    var i :| 0 <= i < |entries| && (entries[i].0 == k || k in AllKeys(entries[i].1));
    if entries[i].0 == k {
      assert Within(j, j) && HasKey(j, k);
    } else {
      AllKeysIff(entries[i].1, k);
      var sub :| Within(sub, entries[i].1) && HasKey(sub, k);
      assert Within(sub, j);
    }
  }

  lemma {:induction false} ObjKeyCollected(j: Json, k: string)
    requires j.JObj? && exists sub :: Within(sub, j) && HasKey(sub, k)
    ensures k in AllKeys(j)
    decreases j, 0
  {
    var entries := j.entries;
    EntriesKeysIff(j, entries, k);
    var sub :| Within(sub, j) && HasKey(sub, k);
    if sub == j {
      var i :| 0 <= i < |entries| && entries[i].0 == k;
    } else {
      var i :| 0 <= i < |entries| && Within(sub, entries[i].1);
      AllKeysIff(entries[i].1, k);
    }
  }

  lemma {:induction false} ArrKeyFound(j: Json, k: string)
    requires j.JArr? && k in AllKeys(j)
    ensures exists sub :: Within(sub, j) && HasKey(sub, k)
    decreases j, 0
  {
    var items := j.items;
    ItemsKeysIff(j, items, k);
    var i :| 0 <= i < |items| && k in AllKeys(items[i]);
    AllKeysIff(items[i], k);
    var sub :| Within(sub, items[i]) && HasKey(sub, k);
    assert Within(sub, j);
  }

  lemma {:induction false} ArrKeyCollected(j: Json, k: string)
    requires j.JArr? && exists sub :: Within(sub, j) && HasKey(sub, k)
    ensures k in AllKeys(j)
    decreases j, 0
  {
    var items := j.items;
    ItemsKeysIff(j, items, k);
    var sub :| Within(sub, j) && HasKey(sub, k);
    var i :| 0 <= i < |items| && Within(sub, items[i]);
    AllKeysIff(items[i], k);
  }

  // ---------------------------------------------------------------------
  // Deep key/value match (`match_key_value`)

  /** `match_key_value(data, key, value)`. */
  function MatchKeyValue(data: Json, key: string, value: string): bool
    decreases data, 1
  {
    match data
    case JObj(entries) => MatchEntries(data, entries, key, value)
    case JArr(items) => MatchItems(data, items, key, value)
    case _ => false
  }

  /** The loop over `data.items()`: an entry matches, or a container value holds a match. */
  function MatchEntries(parent: Json, entries: seq<(string, Json)>, key: string, value: string): bool
    requires forall k :: 0 <= k < |entries| ==> entries[k].1 < parent
    decreases parent, 0, |entries|
  {
    if entries == [] then false
    else
      var (k, v) := entries[0];
      if k == key && Str(v) == value then true
      else if IsContainer(v) && MatchKeyValue(v, key, value) then true
      else MatchEntries(parent, entries[1..], key, value)
  }

  function MatchItems(parent: Json, items: seq<Json>, key: string, value: string): bool
    requires forall k :: 0 <= k < |items| ==> items[k] < parent
    decreases parent, 0, |items|
  {
    if items == [] then false
    else if IsContainer(items[0]) && MatchKeyValue(items[0], key, value) then true
    else MatchItems(parent, items[1..], key, value)
  }

  /** `sub` is a dictionary with an entry `key` whose `str()` is `value`. */
  ghost predicate HasEntry(sub: Json, key: string, value: string) {
    sub.JObj? && exists i :: 0 <= i < |sub.entries| && sub.entries[i].0 == key && Str(sub.entries[i].1) == value
  }

  lemma {:induction false} MatchEntriesIff(parent: Json, entries: seq<(string, Json)>, key: string, value: string)
    requires forall i :: 0 <= i < |entries| ==> entries[i].1 < parent
    ensures MatchEntries(parent, entries, key, value) <==>
      exists i :: 0 <= i < |entries| && ((entries[i].0 == key && Str(entries[i].1) == value) || MatchKeyValue(entries[i].1, key, value))
    decreases |entries|
  {
    if entries != [] {
      var rest := entries[1..];
      MatchEntriesIff(parent, rest, key, value);
      if exists i :: 0 <= i < |entries| && ((entries[i].0 == key && Str(entries[i].1) == value) || MatchKeyValue(entries[i].1, key, value)) {
        var i :| 0 <= i < |entries| && ((entries[i].0 == key && Str(entries[i].1) == value) || MatchKeyValue(entries[i].1, key, value));
        if i > 0 { assert rest[i - 1] == entries[i]; }
        else if !(entries[0].0 == key && Str(entries[0].1) == value) {
          assert IsContainer(entries[0].1);
        }
      }
      if exists i :: 0 <= i < |rest| && ((rest[i].0 == key && Str(rest[i].1) == value) || MatchKeyValue(rest[i].1, key, value)) {
        var i :| 0 <= i < |rest| && ((rest[i].0 == key && Str(rest[i].1) == value) || MatchKeyValue(rest[i].1, key, value));
        assert entries[i + 1] == rest[i];
      }
    }
  }

  lemma {:induction false} MatchItemsIff(parent: Json, items: seq<Json>, key: string, value: string)
    requires forall i :: 0 <= i < |items| ==> items[i] < parent
    ensures MatchItems(parent, items, key, value) <==> exists i :: 0 <= i < |items| && MatchKeyValue(items[i], key, value)
    decreases |items|
  {
    if items != [] {
      var rest := items[1..];
      MatchItemsIff(parent, rest, key, value);
      if exists i :: 0 <= i < |items| && MatchKeyValue(items[i], key, value) {
        var i :| 0 <= i < |items| && MatchKeyValue(items[i], key, value);
        if i > 0 { assert rest[i - 1] == items[i]; }
        else { assert IsContainer(items[0]); }
      }
      if exists i :: 0 <= i < |rest| && MatchKeyValue(rest[i], key, value) {
        var i :| 0 <= i < |rest| && MatchKeyValue(rest[i], key, value);
        assert items[i + 1] == rest[i];
      }
    }
  }

  /** A document matches exactly when some dictionary reachable through
      dictionaries and lists has the entry; a scalar document never matches. */
  lemma {:induction false} MatchKeyValueIff(data: Json, key: string, value: string)
    ensures MatchKeyValue(data, key, value) <==> exists sub :: Within(sub, data) && HasEntry(sub, key, value)
    decreases data, 1
  {
    match data
    case JObj(entries) =>
      MatchEntriesIff(data, entries, key, value);
      if MatchKeyValue(data, key, value) {
        ObjMatchFound(data, key, value);
      }
      if exists sub :: Within(sub, data) && HasEntry(sub, key, value) {
        ObjEntryMatched(data, key, value);
      }
    case JArr(items) =>
      MatchItemsIff(data, items, key, value);
      if MatchKeyValue(data, key, value) {
        ArrMatchFound(data, key, value);
      }
      if exists sub :: Within(sub, data) && HasEntry(sub, key, value) {
        ArrEntryMatched(data, key, value);
      }
    case _ =>
  }

  lemma {:induction false} ObjMatchFound(data: Json, key: string, value: string)
    requires data.JObj? && MatchKeyValue(data, key, value)
    ensures exists sub :: Within(sub, data) && HasEntry(sub, key, value)
    decreases data, 0
  {
    var entries := data.entries;
    MatchEntriesIff(data, entries, key, value);
    var i :| 0 <= i < |entries| && ((entries[i].0 == key && Str(entries[i].1) == value) || MatchKeyValue(entries[i].1, key, value));
    if entries[i].0 == key && Str(entries[i].1) == value {
      assert Within(data, data) && HasEntry(data, key, value);
    } else {
      MatchKeyValueIff(entries[i].1, key, value);
      var sub :| Within(sub, entries[i].1) && HasEntry(sub, key, value);
      assert Within(sub, data);
    }
  }

  lemma {:induction false} ObjEntryMatched(data: Json, key: string, value: string)
    requires data.JObj? && exists sub :: Within(sub, data) && HasEntry(sub, key, value)
    ensures MatchKeyValue(data, key, value)
    decreases data, 0
  {
    var entries := data.entries;
    MatchEntriesIff(data, entries, key, value);
    var sub :| Within(sub, data) && HasEntry(sub, key, value);
    if sub == data {
      var i :| 0 <= i < |entries| && entries[i].0 == key && Str(entries[i].1) == value;
    } else {
      var i :| 0 <= i < |entries| && Within(sub, entries[i].1);
      MatchKeyValueIff(entries[i].1, key, value);
    }
  }

  lemma {:induction false} ArrMatchFound(data: Json, key: string, value: string)
    requires data.JArr? && MatchKeyValue(data, key, value)
    ensures exists sub :: Within(sub, data) && HasEntry(sub, key, value)
    decreases data, 0
  {
    var items := data.items;
    MatchItemsIff(data, items, key, value);
    var i :| 0 <= i < |items| && MatchKeyValue(items[i], key, value);
    MatchKeyValueIff(items[i], key, value);
    var sub :| Within(sub, items[i]) && HasEntry(sub, key, value);
    assert Within(sub, data);
  }

  lemma {:induction false} ArrEntryMatched(data: Json, key: string, value: string)
    requires data.JArr? && exists sub :: Within(sub, data) && HasEntry(sub, key, value)
    ensures MatchKeyValue(data, key, value)
    decreases data, 0
  {
    var items := data.items;
    MatchItemsIff(data, items, key, value);
    var sub :| Within(sub, data) && HasEntry(sub, key, value);
    var i :| 0 <= i < |items| && Within(sub, items[i]);
    MatchKeyValueIff(items[i], key, value);
  }

  /** An entry with the key but another value does not stop the search: its
      value is still searched. */
  lemma MatchSearchesMatchingKey(key: string, v: Json, value: string, rest: seq<(string, Json)>)
    requires Str(v) != value && MatchKeyValue(v, key, value)
    ensures MatchKeyValue(JObj([(key, v)] + rest), key, value)
  {
    var data := JObj([(key, v)] + rest);
    assert data.entries[0] == (key, v);
  }

  // ---------------------------------------------------------------------
  // Counting (`load_and_validate`)

  /** A listed name is counted for `prefix`: it ends `.json` and its text
      before the first `-` is `prefix`. */
  predicate Counted(name: string, prefix: string) {
    EndsWith(name, ".json") && Split(name, '-')[0] == prefix
  }

  /** The number of names counted for `prefix` in a listing. */
  function CountOf(dir: Directory, prefix: string): (n: nat)
    ensures n <= |dir|
  {
    if dir == [] then 0
    else CountOf(dir[..|dir| - 1], prefix) + (if Counted(dir[|dir| - 1].0, prefix) then 1 else 0)
  }

  /** The keys collected for `prefix`. */
  function KeysOf(dir: Directory, prefix: string): set<string> {
    if dir == [] then {}
    else KeysOf(dir[..|dir| - 1], prefix) + (if Counted(dir[|dir| - 1].0, prefix) then AllKeys(dir[|dir| - 1].1) else {})
  }

  /** A counted name of one of the three types starts with that type and a `-`. */
  lemma CountedHasDash(name: string, prefix: string)
    requires prefix in Prefixes && Counted(name, prefix)
    ensures StartsWith(name, prefix + "-")
  {
    match IndexOf(name, '-')
    case None =>
      assert false;
    case Some(i) =>
      assert Split(name, '-')[0] == name[..i];
      assert name[..i + 1] == prefix + "-";
  }

  /** A renamed `.bak` copy is never counted: adding one to the listing changes no count. */
  lemma BackupNotCounted(dir: Directory, name: string, data: Json, prefix: string)
    requires EndsWith(name, ".bak")
    ensures CountOf(dir + [(name, data)], prefix) == CountOf(dir, prefix)
    ensures KeysOf(dir + [(name, data)], prefix) == KeysOf(dir, prefix)
  {
    assert (dir + [(name, data)])[..|dir|] == dir;
    assert !EndsWith(name, ".json") by {
      assert name[|name| - 1] == 'k';
    }
  }

  /** The three types are counted apart: a name counts for at most one of them. */
  lemma CountsDisjoint(dir: Directory)
    ensures CountOf(dir, "exp") + CountOf(dir, "rel") + CountOf(dir, "calib") <= |dir|
  {
    if dir != [] {
      CountsDisjoint(dir[..|dir| - 1]);
    }
  }

  /** `file_stats` after a listing. */
  function StatsOf(dir: Directory): (m: map<string, nat>)
    ensures m.Keys == Prefixes
  {
    map["exp" := CountOf(dir, "exp"), "rel" := CountOf(dir, "rel"), "calib" := CountOf(dir, "calib")]
  }

  /** `keys_for_file_type` after a listing. */
  function KeysByType(dir: Directory): (m: map<string, set<string>>)
    ensures m.Keys == Prefixes
  {
    map["exp" := KeysOf(dir, "exp"), "rel" := KeysOf(dir, "rel"), "calib" := KeysOf(dir, "calib")]
  }

  lemma PrefixesDistinct()
    ensures "exp" != "rel" && "exp" != "calib" && "rel" != "calib"
    ensures forall p :: p in Prefixes <==> p == "exp" || p == "rel" || p == "calib"
  {
    assert "exp"[0] != "rel"[0];
  }

  /** Adding one to the counter of one type. */
  lemma BumpOne(a: nat, b: nat, c: nat, p: string)
    requires p in Prefixes
    ensures var m := map["exp" := a, "rel" := b, "calib" := c];
      m[p := m[p] + 1] == map["exp" := a + (if p == "exp" then 1 else 0),
        "rel" := b + (if p == "rel" then 1 else 0), "calib" := c + (if p == "calib" then 1 else 0)]
  {
    PrefixesDistinct();
  }

  /** One more listed name is one more step of the loop: a counted name bumps its counter. */
  lemma StatsStep(dir: Directory, name: string, data: Json, prefix: string)
    requires prefix == Split(name, '-')[0]
    ensures EndsWith(name, ".json") && prefix in Prefixes ==>
      StatsOf(dir + [(name, data)]) == StatsOf(dir)[prefix := StatsOf(dir)[prefix] + 1]
    ensures !(EndsWith(name, ".json") && prefix in Prefixes) ==> StatsOf(dir + [(name, data)]) == StatsOf(dir)
  {
    if EndsWith(name, ".json") && prefix in Prefixes {
      StatsCounted(dir, name, data, prefix);
    } else {
      Step(dir, name, data, "exp");
      Step(dir, name, data, "rel");
      Step(dir, name, data, "calib");
      assert !Counted(name, "exp") && !Counted(name, "rel") && !Counted(name, "calib");
    }
  }

  lemma StatsCounted(dir: Directory, name: string, data: Json, prefix: string)
    requires Counted(name, prefix) && prefix in Prefixes
    ensures StatsOf(dir + [(name, data)]) == StatsOf(dir)[prefix := StatsOf(dir)[prefix] + 1]
  {
    Step(dir, name, data, "exp");
    Step(dir, name, data, "rel");
    Step(dir, name, data, "calib");
    assert Counted(name, "exp") <==> prefix == "exp";
    assert Counted(name, "rel") <==> prefix == "rel";
    assert Counted(name, "calib") <==> prefix == "calib";
    BumpOne(CountOf(dir, "exp"), CountOf(dir, "rel"), CountOf(dir, "calib"), prefix);
  }

  /** ... and adds its keys to its type's set. */
  lemma KeysStep(dir: Directory, name: string, data: Json, prefix: string)
    requires prefix == Split(name, '-')[0]
    ensures EndsWith(name, ".json") && prefix in Prefixes ==>
      KeysByType(dir + [(name, data)]) == KeysByType(dir)[prefix := KeysByType(dir)[prefix] + AllKeys(data)]
    ensures !(EndsWith(name, ".json") && prefix in Prefixes) ==> KeysByType(dir + [(name, data)]) == KeysByType(dir)
  {
    if EndsWith(name, ".json") && prefix in Prefixes {
      KeysCounted(dir, name, data, prefix);
    } else {
      Step(dir, name, data, "exp");
      Step(dir, name, data, "rel");
      Step(dir, name, data, "calib");
      assert !Counted(name, "exp") && !Counted(name, "rel") && !Counted(name, "calib");
    }
  }

  lemma KeysCounted(dir: Directory, name: string, data: Json, prefix: string)
    requires Counted(name, prefix) && prefix in Prefixes
    ensures KeysByType(dir + [(name, data)]) == KeysByType(dir)[prefix := KeysByType(dir)[prefix] + AllKeys(data)]
  {
    Step(dir, name, data, "exp");
    Step(dir, name, data, "rel");
    Step(dir, name, data, "calib");
    var k0, k1 := KeysByType(dir), KeysByType(dir + [(name, data)]);
    forall p | p in Prefixes ensures k1[p] == k0[prefix := k0[prefix] + AllKeys(data)][p] {
      assert Counted(name, p) <==> p == prefix;
    }
  }

  lemma Step(dir: Directory, name: string, data: Json, prefix: string)
    ensures CountOf(dir + [(name, data)], prefix) == CountOf(dir, prefix) + (if Counted(name, prefix) then 1 else 0)
    ensures Counted(name, prefix) ==> KeysOf(dir + [(name, data)], prefix) == KeysOf(dir, prefix) + AllKeys(data)
    ensures !Counted(name, prefix) ==> KeysOf(dir + [(name, data)], prefix) == KeysOf(dir, prefix)
  {
    assert (dir + [(name, data)])[..|dir|] == dir;
    assert KeysOf(dir, prefix) + {} == KeysOf(dir, prefix);
  }

  lemma StatsCountedFrom(dir: Directory, name: string, data: Json, prefix: string, counts: map<string, nat>)
    requires Counted(name, prefix) && prefix in Prefixes && counts == StatsOf(dir)
    ensures prefix in counts && StatsOf(dir + [(name, data)]) == counts[prefix := counts[prefix] + 1]
  {
    StatsCounted(dir, name, data, prefix);
  }

  lemma KeysCountedFrom(dir: Directory, name: string, data: Json, prefix: string, keys: map<string, set<string>>)
    requires Counted(name, prefix) && prefix in Prefixes && keys == KeysByType(dir)
    ensures prefix in keys && KeysByType(dir + [(name, data)]) == keys[prefix := keys[prefix] + AllKeys(data)]
  {
    KeysCounted(dir, name, data, prefix);
  }

  /** The loop body of `load_and_validate` for one listed name, with
      `collect_keys_from_file`: a counted name bumps its counter and adds its keys. */
  method CountFile(done: Directory, counts: map<string, nat>, keys: map<string, set<string>>, name: string, data: Json)
    returns (counts': map<string, nat>, keys': map<string, set<string>>)
    requires counts == StatsOf(done) && keys == KeysByType(done)
    ensures counts' == StatsOf(done + [(name, data)]) && keys' == KeysByType(done + [(name, data)])
  {
    var prefix := Split(name, '-')[0];
    if EndsWith(name, ".json") && prefix in Prefixes {
      StatsCountedFrom(done, name, data, prefix, counts);
      counts' := counts[prefix := counts[prefix] + 1];
      var ks := ExtractKeys(data, keys[prefix]);
      KeysCountedFrom(done, name, data, prefix, keys);
      keys' := keys[prefix := ks];
    } else {
      StatsStep(done, name, data, prefix);
      KeysStep(done, name, data, prefix);
      counts', keys' := counts, keys;
    }
  }

  const InitialStats: map<string, nat> := map["exp" := 0, "rel" := 0, "calib" := 0]

  class Lookup {
    var stats: map<string, nat>
    var keysForType: map<string, set<string>>
    var currentType: Option<string>

    constructor ()
      ensures stats == InitialStats && keysForType == map["exp" := {}, "rel" := {}, "calib" := {}]
      ensures currentType == None
    {
      stats := InitialStats;
      keysForType := map["exp" := {}, "rel" := {}, "calib" := {}];
      currentType := None;
    }

    /** `load_and_validate`: with a directory, the counters restart and every
        counted file adds one and its keys. */
    method LoadAndValidate(dirExists: bool, dir: Directory) returns (loaded: bool)
      modifies this
      ensures loaded == dirExists
      ensures !dirExists ==> stats == old(stats) && keysForType == old(keysForType)
      ensures dirExists ==> stats == StatsOf(dir) && keysForType == KeysByType(dir)
      ensures currentType == old(currentType)
    {
      if !dirExists {
        return false;
      }
      var counts := InitialStats;
      var keys: map<string, set<string>> := map["exp" := {}, "rel" := {}, "calib" := {}];
      assert StatsOf([]) == counts && KeysByType([]) == keys;
      var i := 0;
      while i < |dir|
        invariant 0 <= i <= |dir|
        invariant counts == StatsOf(dir[..i]) && keys == KeysByType(dir[..i])
        invariant currentType == old(currentType)
      {
        assert dir[..i + 1] == dir[..i] + [dir[i]];
        counts, keys := CountFile(dir[..i], counts, keys, dir[i].0, dir[i].1);
        i := i + 1;
      }
      assert dir[..i] == dir;
      stats, keysForType := counts, keys;
      loaded := true;
    }

    /** `on_file_type_changed` followed by `populate_search_key_dropdown`. */
    method OnFileTypeChanged(text: string) returns (r: Result<seq<string>>)
      modifies this
      ensures r.Failure? <==> TypeCode(text).None?
      ensures r.Failure? ==> r.error == KeyError && currentType == old(currentType)
      ensures r.Success? ==> (currentType == TypeCode(text)
        && Ascending(r.value)
        && forall k :: k in r.value <==> k in (if currentType.value in keysForType then keysForType[currentType.value] else {}))
      ensures stats == old(stats) && keysForType == old(keysForType)
    {
      var code := TypeCode(text);
      if code.None? {
        return Failure(KeyError);
      }
      currentType := code;
      var keys := if code.value in keysForType then keysForType[code.value] else {};
      var sorted := SortedKeys(keys);
      r := Success(sorted);
    }
  }

  /** `{"Experiment": "exp", "Relational": "rel", "Calibration": "calib"}[text]`. */
  function TypeCode(text: string): (r: Option<string>)
    ensures r.Some? ==> r.value in Prefixes
    ensures r.Some? <==> text in {"Experiment", "Relational", "Calibration"}
  {
    if text == "Experiment" then Some("exp")
    else if text == "Relational" then Some("rel")
    else if text == "Calibration" then Some("calib")
    else None
  }

  /** Strictly increasing in Python's string order. */
  predicate Ascending(xs: seq<string>) {
    forall i, j :: 0 <= i < j < |xs| ==> LexLess(xs[i], xs[j])
  }

  /** A finite set of strings has a least element. */
  lemma {:induction false} LeastExists(s: set<string>) returns (m: string)
    requires s != {}
    ensures m in s && forall x :: x in s && x != m ==> LexLess(m, x)
    decreases |s|
  {
    var y :| y in s;
    if s == {y} {
      m := y;
    } else {
      var m' := LeastExists(s - {y});
      LexLessTotal(m', y);
      if LexLess(y, m') {
        m := y;
        forall x | x in s && x != m ensures LexLess(m, x) {
          if x != m' { LexLessTransitive(y, m', x); }
        }
      } else {
        m := m';
      }
    }
  }

  /** `sorted(keys)`: the least key first, repeatedly. */
  method SortedKeys(keys: set<string>) returns (r: seq<string>)
    ensures Ascending(r)
    ensures forall k :: k in r <==> k in keys
    ensures |r| == |keys|
  {
    r := [];
    var rest := keys;
    while rest != {}
      invariant Ascending(r)
      invariant forall k :: k in keys <==> k in r || k in rest
      invariant forall k :: k in r ==> k !in rest
      invariant forall i, x :: 0 <= i < |r| && x in rest ==> LexLess(r[i], x)
      invariant |r| + |rest| == |keys|
      decreases |rest|
    {
      ghost var least := LeastExists(rest);
      var m :| m in rest && forall x :: x in rest && x != m ==> LexLess(m, x);
      r := r + [m];
      rest := rest - {m};
    }
  }

  // ---------------------------------------------------------------------
  // The two searches

  /** A name is searched for `fileType`: it starts with the type and ends `.json`. */
  predicate OfType(name: string, fileType: string) { StartsWith(name, fileType) && EndsWith(name, ".json") }

  /** The names of the listing that satisfy `P`, in listing order. */
  function Select(dir: Directory, P: (string, Json) -> bool): (r: seq<string>)
    ensures |r| <= |dir|
  {
    if dir == [] then []
    else Select(dir[..|dir| - 1], P) + (if P(dir[|dir| - 1].0, dir[|dir| - 1].1) then [dir[|dir| - 1].0] else [])
  }

  lemma {:induction false} SelectIff(dir: Directory, P: (string, Json) -> bool, name: string)
    ensures name in Select(dir, P) <==> exists i :: 0 <= i < |dir| && dir[i].0 == name && P(dir[i].0, dir[i].1)
  {
    if dir != [] {
      var init := dir[..|dir| - 1];
      SelectIff(init, P, name);
      if exists i :: 0 <= i < |dir| && dir[i].0 == name && P(dir[i].0, dir[i].1) {
        var i :| 0 <= i < |dir| && dir[i].0 == name && P(dir[i].0, dir[i].1);
        if i < |init| { assert init[i] == dir[i]; }
      }
      if exists i :: 0 <= i < |init| && init[i].0 == name && P(init[i].0, init[i].1) {
        var i :| 0 <= i < |init| && init[i].0 == name && P(init[i].0, init[i].1);
        assert dir[i] == init[i];
      }
    }
  }

  /** `on_search_clicked`: nothing without both a key and a value; otherwise the
      names of the chosen type whose content matches at any depth.
      `startswith(None)` raises before the first name is tested. */
  function OnSearchClicked(dir: Directory, fileType: Option<string>, key: string, value: string): (r: Result<seq<string>>)
    ensures (key == "" || value == "") ==> r == Success([])
    ensures r.Failure? <==> key != "" && value != "" && fileType.None? && dir != []
  {
    if key == "" || value == "" then Success([])
    else if fileType.None? then (if dir == [] then Success([]) else Failure(TypeError))
    else Success(Select(dir, (n, d) => OfType(n, fileType.value) && MatchKeyValue(d, key, value)))
  }

  /** The results of a search are the names of the type whose document has the
      entry somewhere inside. */
  lemma OnSearchClickedIff(dir: Directory, fileType: string, key: string, value: string, name: string)
    requires key != "" && value != ""
    ensures OnSearchClicked(dir, Some(fileType), key, value).Success?
    ensures name in OnSearchClicked(dir, Some(fileType), key, value).value <==>
      exists i :: 0 <= i < |dir| && dir[i].0 == name && OfType(name, fileType)
        && exists sub :: Within(sub, dir[i].1) && HasEntry(sub, key, value)
  {
    var P := (n, d) => OfType(n, fileType) && MatchKeyValue(d, key, value);
    SelectIff(dir, P, name);
    forall i | 0 <= i < |dir| ensures MatchKeyValue(dir[i].1, key, value) <==> exists sub :: Within(sub, dir[i].1) && HasEntry(sub, key, value) {
      MatchKeyValueIff(dir[i].1, key, value);
    }
  }

  /** `search_key in data and data[search_key] == search_value` for one document. */
  function TopLevelMatch(data: Json, key: string, value: string): (r: Result<bool>)
    ensures data.JObj? ==> r == Success(Get(data.entries, key) == Some(JStr(value)))
  {
    match PyIn(key, data)
    case Failure(e) => Failure(e)
    case Success(present) =>
      if !present then Success(false)
      else
        match PyIndex(data, key)
        case Failure(e) => Failure(e)
        case Success(v) => Success(v == JStr(value))
  }

  /** The first error among the documents of the type, if any. */
  function FirstError(dir: Directory, fileType: string, key: string, value: string): Option<PyError> {
    if dir == [] then None
    else
      var (n, d) := dir[0];
      if OfType(n, fileType) && TopLevelMatch(d, key, value).Failure? then Some(TopLevelMatch(d, key, value).error)
      else FirstError(dir[1..], fileType, key, value)
  }

  /** `search_files`: only the top level is compared, and with `==`, so a number
      never equals the typed text. */
  function SearchFiles(dir: Directory, fileType: Option<string>, key: string, value: string): (r: Result<seq<string>>)
    ensures fileType.None? ==> (r.Failure? <==> dir != [])
  {
    if fileType.None? then (if dir == [] then Success([]) else Failure(TypeError))
    else
      match FirstError(dir, fileType.value, key, value)
      case Some(e) => Failure(e)
      case None => Success(Select(dir, (n, d) => OfType(n, fileType.value) && TopLevelMatch(d, key, value) == Success(true)))
  }

  /** On a warehouse of dictionaries, the top-level search finds exactly the
      names of the type whose `key` holds the string `value`. */
  lemma SearchFilesIff(dir: Directory, fileType: string, key: string, value: string, name: string)
    requires forall i :: 0 <= i < |dir| ==> dir[i].1.JObj?
    ensures SearchFiles(dir, Some(fileType), key, value).Success?
    ensures name in SearchFiles(dir, Some(fileType), key, value).value <==>
      exists i :: 0 <= i < |dir| && dir[i].0 == name && OfType(name, fileType) && Get(dir[i].1.entries, key) == Some(JStr(value))
  {
    NoErrorOnDictionaries(dir, fileType, key, value);
    var P := (n, d) => OfType(n, fileType) && TopLevelMatch(d, key, value) == Success(true);
    SelectIff(dir, P, name);
  }

  lemma {:induction false} NoErrorOnDictionaries(dir: Directory, fileType: string, key: string, value: string)
    requires forall i :: 0 <= i < |dir| ==> dir[i].1.JObj?
    ensures FirstError(dir, fileType, key, value).None?
  {
    if dir != [] {
      assert forall i :: 0 <= i < |dir[1..]| ==> dir[1..][i] == dir[i + 1];
      NoErrorOnDictionaries(dir[1..], fileType, key, value);
    }
  }

  /** The top-level search never sees a match the deep search misses. */
  lemma TopLevelImpliesDeep(data: Json, key: string, value: string)
    requires data.JObj? && TopLevelMatch(data, key, value) == Success(true)
    ensures MatchKeyValue(data, key, value)
  {
    var v := Get(data.entries, key).value;
    var i :| 0 <= i < |data.entries| && data.entries[i] == (key, v);
    assert Str(JStr(value)) == value;
    assert HasEntry(data, key, value);
    assert Within(data, data);
    MatchKeyValueIff(data, key, value);
  }
}
