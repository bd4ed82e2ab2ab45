/** The dictionary helpers shared by the widgets (shared/dictHandler.py):
    a dictionary as a one-row table of string metas, an Orange table back to
    a dictionary, and the coloured HTML preview of a dictionary. An Orange
    table is its meta names and, per row, the meta values. */
module DictHandler {
  import opened Base
  import opened Text
  import opened Dicts
  import opened Json

  datatype Table = Table(metas: seq<string>, rows: seq<seq<Json>>)

  /** Meta names, each once, as an Orange domain has them. */
  predicate DistinctNames(names: seq<string>) {
    forall i, j :: 0 <= i < j < |names| ==> names[i] != names[j]
  }

  // ---------------------------------------------------------------------
  // dict_to_orange_table

  /** A nested dictionary becomes the text `dumps` gives for it (`json.dumps`,
      a parameter here); every other value, lists included, is kept. */
  function FlatValue(v: Json, dumps: Json -> string): Json {
    if v.JObj? then JStr(dumps(v)) else v
  }

  /** The flattened dictionary: the same keys in the same order. */
  function FlatDict(d: Dict<Json>, dumps: Json -> string): Dict<Json> {
    seq(|d|, i requires 0 <= i < |d| => (d[i].0, FlatValue(d[i].1, dumps)))
  }

  /** The table of a flattened dictionary: one meta per key, one row of values. */
  function TableOf(flat: Dict<Json>): Table {
    Table(Keys(flat), [seq(|flat|, i requires 0 <= i < |flat| => flat[i].1)])
  }

  /** The key at `i` is not among the flattened entries before it. */
  lemma FlatFresh(d: Dict<Json>, dumps: Json -> string, i: nat)
    requires i < |d| && forall a, b :: 0 <= a < b < |d| ==> d[a].0 != d[b].0
    ensures d[i].0 !in Keys(FlatDict(d[..i], dumps))
  {
    var flat := FlatDict(d[..i], dumps);
    forall j | 0 <= j < i ensures Keys(flat)[j] != d[i].0 {
      assert Keys(flat)[j] == d[j].0;
    }
  }

  /** One step of the flattening loop appends the flattened entry at `i`. */
  lemma FlatStep(d: Dict<Json>, dumps: Json -> string, i: nat)
    requires i < |d| && forall a, b :: 0 <= a < b < |d| ==> d[a].0 != d[b].0
    ensures Put(FlatDict(d[..i], dumps), d[i].0, FlatValue(d[i].1, dumps)) == FlatDict(d[..i + 1], dumps)
  {
    FlatFresh(d, dumps, i);
    PutNewAppends(FlatDict(d[..i], dumps), d[i].0, FlatValue(d[i].1, dumps));
    assert FlatDict(d[..i + 1], dumps) == FlatDict(d[..i], dumps) + [(d[i].0, FlatValue(d[i].1, dumps))];
  }

  /** The flattening loop of `dict_to_orange_table`. */
  method Flatten(d: Dict<Json>, dumps: Json -> string) returns (flat: Dict<Json>)
    requires DistinctKeys(d)
    ensures flat == FlatDict(d, dumps)
  {
    DistinctKeysPairwise(d);
    flat := [];
    var i := 0;
    while i < |d|
      invariant 0 <= i <= |d|
      invariant flat == FlatDict(d[..i], dumps)
    {
      var (key, value) := d[i];
      FlatStep(d, dumps, i);
      if value.JObj? {
        flat := Put(flat, key, JStr(dumps(value)));
      } else {
        flat := Put(flat, key, value);
      }
      i := i + 1;
    }
    assert d[..i] == d;
  }

  /** `dict_to_orange_table`: one meta per key, in key order, and a single row
      holding the flattened values in the same order. */
  method DictToOrangeTable(d: Dict<Json>, dumps: Json -> string) returns (t: Table)
    requires DistinctKeys(d)
    ensures t == TableOf(FlatDict(d, dumps))
    ensures t.metas == Keys(d) && |t.rows| == 1 && |t.rows[0]| == |d|
    ensures forall i :: 0 <= i < |d| ==> t.rows[0][i] == FlatValue(d[i].1, dumps)
  {
    var flat := Flatten(d, dumps);
    var names: seq<string> := [];
    var row: seq<Json> := [];
    var i := 0;
    while i < |flat|
      invariant 0 <= i <= |flat|
      invariant |names| == |row| == i
      invariant forall k :: 0 <= k < i ==> names[k] == flat[k].0 && row[k] == flat[k].1
    {
      names := names + [flat[i].0];
      row := row + [flat[i].1];
      i := i + 1;
    }
    assert names == Keys(flat) == Keys(d);
    assert row == seq(|flat|, k requires 0 <= k < |flat| => flat[k].1);
    t := Table(names, [row]);
  }

  /** Flattening changes no key and leaves every value but a nested dictionary alone. */
  lemma FlattenKeepsOrder(d: Dict<Json>, dumps: Json -> string, i: nat)
    requires i < |d|
    ensures Keys(FlatDict(d, dumps)) == Keys(d)
    ensures !d[i].1.JObj? ==> FlatDict(d, dumps)[i] == d[i]
    ensures d[i].1.JObj? ==> FlatDict(d, dumps)[i].1 == JStr(dumps(d[i].1))
  {
  }

  /** A flattened dictionary holds no nested dictionary. */
  lemma FlattenIsFlat(d: Dict<Json>, dumps: Json -> string)
    ensures forall i :: 0 <= i < |d| ==> !FlatDict(d, dumps)[i].1.JObj?
  {
  }

  // ---------------------------------------------------------------------
  // orange_table_to_dict

  /** `data_dict[key] = text` for each pair, in order. */
  function PutAll(d: Dict<string>, pairs: seq<(string, string)>): Dict<string>
    decreases |pairs|
  {
    if pairs == [] then d else PutAll(Put(d, pairs[0].0, pairs[0].1), pairs[1..])
  }

  /** `zip(metas, row)` with each value passed through `str()`. */
  function RowPairs(metas: seq<string>, row: seq<Json>): (z: seq<(string, string)>)
    ensures |z| == (if |metas| <= |row| then |metas| else |row|)
    ensures forall i :: 0 <= i < |z| ==> z[i] == (metas[i], Str(row[i]))
  {
    var n := if |metas| <= |row| then |metas| else |row|;
    seq(n, i requires 0 <= i < n => (metas[i], Str(row[i])))
  }

  /** The rows after `acc`, taken in order. */
  function RowsInto(acc: Dict<string>, metas: seq<string>, rows: seq<seq<Json>>): Dict<string>
    decreases |rows|
  {
    if rows == [] then acc else RowsInto(PutAll(acc, RowPairs(metas, rows[0])), metas, rows[1..])
  }

  /** The dictionary `orange_table_to_dict` builds. */
  function TableToDict(t: Table): Dict<string> {
    RowsInto([], t.metas, t.rows)
  }

  /** `orange_table_to_dict`. */
  method OrangeTableToDict(t: Table) returns (d: Dict<string>)
    ensures d == TableToDict(t)
  {
    d := [];
    var r := 0;
    while r < |t.rows|
      invariant 0 <= r <= |t.rows|
      invariant RowsInto(d, t.metas, t.rows[r..]) == TableToDict(t)
    {
      assert t.rows[r..][1..] == t.rows[r + 1..];
      d := PutRow(d, t.metas, t.rows[r]);
      r := r + 1;
    }
  }

  /** The inner loop over `zip(metas, row.metas)`. */
  method PutRow(acc: Dict<string>, metas: seq<string>, row: seq<Json>) returns (d: Dict<string>)
    ensures d == PutAll(acc, RowPairs(metas, row))
  {
    var pairs := RowPairs(metas, row);
    d := acc;
    var n := 0;
    while n < |pairs|
      invariant 0 <= n <= |pairs|
      invariant PutAll(d, pairs[n..]) == PutAll(acc, pairs)
    {
      assert pairs[n..][1..] == pairs[n + 1..];
      d := Put(d, pairs[n].0, pairs[n].1);
      n := n + 1;
    }
  }

  /** Keys the pairs assign. */
  predicate Assigns(pairs: seq<(string, string)>, k: string) {
    exists i :: 0 <= i < |pairs| && pairs[i].0 == k
  }

  /** The last pair for a key decides its value; a key no pair names keeps its value. */
  lemma {:induction false} PutAllGet(d: Dict<string>, pairs: seq<(string, string)>, k: string)
    ensures !Assigns(pairs, k) ==> Get(PutAll(d, pairs), k) == Get(d, k)
    ensures forall c :: 0 <= c < |pairs| && pairs[c].0 == k && !Assigns(pairs[c + 1..], k) ==>
      Get(PutAll(d, pairs), k) == Some(pairs[c].1)
    decreases |pairs|
  {
    if pairs != [] {
      var rest := pairs[1..];
      PutAllGet(Put(d, pairs[0].0, pairs[0].1), rest, k);
      if Assigns(rest, k) {
        var i :| 0 <= i < |rest| && rest[i].0 == k;
        assert pairs[i + 1].0 == k;
      }
      forall c | 0 <= c < |pairs| && pairs[c].0 == k && !Assigns(pairs[c + 1..], k)
        ensures Get(PutAll(d, pairs), k) == Some(pairs[c].1)
      {
        if c > 0 {
          assert rest[c - 1] == pairs[c] && rest[c..] == pairs[c + 1..];
        } else {
          assert pairs[1..] == rest;
        }
      }
    }
  }

  /** No key occurs twice among the pairs, stated pairwise. */
  predicate PairwiseDistinct(pairs: seq<(string, string)>) {
    forall i, j :: 0 <= i < j < |pairs| ==> pairs[i].0 != pairs[j].0
  }

  /** The pair at `n` is new to the ones before it when no key repeats. */
  lemma FreshAt(all: seq<(string, string)>, n: nat)
    requires n < |all| && PairwiseDistinct(all)
    ensures all[n].0 !in Keys(all[..n])
  {
    var before := all[..n];
    forall j | 0 <= j < n ensures Keys(before)[j] != all[n].0 {
      assert Keys(before)[j] == all[j].0;
    }
  }

  /** Assigning a new key first appends it. */
  lemma PutAllNew(d: Dict<string>, p: (string, string), rest: seq<(string, string)>)
    requires p.0 !in Keys(d)
    ensures PutAll(d, [p] + rest) == PutAll(d + [p], rest)
  {
    assert ([p] + rest)[0] == p && ([p] + rest)[1..] == rest;
    PutNewAppends(d, p.0, p.1);
  }

  /** One more of the pairs, taken in order, is appended. */
  lemma PutAllStep(all: seq<(string, string)>, n: nat)
    requires n < |all| && all[n].0 !in Keys(all[..n])
    ensures PutAll(all[..n], all[n..]) == PutAll(all[..n + 1], all[n + 1..])
  {
    assert all[n..] == [all[n]] + all[n + 1..];
    assert all[..n] + [all[n]] == all[..n + 1];
    PutAllNew(all[..n], all[n], all[n + 1..]);
  }

  /** Assigning, in order, the pairs after the first `n` to those first `n` gives all of them. */
  lemma {:induction false} PutAllRest(all: seq<(string, string)>, n: nat)
    requires n <= |all| && PairwiseDistinct(all)
    ensures PutAll(all[..n], all[n..]) == all
    decreases |all| - n
  {
    if n < |all| {
      FreshAt(all, n);
      PutAllStep(all, n);
      PutAllRest(all, n + 1);
    } else {
      assert all[..n] == all;
    }
  }

  /** Pairs with distinct keys, assigned in order to an empty dictionary, are its entries. */
  lemma PutAllFresh(pairs: seq<(string, string)>)
    requires PairwiseDistinct(pairs)
    ensures PutAll([], pairs) == pairs
  {
    PutAllRest(pairs, 0);
    assert pairs[..0] == [] && pairs[0..] == pairs;
  }

  /** Reading one more row is one more step of the outer loop. */
  lemma {:induction false} RowsIntoSnoc(acc: Dict<string>, metas: seq<string>, rows: seq<seq<Json>>, row: seq<Json>)
    ensures RowsInto(acc, metas, rows + [row]) == PutAll(RowsInto(acc, metas, rows), RowPairs(metas, row))
    decreases |rows|
  {
    if rows == [] {
      assert [row][1..] == [];
    } else {
      assert (rows + [row])[0] == rows[0] && (rows + [row])[1..] == rows[1..] + [row];
      RowsIntoSnoc(PutAll(acc, RowPairs(metas, rows[0])), metas, rows[1..], row);
    }
  }

  /** Later rows overwrite earlier ones: after a row, each of its columns holds
      the `str()` of that row's value. */
  lemma LastRowWins(metas: seq<string>, rows: seq<seq<Json>>, row: seq<Json>, c: nat)
    requires DistinctNames(metas) && c < |metas| && c < |row|
    ensures Get(TableToDict(Table(metas, rows + [row])), metas[c]) == Some(Str(row[c]))
  {
    RowsIntoSnoc([], metas, rows, row);
    var pairs := RowPairs(metas, row);
    PutAllGet(RowsInto([], metas, rows), pairs, metas[c]);
    assert !Assigns(pairs[c + 1..], metas[c]) by {
      var later := pairs[c + 1..];
      forall i | 0 <= i < |later| ensures later[i].0 != metas[c] {
        assert later[i] == pairs[c + 1 + i];
      }
    }
  }

  /** `zip` stops at the shorter side: a meta beyond a short row keeps its earlier value. */
  lemma ShortRowKeeps(metas: seq<string>, rows: seq<seq<Json>>, row: seq<Json>, c: nat)
    requires DistinctNames(metas) && |row| <= c < |metas|
    ensures Get(TableToDict(Table(metas, rows + [row])), metas[c]) == Get(TableToDict(Table(metas, rows)), metas[c])
  {
    RowsIntoSnoc([], metas, rows, row);
    var pairs := RowPairs(metas, row);
    PutAllGet(RowsInto([], metas, rows), pairs, metas[c]);
  }

  /** A table without rows gives an empty dictionary. */
  lemma EmptyTable(metas: seq<string>)
    ensures TableToDict(Table(metas, [])) == []
  {
  }

  /** A dictionary sent through a table and back keeps its keys in order; each
      value comes back as the `str()` of its flattened value. */
  lemma RoundTrip(d: Dict<Json>, dumps: Json -> string)
    requires DistinctKeys(d)
    ensures var r := TableToDict(TableOf(FlatDict(d, dumps)));
      |r| == |d| && forall i :: 0 <= i < |d| ==> r[i] == (d[i].0, Str(FlatValue(d[i].1, dumps)))
  {
    DistinctKeysPairwise(d);
    var t := TableOf(FlatDict(d, dumps));
    var row := t.rows[0];
    assert t.rows == [row] && t.rows[1..] == [];
    var pairs := RowPairs(t.metas, row);
    assert TableToDict(t) == RowsInto(PutAll([], pairs), t.metas, []);
    PutAllFresh(pairs);
  }

  /** After the round trip, each key looks up the `str()` of its flattened value. */
  lemma RoundTripGet(d: Dict<Json>, dumps: Json -> string, i: nat)
    requires DistinctKeys(d) && i < |d|
    ensures Get(TableToDict(TableOf(FlatDict(d, dumps))), d[i].0) == Some(Str(FlatValue(d[i].1, dumps)))
  {
    var r := TableToDict(TableOf(FlatDict(d, dumps)));
    RoundTrip(d, dumps);
    DistinctKeysPairwise(d);
    assert forall a, b :: 0 <= a < b < |r| ==> r[a].0 != r[b].0 by {
      forall a, b | 0 <= a < b < |r| ensures r[a].0 != r[b].0 {
        assert r[a].0 == d[a].0 && r[b].0 == d[b].0;
      }
    }
    GetFirst(r, i);
  }

  /** In a dictionary without repeated keys, `get` finds the entry at its position. */
  lemma {:induction false} GetFirst<V>(d: Dict<V>, i: nat)
    requires i < |d| && forall a, b :: 0 <= a < b < |d| ==> d[a].0 != d[b].0
    ensures Get(d, d[i].0) == Some(d[i].1)
  {
    if i > 0 {
      GetFirst(d[1..], i - 1);
    }
  }

  // ---------------------------------------------------------------------
  // format_dict_as_text

  /** One entry of the preview. */
  function EntryHtml(key: string, value: Json): string {
    "<font color=\"blue\">\"" + key + "\"</font>: <font color=\"green\">\"" + Str(value) + "\"</font>"
  }

  /** The entries for the truthy values, in dictionary order. */
  function EntriesHtml(d: Dict<Json>): (r: seq<string>)
    ensures |r| <= |d|
  {
    if d == [] then []
    else EntriesHtml(d[..|d| - 1]) + (if Truthy(d[|d| - 1].1) then [EntryHtml(d[|d| - 1].0, d[|d| - 1].1)] else [])
  }

  const Open: string := "<br/>{<br/>"
  /** The last part of the text is a plain literal, not an f-string, so its
      braces and quotes are emitted as they stand. */
  const Close: string := "<br/>{ \"}\" }"

  /** `format_dict_as_text`. */
  function FormatDictAsText(d: Dict<Json>, title: string): (r: string)
    ensures StartsWith(r, "<b>" + title + "</b>" + Open) && EndsWith(r, Close)
  {
    var r := "<b>" + title + "</b>" + Open + Join(",<br/>", EntriesHtml(d)) + Close;
    assert r[..|"<b>" + title + "</b>" + Open|] == "<b>" + title + "</b>" + Open;
    assert r[|r| - |Close|..] == Close;
    r
  }

  /** An empty dictionary, or one with only falsy values, shows the title, the
      opening brace and the closing literal alone. */
  lemma {:induction false} NothingToShow(d: Dict<Json>, title: string)
    requires forall i :: 0 <= i < |d| ==> !Truthy(d[i].1)
    ensures FormatDictAsText(d, title) == "<b>" + title + "</b><br/>{<br/><br/>{ \"}\" }"
  {
    NoEntries(d);
  }

  lemma {:induction false} NoEntries(d: Dict<Json>)
    requires forall i :: 0 <= i < |d| ==> !Truthy(d[i].1)
    ensures EntriesHtml(d) == []
  {
    if d != [] {
      NoEntries(d[..|d| - 1]);
    }
  }

  /** The preview shows one entry per truthy value, each in its position and in dictionary order. */
  lemma {:induction false} EntriesAppend(d1: Dict<Json>, d2: Dict<Json>)
    ensures EntriesHtml(d1 + d2) == EntriesHtml(d1) + EntriesHtml(d2)
    decreases |d2|
  {
    if d2 == [] {
      assert d1 + d2 == d1;
    } else {
      var init := d2[..|d2| - 1];
      assert (d1 + d2)[..|d1 + d2| - 1] == d1 + init;
      EntriesAppend(d1, init);
    }
  }

  /** A falsy value adds nothing to the preview; a truthy one adds exactly its entry. */
  lemma AppendOne(d: Dict<Json>, key: string, value: Json)
    ensures EntriesHtml(d + [(key, value)]) == EntriesHtml(d) + (if Truthy(value) then [EntryHtml(key, value)] else [])
  {
    assert (d + [(key, value)])[..|d|] == d;
  }

  /** A truthy value of the dictionary appears as its entry. */
  lemma {:induction false} TruthyShown(d: Dict<Json>, i: nat)
    requires i < |d| && Truthy(d[i].1)
    ensures EntryHtml(d[i].0, d[i].1) in EntriesHtml(d)
  {
    EntriesAppend(d[..i + 1], d[i + 1..]);
    assert d[..i + 1] + d[i + 1..] == d;
    assert d[..i + 1][..i] == d[..i];
  }
}
