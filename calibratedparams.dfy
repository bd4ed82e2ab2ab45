/** `read_calibrated_params` (readAspehrix.py:166-176, OWReadAspherix.py:364-374):
    a header line, then rows `name value …`; each row with at least two tokens
    stores `float(value)` under `name`, a later row overwriting an earlier one.
    A value `float()` rejects raises `ValueError`. The float itself is kept as
    the literal that denotes it. */
module CalibratedParams {
  import opened Base
  import opened Text
  import opened Dicts
  import opened PyNumbers

  /** `line.strip().split()`, when it has at least two tokens: the name and the value text. */
  function RowFields(line: string): (r: Option<(string, string)>)
    ensures r.Some? <==> |Tokens(Strip(line))| >= 2
    ensures r.Some? ==> r.value.0 == Tokens(Strip(line))[0] && r.value.1 == Tokens(Strip(line))[1]
  {
    var parts := Tokens(Strip(line));
    if |parts| >= 2 then Some((parts[0], parts[1])) else None
  }

  /** A row that makes `float()` raise. */
  predicate BadRow(line: string) {
    RowFields(line).Some? && !IsFloatLiteral(RowFields(line).value.1)
  }

  /** One row of the loop body. */
  function RowStep(acc: Dict<string>, line: string): Result<Dict<string>> {
    match RowFields(line)
    case None => Success(acc)
    case Some(f) => if IsFloatLiteral(f.1) then Success(Put(acc, f.0, f.1)) else Failure(ValueError)
  }

  /** The dictionary after the rows, taken in file order. */
  function ReadRows(rows: seq<string>): (r: Result<Dict<string>>)
    decreases |rows|
    ensures r.Failure? ==> r.error == ValueError
  {
    if rows == [] then Success([])
    else
      var acc :- ReadRows(rows[..|rows| - 1]);
      RowStep(acc, rows[|rows| - 1])
  }

  /** The whole file: `lines[1:]` skips the header, and is empty for an empty file. */
  function ReadCalibratedParamsOf(lines: seq<string>): Result<Dict<string>> {
    ReadRows(if lines == [] then [] else lines[1..])
  }

  /** Reading one more row is one more step of the loop. */
  lemma ReadRowsSnoc(rows: seq<string>, line: string)
    ensures ReadRows(rows + [line]) == if ReadRows(rows).Failure? then ReadRows(rows) else RowStep(ReadRows(rows).value, line)
  {
    assert (rows + [line])[..|rows|] == rows;
  }

  /** Reading one more row of a prefix is one more step of the loop. */
  lemma ReadRowsPrefixStep(rows: seq<string>, i: nat)
    requires i < |rows|
    ensures ReadRows(rows[..i + 1])
      == if ReadRows(rows[..i]).Failure? then ReadRows(rows[..i]) else RowStep(ReadRows(rows[..i]).value, rows[i])
  {
    assert rows[..i + 1][..i] == rows[..i];
  }

  /** Once a row fails, reading more rows cannot recover. */
  lemma {:induction false} FailureSticks(rows: seq<string>, n: nat)
    requires n <= |rows| && ReadRows(rows[..n]).Failure?
    ensures ReadRows(rows).Failure?
    decreases |rows| - n
  {
    if n < |rows| {
      FailureStep(rows, n);
      FailureSticks(rows, n + 1);
    } else {
      assert rows[..n] == rows;
    }
  }

  lemma FailureStep(rows: seq<string>, n: nat)
    requires n < |rows| && ReadRows(rows[..n]).Failure?
    ensures ReadRows(rows[..n + 1]).Failure?
  {
    ReadRowsPrefixStep(rows, n);
  }

  method ReadCalibratedParams(lines: seq<string>) returns (r: Result<Dict<string>>)
    ensures r == ReadCalibratedParamsOf(lines)
  {
    var params: Dict<string> := [];
    if lines == [] {
      return Success(params);
    }
    var rows := lines[1..];
    var i := 0;
    while i < |rows|
      invariant 0 <= i <= |rows|
      invariant ReadRows(rows[..i]) == Success(params)
    {
      var parts := Tokens(Strip(rows[i]));
      StepByParts(rows, i, params);
      if |parts| >= 2 {
        if !IsFloatLiteral(parts[1]) {
          FailureSticks(rows, i + 1);
          return Failure(ValueError);
        }
        params := Put(params, parts[0], parts[1]);
      }
      i := i + 1;
    }
    assert rows[..|rows|] == rows;
    r := Success(params);
  }

  /** One more row of the loop, read through its tokens. */
  lemma StepByParts(rows: seq<string>, i: nat, params: Dict<string>)
    requires i < |rows| && ReadRows(rows[..i]) == Success(params)
    ensures var parts := Tokens(Strip(rows[i]));
      ReadRows(rows[..i + 1]) == if |parts| < 2 then Success(params)
        else if IsFloatLiteral(parts[1]) then Success(Put(params, parts[0], parts[1])) else Failure(ValueError)
  {
    ReadRowsPrefixStep(rows, i);
  }

  // ---------------------------------------------------------------------
  // Properties

  /** The value of the last well-formed row for `name`, scanning the rows in file order. */
  function LastValue(rows: seq<string>, name: string): Option<string>
    decreases |rows|
  {
    if rows == [] then None
    else
      var f := RowFields(rows[|rows| - 1]);
      if f.Some? && f.value.0 == name then Some(f.value.1) else LastValue(rows[..|rows| - 1], name)
  }

  /** A repeated name keeps the value of its last row; a name without a row is absent. */
  lemma {:induction false} LastValueWins(rows: seq<string>, name: string)
    requires ReadRows(rows).Success?
    ensures Get(ReadRows(rows).value, name) == LastValue(rows, name)
  {
    if rows != [] {
      var init := rows[..|rows| - 1];
      LastValueWins(init, name);
    }
  }

  /** Reading fails exactly when some row with two tokens has a second token
      `float()` rejects. */
  lemma ReadRowsFailsIff(rows: seq<string>)
    ensures ReadRows(rows).Failure? <==> exists k :: 0 <= k < |rows| && BadRow(rows[k])
  {
    if ReadRows(rows).Failure? {
      FailureHasBadRow(rows);
    } else if exists k :: 0 <= k < |rows| && BadRow(rows[k]) {
      var k :| 0 <= k < |rows| && BadRow(rows[k]);
      BadRowFails(rows, k);
    }
  }

  lemma {:induction false} FailureHasBadRow(rows: seq<string>)
    requires ReadRows(rows).Failure?
    ensures exists k :: 0 <= k < |rows| && BadRow(rows[k])
  {
    var init := rows[..|rows| - 1];
    ReadRowsLast(rows);
    RowStepFails(rows[|rows| - 1]);
    if ReadRows(init).Failure? {
      FailureHasBadRow(init);
      var k :| 0 <= k < |init| && BadRow(init[k]);
      assert rows[k] == init[k];
    } else {
      assert BadRow(rows[|rows| - 1]);
    }
  }

  lemma BadRowFails(rows: seq<string>, k: nat)
    requires k < |rows| && BadRow(rows[k])
    ensures ReadRows(rows).Failure?
  {
    ReadRowsPrefixStep(rows, k);
    RowStepFails(rows[k]);
    FailureSticks(rows, k + 1);
  }

  /** Reading a non-empty list of rows is reading all but the last, then the last. */
  lemma ReadRowsLast(rows: seq<string>)
    requires rows != []
    ensures var init := ReadRows(rows[..|rows| - 1]);
      ReadRows(rows) == if init.Failure? then init else RowStep(init.value, rows[|rows| - 1])
  {
  }

  /** One row fails exactly when it is bad, whatever came before. */
  lemma RowStepFails(line: string)
    ensures forall acc :: RowStep(acc, line).Failure? <==> BadRow(line)
  {
  }

  /** Like every Python dictionary, the result has no key twice. */
  lemma {:induction false} ReadRowsDistinct(rows: seq<string>)
    requires ReadRows(rows).Success?
    ensures DistinctKeys(ReadRows(rows).value)
  {
    if rows != [] {
      ReadRowsDistinct(rows[..|rows| - 1]);
    }
  }

  /** A row with fewer than two tokens changes nothing. */
  lemma ShortRowSkipped(rows: seq<string>, line: string)
    requires |Tokens(Strip(line))| < 2
    ensures ReadRows(rows + [line]) == ReadRows(rows)
  {
    assert (rows + [line])[..|rows|] == rows;
  }

  /** The first line is never read as a row. */
  lemma HeaderIgnored(header1: string, header2: string, rows: seq<string>)
    ensures ReadCalibratedParamsOf([header1] + rows) == ReadCalibratedParamsOf([header2] + rows)
    ensures ReadCalibratedParamsOf([header1] + rows) == ReadRows(rows)
  {
    assert ([header1] + rows)[1..] == rows;
    assert ([header2] + rows)[1..] == rows;
  }
}
