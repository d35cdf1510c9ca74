/**
 * Row cleaning of the chart-of-accounts worksheet: every data row below the
 * header whose first two cells are both present becomes an entry with both
 * texts stripped of surrounding whitespace, unless the stripped name is empty.
 */
module ExcelReader {
  import opened Wrappers

  /** One worksheet row as its first two cells; an empty cell is `None`, any other value its text. */
  datatype Row = Row(first: Option<string>, second: Option<string>)

  /** A cleaned entry: the name and the account type. */
  datatype AccountTerm = AccountTerm(name: string, accType: string)

  // ---------------------------------------------------------------------------
  // Whitespace stripping
  // ---------------------------------------------------------------------------

  /** The characters Python counts as whitespace, which a plain strip removes. */
  predicate IsSpace(c: char)
  {
    || ('\t' <= c <= '\r')
    || ('\U{1C}' <= c <= '\U{1F}')
    || c == ' '
    || c == '\U{85}'
    || c == '\U{A0}'
    || c == '\U{1680}'
    || ('\U{2000}' <= c <= '\U{200A}')
    || c == '\U{2028}'
    || c == '\U{2029}'
    || c == '\U{202F}'
    || c == '\U{205F}'
    || c == '\U{3000}'
  }

  /** Only whitespace. */
  predicate AllSpace(s: string)
  {
    forall i :: 0 <= i < |s| ==> IsSpace(s[i])
  }

  /** No whitespace at either end. */
  predicate Trimmed(s: string)
  {
    |s| > 0 ==> !IsSpace(s[0]) && !IsSpace(s[|s| - 1])
  }

  /** `s` without its leading whitespace. */
  function TrimStart(s: string): string
    decreases |s|
  {
    if |s| > 0 && IsSpace(s[0]) then TrimStart(s[1..]) else s
  }

  /** `s` without its trailing whitespace. */
  function TrimEnd(s: string): string
    decreases |s|
  {
    if |s| > 0 && IsSpace(s[|s| - 1]) then TrimEnd(s[..|s| - 1]) else s
  }

  /** Trimming the start cuts a whitespace run off the front and stops at a non-whitespace character. */
  lemma {:induction false} TrimStartCutsSpace(s: string)
    ensures |TrimStart(s)| <= |s| && TrimStart(s) == s[|s| - |TrimStart(s)|..]
    ensures AllSpace(s[..|s| - |TrimStart(s)|])
    ensures |TrimStart(s)| > 0 ==> !IsSpace(TrimStart(s)[0])
    decreases |s|
  {
    if |s| > 0 && IsSpace(s[0]) {
      TrimStartCutsSpace(s[1..]);
      var r := TrimStart(s);
      assert s[..|s| - |r|] == [s[0]] + s[1..][..|s| - 1 - |r|];
    }
  }

  /** Trimming the end cuts a whitespace run off the back and stops at a non-whitespace character. */
  lemma {:induction false} TrimEndCutsSpace(s: string)
    ensures |TrimEnd(s)| <= |s| && TrimEnd(s) == s[..|TrimEnd(s)|]
    ensures AllSpace(s[|TrimEnd(s)|..])
    ensures |TrimEnd(s)| > 0 ==> !IsSpace(TrimEnd(s)[|TrimEnd(s)| - 1])
    decreases |s|
  {
    if |s| > 0 && IsSpace(s[|s| - 1]) {
      var p := s[..|s| - 1];
      TrimEndCutsSpace(p);
      var r := TrimEnd(s);
      assert s[|r|..] == p[|r|..] + [s[|s| - 1]];
    }
  }

  /** Whitespace removed at both ends. */
  function Strip(s: string): string
  {
    TrimEnd(TrimStart(s))
  }

  /** The stripped string has no whitespace at either end. */
  lemma StripIsTrimmed(s: string)
    ensures Trimmed(Strip(s))
  {
    var t := TrimStart(s);
    var r := TrimEnd(t);
    TrimStartCutsSpace(s);
    TrimEndCutsSpace(t);
    if |r| > 0 {
      assert r[0] == t[0];
    }
  }

  /**
   * `Strip(s)` is the middle of `s` once a whitespace run is cut off each end,
   * and has no whitespace at either end.
   */
  lemma StripSplits(s: string)
    ensures exists a, b :: AllSpace(a) && AllSpace(b) && s == a + Strip(s) + b
    ensures Trimmed(Strip(s))
  {
    var t := TrimStart(s);
    var r := TrimEnd(t);
    TrimStartCutsSpace(s);
    TrimEndCutsSpace(t);
    var a, b := s[..|s| - |t|], t[|r|..];
    assert AllSpace(a) && AllSpace(b) && s == a + Strip(s) + b by {
      assert s == a + t;
      assert t == r + b;
    }
    StripIsTrimmed(s);
  }

  /** A string with no whitespace at either end strips to itself. */
  lemma {:induction false} StripTrimmed(s: string)
    requires Trimmed(s)
    ensures Strip(s) == s
  {
  }

  /** Stripping twice is stripping once. */
  lemma StripIdempotent(s: string)
    ensures Strip(Strip(s)) == Strip(s)
  {
    StripIsTrimmed(s);
    StripTrimmed(Strip(s));
  }

  /** A string strips to the empty string exactly when it is all whitespace. */
  lemma {:induction false} StripEmptyIffAllSpace(s: string)
    ensures Strip(s) == "" <==> AllSpace(s)
    decreases |s|
  {
    var t := TrimStart(s);
    var r := TrimEnd(t);
    TrimStartCutsSpace(s);
    TrimEndCutsSpace(t);
    if t == "" {
      assert s[..|s|] == s;
    } else {
      assert !IsSpace(t[0]) && t[0] == s[|s| - |t|];
      assert t[0..] == t;
      assert r != "";
    }
  }

  // ---------------------------------------------------------------------------
  // Rows
  // ---------------------------------------------------------------------------

  /** What one row contributes: nothing when a cell is missing or the stripped name is empty. */
  function CleanRow(row: Row): (t: Option<AccountTerm>)
    ensures t.Some? <==> row.first.Some? && row.second.Some? && Strip(row.first.value) != ""
    ensures t.Some? ==> t.value.name == Strip(row.first.value) && t.value.accType == Strip(row.second.value)
  {
    if row.first.None? || row.second.None? then None
    else
      var name := Strip(row.first.value);
      if name != "" then Some(AccountTerm(name, Strip(row.second.value))) else None
  }

  /** The entries of a run of rows, in row order. */
  function CleanRows(rows: seq<Row>): seq<AccountTerm>
    decreases |rows|
  {
    if |rows| == 0 then []
    else
      CleanRows(rows[..|rows| - 1]) +
      (match CleanRow(rows[|rows| - 1]) case None => [] case Some(t) => [t])
  }

  lemma CleanRowsSnoc(rows: seq<Row>, row: Row)
    ensures CleanRows(rows + [row]) ==
      CleanRows(rows) + (match CleanRow(row) case None => [] case Some(t) => [t])
  {
    assert (rows + [row])[..|rows|] == rows;
  }

  /** The rows below the header: reading starts at the second sheet row. */
  function DataRows(sheet: seq<Row>): seq<Row>
  {
    if |sheet| == 0 then [] else sheet[1..]
  }

  /** Loop over the data rows, skipping incomplete rows and rows whose name strips to nothing. */
  method ReadPaymentTerms(sheet: seq<Row>) returns (terms: seq<AccountTerm>)
    ensures terms == CleanRows(DataRows(sheet))
  {
    terms := [];
    if |sheet| == 0 {
      return;
    }
    for i := 1 to |sheet|
      invariant terms == CleanRows(sheet[1..i])
    {
      assert sheet[1..i + 1] == sheet[1..i] + [sheet[i]];
      CleanRowsSnoc(sheet[1..i], sheet[i]);
      var row := sheet[i];
      var name := row.first;
      var accType := row.second;
      if name.None? || accType.None? {
        continue;
      }
      var nameStr := Strip(name.value);
      var accTypeStr := Strip(accType.value);
      if nameStr != "" {
        terms := terms + [AccountTerm(nameStr, accTypeStr)];
      }
    }
    assert sheet[1..|sheet|] == DataRows(sheet);
  }

  /** The positions of the rows that contribute an entry, in row order. */
  function KeptIndices(rows: seq<Row>): seq<nat>
    decreases |rows|
  {
    if |rows| == 0 then []
    else KeptIndices(rows[..|rows| - 1]) + (if CleanRow(rows[|rows| - 1]).Some? then [|rows| - 1] else [])
  }

  /**
   * The entries correspond one to one, in order, to the rows that contribute:
   * the j-th entry comes from the row at the j-th kept position, the kept
   * positions increase, and a row is kept exactly when it contributes.
   */
  lemma {:induction false} CleanRowsFromKeptRows(rows: seq<Row>)
    ensures |CleanRows(rows)| == |KeptIndices(rows)|
    ensures forall j :: 0 <= j < |KeptIndices(rows)| ==> KeptIndices(rows)[j] < |rows|
    ensures forall j :: 0 <= j < |KeptIndices(rows)| ==>
      CleanRow(rows[KeptIndices(rows)[j]]) == Some(CleanRows(rows)[j])
    ensures forall j, k :: 0 <= j < k < |KeptIndices(rows)| ==> KeptIndices(rows)[j] < KeptIndices(rows)[k]
    ensures forall p :: 0 <= p < |rows| ==> (p in KeptIndices(rows) <==> CleanRow(rows[p]).Some?)
  {
    KeptIndicesShape(rows);
    CleanRowsAtKept(rows);
  }

  /** The kept positions are positions of rows, increase, and are exactly the rows that contribute. */
  lemma {:induction false} KeptIndicesShape(rows: seq<Row>)
    ensures forall j :: 0 <= j < |KeptIndices(rows)| ==> KeptIndices(rows)[j] < |rows|
    ensures forall j, k :: 0 <= j < k < |KeptIndices(rows)| ==> KeptIndices(rows)[j] < KeptIndices(rows)[k]
    ensures forall p :: 0 <= p < |rows| ==> (p in KeptIndices(rows) <==> CleanRow(rows[p]).Some?)
    decreases |rows|
  {
    if |rows| > 0 {
      var init := rows[..|rows| - 1];
      KeptIndicesShape(init);
      assert forall p :: 0 <= p < |init| ==> rows[p] == init[p];
    }
  }

  /** The j-th entry is the entry of the row at the j-th kept position. */
  lemma {:induction false} CleanRowsAtKept(rows: seq<Row>)
    ensures |CleanRows(rows)| == |KeptIndices(rows)|
    ensures forall j :: 0 <= j < |KeptIndices(rows)| ==> KeptIndices(rows)[j] < |rows|
    ensures forall j :: 0 <= j < |KeptIndices(rows)| ==>
      CleanRow(rows[KeptIndices(rows)[j]]) == Some(CleanRows(rows)[j])
    decreases |rows|
  {
    if |rows| > 0 {
      var init := rows[..|rows| - 1];
      CleanRowsAtKept(init);
      assert forall p :: 0 <= p < |init| ==> rows[p] == init[p];
    }
  }

  /** There are never more entries than rows. */
  lemma CleanRowsBound(rows: seq<Row>)
    ensures |CleanRows(rows)| <= |rows|
  {
    CleanRowsFromKeptRows(rows);
    KeptIndicesBound(rows);
  }

  lemma {:induction false} KeptIndicesBound(rows: seq<Row>)
    ensures |KeptIndices(rows)| <= |rows|
    decreases |rows|
  {
    if |rows| > 0 {
      KeptIndicesBound(rows[..|rows| - 1]);
    }
  }

  /**
   * Every entry has a non-empty name with no whitespace at either end, and a
   * type with none either; each is the stripped text of a cell of some row.
   */
  lemma EntriesAreClean(rows: seq<Row>)
    ensures forall t :: t in CleanRows(rows) ==>
      t.name != "" && Trimmed(t.name) && Trimmed(t.accType)
    ensures forall t :: t in CleanRows(rows) ==>
      exists p ::
        0 <= p < |rows| && rows[p].first.Some? && rows[p].second.Some? &&
        t.name == Strip(rows[p].first.value) && t.accType == Strip(rows[p].second.value)
  {
    CleanRowsFromKeptRows(rows);
    var out, kept := CleanRows(rows), KeptIndices(rows);
    forall t | t in out
      ensures t.name != "" && Trimmed(t.name) && Trimmed(t.accType)
      ensures exists p ::
        0 <= p < |rows| && rows[p].first.Some? && rows[p].second.Some? &&
        t.name == Strip(rows[p].first.value) && t.accType == Strip(rows[p].second.value)
    {
      var j :| 0 <= j < |out| && out[j] == t;
      var p := kept[j];
      StripIsTrimmed(rows[p].first.value);
      StripIsTrimmed(rows[p].second.value);
    }
  }

  /** A row with a missing cell contributes nothing, whatever the other cell holds. */
  lemma IncompleteRowSkipped(rows: seq<Row>, p: nat)
    requires p < |rows|
    requires rows[p].first.None? || rows[p].second.None?
    ensures p !in KeptIndices(rows)
  {
    CleanRowsFromKeptRows(rows);
  }

  /** Only the name decides: a complete row with a non-blank name is kept even when its type is blank. */
  lemma BlankTypeKept(rows: seq<Row>, p: nat)
    requires p < |rows|
    requires rows[p].first.Some? && rows[p].second.Some? && !AllSpace(rows[p].first.value)
    ensures p in KeptIndices(rows)
    ensures CleanRow(rows[p]) == Some(AccountTerm(Strip(rows[p].first.value), Strip(rows[p].second.value)))
  {
    StripEmptyIffAllSpace(rows[p].first.value);
    CleanRowsFromKeptRows(rows);
  }

  /** The header row is never read: replacing it changes nothing. */
  lemma HeaderIgnored(header1: Row, header2: Row, rest: seq<Row>)
    ensures CleanRows(DataRows([header1] + rest)) == CleanRows(DataRows([header2] + rest))
    ensures CleanRows(DataRows([header1] + rest)) == CleanRows(rest)
  {
    assert ([header1] + rest)[1..] == rest;
    assert ([header2] + rest)[1..] == rest;
  }

  /**
   * The fixture sheet writes the type text in the first column and the name in
   * the second; since the name is read from the first column, the first entry's
   * name is the type text "Cost of Goods Sold".
   */
  lemma FixtureSheet()
    ensures CleanRows(DataRows([Row(Some("acc_type"), Some("Name")),
                                Row(Some("Cost of Goods Sold"), Some("Materials")),
                                Row(Some("Expense"), Some("Office Supplies"))])) ==
      [AccountTerm("Cost of Goods Sold", "Materials"), AccountTerm("Expense", "Office Supplies")]
  {
    var r1, r2 := Row(Some("Cost of Goods Sold"), Some("Materials")), Row(Some("Expense"), Some("Office Supplies"));
    var sheet := [Row(Some("acc_type"), Some("Name")), r1, r2];
    assert DataRows(sheet) == [r1, r2];
    StripTrimmed("Cost of Goods Sold");
    StripTrimmed("Materials");
    StripTrimmed("Expense");
    StripTrimmed("Office Supplies");
    assert CleanRow(r1) == Some(AccountTerm("Cost of Goods Sold", "Materials"));
    assert CleanRow(r2) == Some(AccountTerm("Expense", "Office Supplies"));
    assert [r1, r2][..1] == [r1];
  }
}
