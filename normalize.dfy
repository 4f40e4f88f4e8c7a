/** The type fixes applied to the transactions frame right after loading
    (phonepe_dashgit.py lines 10-17, repeated for scenario 1 at lines 95-101). */
module Normalize {
  import opened Wrappers
  import opened Text

  /** One row of the transactions file as read: every cell is text. */
  datatype RawTxn = RawTxn(state: string, year: string, quarter: string, txnType: string,
                           amount: string, count: string)

  /** The row after normalisation: integer Year and Quarter, numeric measures, and the Period label. */
  datatype Txn = Txn(state: string, year: int, quarter: int, txnType: string,
                     amount: real, count: real, period: string)

  /** astype(int) raises on the first cell of the column that is not a whole number. */
  datatype ConvError = BadYear(cell: string) | BadQuarter(cell: string)

  function YearCells(raw: seq<RawTxn>): seq<string>
  {
    seq(|raw|, i requires 0 <= i < |raw| => raw[i].year)
  }

  function QuarterCells(raw: seq<RawTxn>): seq<string>
  {
    seq(|raw|, i requires 0 <= i < |raw| => raw[i].quarter)
  }

  /** astype(int) on one column: every cell converted, or the first cell that does not convert. */
  function ParseColumn(cells: seq<string>): (r: Result<seq<int>, string>)
    ensures r.Success? ==> |r.value| == |cells|
  {
    if cells == [] then Success([])
    else
      match ParseColumn(cells[..|cells| - 1])
      case Failure(c) => Failure(c)
      case Success(vs) =>
        match ParseInt(cells[|cells| - 1])
        case None => Failure(cells[|cells| - 1])
        case Some(v) => Success(vs + [v])
  }

  /** A row whose Year and Quarter have been converted gets its measures coerced and its label. */
  function NormalRow(r: RawTxn, year: int, quarter: int): Txn
  {
    Txn(r.state, year, quarter, r.txnType, ToNumber(r.amount), ToNumber(r.count), PeriodLabel(year, quarter))
  }

  /** Every row with its converted Year and Quarter. */
  function NormalRows(raw: seq<RawTxn>, ys: seq<int>, qs: seq<int>): seq<Txn>
    requires |ys| == |raw| && |qs| == |raw|
  {
    seq(|raw|, i requires 0 <= i < |raw| => NormalRow(raw[i], ys[i], qs[i]))
  }

  /** The whole normalisation: the Year column first, then the Quarter column, then the rest. */
  function NormalizeFrame(raw: seq<RawTxn>): Result<seq<Txn>, ConvError>
  {
    match ParseColumn(YearCells(raw))
    case Failure(c) => Failure(BadYear(c))
    case Success(ys) =>
      match ParseColumn(QuarterCells(raw))
      case Failure(c) => Failure(BadQuarter(c))
      case Success(qs) => Success(NormalRows(raw, ys, qs))
  }

  // ---------------------------------------------------------------------------
  // What a column conversion does
  // ---------------------------------------------------------------------------

  /** A column converts exactly when each of its cells does, and then cell by cell. */
  lemma {:induction false} ParseColumnSuccess(cells: seq<string>)
    ensures ParseColumn(cells).Success? <==> forall i :: 0 <= i < |cells| ==> ParseInt(cells[i]).Some?
    ensures ParseColumn(cells).Success? ==>
              forall i :: 0 <= i < |cells| ==> ParseInt(cells[i]) == Some(ParseColumn(cells).value[i])
  {
    if cells != [] {
      var init := cells[..|cells| - 1];
      ParseColumnSuccess(init);
      assert forall i :: 0 <= i < |init| ==> init[i] == cells[i];
    }
  }

  /** A failed conversion names a cell of the column that is not a whole number, and every
      cell before it converts. */
  lemma {:induction false} ParseColumnFailure(cells: seq<string>)
    requires ParseColumn(cells).Failure?
    ensures exists i :: 0 <= i < |cells| && cells[i] == ParseColumn(cells).error && ParseInt(cells[i]).None?
                        && forall j :: 0 <= j < i ==> ParseInt(cells[j]).Some?
  {
    var init := cells[..|cells| - 1];
    assert forall i :: 0 <= i < |init| ==> init[i] == cells[i];
    if ParseColumn(init).Failure? {
      ParseColumnFailure(init);
      var i :| 0 <= i < |init| && init[i] == ParseColumn(init).error && ParseInt(init[i]).None?
               && forall j :: 0 <= j < i ==> ParseInt(init[j]).Some?;
      assert cells[i] == init[i];
    } else {
      ParseColumnSuccess(init);
      assert cells[|cells| - 1] == ParseColumn(cells).error;
    }
  }

  lemma {:induction false} ParseColumnPrefixFails(cells: seq<string>, n: nat)
    requires n <= |cells| && ParseColumn(cells[..n]).Failure?
    ensures ParseColumn(cells) == ParseColumn(cells[..n])
    decreases |cells| - n
  {
    if n < |cells| {
      assert cells[..n + 1][..n] == cells[..n];
      ParseColumnPrefixFails(cells, n + 1);
    } else {
      assert cells[..n] == cells;
    }
  }

  // ---------------------------------------------------------------------------
  // What normalisation does
  // ---------------------------------------------------------------------------

  /** Normalisation succeeds exactly when every Year and every Quarter cell is a whole number;
      it then keeps the row count and order, converts Year and Quarter, coerces the measures
      (0 for a cell that is not a number) and labels each row with its own period. */
  lemma NormalizeKeepsRows(raw: seq<RawTxn>)
    ensures NormalizeFrame(raw).Success? <==>
              forall i :: 0 <= i < |raw| ==> ParseInt(raw[i].year).Some? && ParseInt(raw[i].quarter).Some?
    ensures NormalizeFrame(raw).Success? ==>
              var rows := NormalizeFrame(raw).value;
              |rows| == |raw| &&
              forall i :: 0 <= i < |raw| ==>
                && rows[i].state == raw[i].state
                && rows[i].txnType == raw[i].txnType
                && ParseInt(raw[i].year) == Some(rows[i].year)
                && ParseInt(raw[i].quarter) == Some(rows[i].quarter)
                && rows[i].amount == ToNumber(raw[i].amount)
                && rows[i].count == ToNumber(raw[i].count)
                && rows[i].period == PeriodLabel(rows[i].year, rows[i].quarter)
  {
    ParseColumnSuccess(YearCells(raw));
    ParseColumnSuccess(QuarterCells(raw));
  }

  /** A Year or Quarter that is not a whole number is an error naming the offending cell;
      Year is checked first. */
  lemma NormalizeErrors(raw: seq<RawTxn>)
    ensures NormalizeFrame(raw).Failure? && NormalizeFrame(raw).error.BadYear? ==>
              exists i :: 0 <= i < |raw| && raw[i].year == NormalizeFrame(raw).error.cell
                          && ParseInt(raw[i].year).None?
    ensures NormalizeFrame(raw).Failure? && NormalizeFrame(raw).error.BadQuarter? ==>
              (forall i :: 0 <= i < |raw| ==> ParseInt(raw[i].year).Some?) &&
              exists i :: 0 <= i < |raw| && raw[i].quarter == NormalizeFrame(raw).error.cell
                          && ParseInt(raw[i].quarter).None?
  {
    var years, quarters := YearCells(raw), QuarterCells(raw);
    assert forall i :: 0 <= i < |raw| ==> years[i] == raw[i].year && quarters[i] == raw[i].quarter;
    ParseColumnSuccess(years);
    if ParseColumn(years).Failure? {
      ParseColumnFailure(years);
    } else if ParseColumn(quarters).Failure? {
      ParseColumnFailure(quarters);
    }
  }

  /** astype(int) on one column, cell by cell, stopping at the first cell that does not convert. */
  method ConvertColumn(cells: seq<string>) returns (result: Result<seq<int>, string>)
    ensures result == ParseColumn(cells)
  {
    var n := |cells|;
    var values := new int[n];
    var i := 0;
    while i < n
      invariant 0 <= i <= n
      invariant ParseColumn(cells[..i]) == Success(values[..i])
    {
      assert cells[..i + 1][..i] == cells[..i];
      match ParseInt(cells[i])
      case None =>
        assert ParseColumn(cells[..i + 1]) == Failure(cells[i]);
        ParseColumnPrefixFails(cells, i + 1);
        return Failure(cells[i]);
      case Some(v) =>
        values[i] := v;
      assert values[..i + 1] == values[..i] + [v];
      i := i + 1;
    }
    assert cells[..n] == cells && values[..n] == values[..];
    result := Success(values[..]);
  }

  /** Lines 11-17, column by column over the loaded frame: Year, then Quarter, then the
      measures and the Period label. */
  method Normalize(raw: array<RawTxn>) returns (result: Result<seq<Txn>, ConvError>)
    ensures result == NormalizeFrame(raw[..])
  {
    var year := ConvertColumn(YearCells(raw[..]));
    if year.Failure? {
      return Failure(BadYear(year.error));
    }
    var quarter := ConvertColumn(QuarterCells(raw[..]));
    if quarter.Failure? {
      return Failure(BadQuarter(quarter.error));
    }
    var rows := ConvertRows(raw, year.value, quarter.value);
    result := Success(rows);
  }

  /** Lines 13-14 and 17: coerce the measures of every row and add its Period label. */
  method ConvertRows(raw: array<RawTxn>, ys: seq<int>, qs: seq<int>) returns (rows: seq<Txn>)
    requires |ys| == raw.Length && |qs| == raw.Length
    ensures rows == NormalRows(raw[..], ys, qs)
  {
    ghost var all := NormalRows(raw[..], ys, qs);
    rows := [];
    var i := 0;
    while i < raw.Length
      invariant 0 <= i <= raw.Length
      invariant rows == all[..i]
    {
      PrefixGrows(all, i);
      rows := rows + [NormalRow(raw[i], ys[i], qs[i])];
      i := i + 1;
    }
    PrefixWhole(all);
  }

  lemma PrefixGrows<T>(s: seq<T>, i: nat)
    requires i < |s|
    ensures s[..i + 1] == s[..i] + [s[i]]
  {
  }

  lemma PrefixWhole<T>(s: seq<T>)
    ensures s[..|s|] == s
  {
  }
}
