/**
 * A client of the table library that replays the price-download fixture of
 * the repository's tests, proved from the contracts of the operations alone.
 */
module Scenarios {
  import opened Wrappers
  import opened Values
  import opened Series
  import opened MultiIndex
  import opened Frame

  /** The fixture's rows: (Open, Close) per day, with closes 2, 3, 4. */
  function FixtureRows(): seq<Series> {
    [[Num(1.0), Num(2.0)], [Num(2.0), Num(3.0)], [Num(3.0), Num(4.0)]]
  }

  function Closes(): Series {
    [Num(2.0), Num(3.0), Num(4.0)]
  }

  /** Building the fixture's frame under two distinct labels puts the closes under the second. */
  lemma {:induction false} FixtureColumns(cols: seq<Key>)
    requires |cols| == 2 && cols[0] != cols[1]
    ensures Poppable(cols, ColumnsOf(FixtureRows(), cols))
    ensures ColumnsOf(FixtureRows(), cols)[cols[1]] == Closes()
  {
    var m := ColumnsOf(FixtureRows(), cols);
    ColumnsOfAt(FixtureRows(), cols);
    assert ColumnAt(FixtureRows(), 1) == Closes();
    PoppableIff(cols, m);
  }

  /** Renaming the fixture's frame keeps the closes under the second label. */
  lemma {:induction false} FixtureRenamed(cols: seq<Key>, newCols: seq<Key>)
    requires |cols| == 2 && cols[0] != cols[1]
    requires |newCols| == 2 && newCols[0] != newCols[1]
    ensures forall k :: 0 <= k < |cols| ==> cols[k] in ColumnsOf(FixtureRows(), cols)
    ensures Renamed(cols, newCols, ColumnsOf(FixtureRows(), cols))[newCols[1]] == Closes()
  {
    var m := ColumnsOf(FixtureRows(), cols);
    FixtureColumns(cols);
    PoppableIff(cols, m);
    RenamedLookup(cols, newCols, m, 1);
  }

  /**
   * A price download with (ticker, field) columns and closes 2, 3, 4: after
   * flattening the columns to their field level and storing pct_change of
   * Close as Return, the return at position 1 is (3 - 2) / 2.
   */
  method PriceDownloadReturn(ticker: string, dates: seq<Value>) returns (ret: Result<Value, PyError>)
    ensures ret == Ok(Num(0.5))
  {
    var fields := FromProduct([[ticker], ["Open", "Close"]]);
    PriceColumnsExample(ticker);
    var cols := [Tuple(fields[0]), Tuple(fields[1])];
    var made := DataFrame.FromRows(FixtureRows(), Some(dates), Some(cols));
    assert made.Ok?;
    var df := made.value;

    var flat := GetLevelValues(fields, 1);
    var newCols := [Name(flat.value[0]), Name(flat.value[1])];
    FixtureColumns(cols);
    FixtureRenamed(cols, newCols);
    var renamed := df.SetColumns(newCols);
    assert renamed.Pass?;

    var close := df.Get(Name("Close"));
    assert close == Ok(Closes());
    var change := PctChange(close.value);
    PctChangeExample();
    df.Set(Name("Return"), change.value);
    ret := ILoc(df.Get(Name("Return")).value, 1);
  }
}
