/**
 * The DataFrame: a mutable table whose state is a dictionary from column
 * label to column, a row index and an ordered list of column labels.
 */
module Frame {
  import opened Wrappers
  import opened Values
  import opened Series

  /** A column label: a plain name, or a tuple of names from a MultiIndex. */
  datatype Key = Name(name: string) | Tuple(parts: seq<string>)

  predicate Distinct(s: seq<Key>) {
    forall i, j :: 0 <= i < j < |s| ==> s[i] != s[j]
  }

  function SetOf(s: seq<Key>): set<Key> {
    set k | k in s
  }

  lemma SetOfSnoc(s: seq<Key>, x: Key)
    ensures SetOf(s + [x]) == SetOf(s) + {x}
  {
    assert forall k :: k in s + [x] <==> k in s || k == x;
  }

  /** The row labels `range(n)`. */
  function RangeIndex(n: nat): (r: seq<Value>)
    ensures |r| == n
    ensures forall i :: 0 <= i < n ==> r[i] == Num(i as real)
  {
    seq(n, i requires 0 <= i < n => Num(i as real))
  }

  // ---------------------------------------------------------------------
  // Boolean-mask selection (`loc[mask, col]`)
  // ---------------------------------------------------------------------

  function CountTrue(mask: seq<bool>): nat {
    if mask == [] then 0
    else CountTrue(mask[..|mask| - 1]) + (if mask[|mask| - 1] then 1 else 0)
  }

  /**
   * `[i for i, flag in enumerate(mask) if flag]`: the positions of the true
   * entries, each once, in increasing order.
   */
  function TruePositions(mask: seq<bool>): (r: seq<nat>)
    ensures |r| == CountTrue(mask)
    ensures forall k :: 0 <= k < |r| ==> r[k] < |mask| && mask[r[k]]
    ensures forall i :: 0 <= i < |mask| && mask[i] ==> i in r
    ensures forall k, l :: 0 <= k < l < |r| ==> r[k] < r[l]
  {
    if mask == [] then []
    else TruePositions(mask[..|mask| - 1]) + (if mask[|mask| - 1] then [|mask| - 1] else [])
  }

  /**
   * The values of column at the true positions of mask, in order; a true
   * position past the end of the column raises IndexError.
   */
  function Select(mask: seq<bool>, column: Series): (r: Result<Series, PyError>)
    ensures r.Err? <==> exists i :: 0 <= i < |mask| && mask[i] && i >= |column|
    ensures r.Err? ==> r.error == IndexError
    ensures r.Ok? ==> |r.value| == CountTrue(mask)
    ensures r.Ok? ==> forall k :: 0 <= k < |r.value| ==> r.value[k] == column[TruePositions(mask)[k]]
  {
    var idx := TruePositions(mask);
    if exists k :: 0 <= k < |idx| && idx[k] >= |column| then Err(IndexError)
    else Ok(seq(|idx|, k requires 0 <= k < |idx| => column[idx[k]]))
  }

  /** The mask `[True] * n`. */
  function AllTrue(n: nat): (mask: seq<bool>)
    ensures |mask| == n && forall i :: 0 <= i < n ==> mask[i]
  {
    if n == 0 then [] else AllTrue(n - 1) + [true]
  }

  /** The positions `range(n)`. */
  function Upto(n: nat): (r: seq<nat>)
    ensures |r| == n && forall k :: 0 <= k < n ==> r[k] == k
  {
    if n == 0 then [] else Upto(n - 1) + [n - 1]
  }

  lemma {:induction false} AllTruePositions(n: nat)
    ensures TruePositions(AllTrue(n)) == Upto(n)
  {
    if n > 0 {
      AllTruePositions(n - 1);
    }
  }

  /** An all-true mask as long as the column selects the whole column. */
  lemma SelectAll(column: Series)
    ensures Select(AllTrue(|column|), column) == Ok(column)
  {
    AllTruePositions(|column|);
    var r := Select(AllTrue(|column|), column);
    assert r.value == column;
  }

  lemma {:induction false} NoTrue(mask: seq<bool>)
    requires forall i :: 0 <= i < |mask| ==> !mask[i]
    ensures CountTrue(mask) == 0
  {
    if mask != [] {
      NoTrue(mask[..|mask| - 1]);
    }
  }

  /** Counting the true entries of `s == x` counts the occurrences of x. */
  lemma {:induction false} CountEq(s: Series, x: Value)
    requires !x.NaN?
    ensures CountTrue(Eq(s, x)) == multiset(s)[x]
  {
    if s != [] {
      var t := s[..|s| - 1];
      CountEq(t, x);
      assert Eq(s, x)[..|s| - 1] == Eq(t, x);
      assert s == t + [s[|s| - 1]];
    }
  }

  /**
   * Selecting a column by its own `== x` mask yields x once per occurrence
   * of x in the column, and nothing for NaN, which equals nothing.
   */
  lemma LocOfEq(s: Series, x: Value)
    ensures Select(Eq(s, x), s).Ok?
    ensures x.NaN? ==> Select(Eq(s, x), s).value == []
    ensures !x.NaN? ==> Select(Eq(s, x), s).value == seq(multiset(s)[x], _ => x)
  {
    var mask := Eq(s, x);
    var r := Select(mask, s);
    if x.NaN? {
      NoTrue(mask);
    } else {
      CountEq(s, x);
      assert r.value == seq(multiset(s)[x], _ => x);
    }
  }

  // ---------------------------------------------------------------------
  // Building the column dictionary
  // ---------------------------------------------------------------------

  predicate DistinctKeys(d: seq<(Key, Series)>) {
    forall i, j :: 0 <= i < j < |d| ==> d[i].0 != d[j].0
  }

  function KeysOf(d: seq<(Key, Series)>): (r: seq<Key>)
    ensures |r| == |d| && forall i :: 0 <= i < |d| ==> r[i] == d[i].0
  {
    seq(|d|, i requires 0 <= i < |d| => d[i].0)
  }

  /** `{k: list(v) for k, v in data.items()}` over a dictionary given in insertion order. */
  function DictOf(d: seq<(Key, Series)>): (m: map<Key, Series>)
    requires DistinctKeys(d)
    ensures m.Keys == SetOf(KeysOf(d))
    ensures forall i :: 0 <= i < |d| ==> m[d[i].0] == d[i].1
  {
    map i | 0 <= i < |d| :: d[i].0 := d[i].1
  }

  /** Column i of a list of rows: `[row[i] for row in rows]`. */
  function ColumnAt(rows: seq<Series>, i: nat): (r: Series)
    requires forall k :: 0 <= k < |rows| ==> i < |rows[k]|
    ensures |r| == |rows| && forall k :: 0 <= k < |rows| ==> r[k] == rows[k][i]
  {
    seq(|rows|, k requires 0 <= k < |rows| => rows[k][i])
  }

  /**
   * `{c: [row[i] for row in rows] for i, c in enumerate(columns)}`; a label
   * that repeats keeps the column of its last position.
   */
  function ColumnsOf(rows: seq<Series>, columns: seq<Key>): map<Key, Series>
    requires forall k :: 0 <= k < |rows| ==> |columns| <= |rows[k]|
  {
    if columns == [] then map[]
    else ColumnsOf(rows, columns[..|columns| - 1])[columns[|columns| - 1] := ColumnAt(rows, |columns| - 1)]
  }

  lemma {:induction false} ColumnsOfKeys(rows: seq<Series>, columns: seq<Key>)
    requires forall k :: 0 <= k < |rows| ==> |columns| <= |rows[k]|
    ensures ColumnsOf(rows, columns).Keys == SetOf(columns)
  {
    if columns != [] {
      var n := |columns| - 1;
      ColumnsOfKeys(rows, columns[..n]);
      assert columns == columns[..n] + [columns[n]];
      SetOfSnoc(columns[..n], columns[n]);
    }
  }

  lemma {:induction false} ColumnsOfLookup(rows: seq<Series>, columns: seq<Key>, i: nat)
    requires forall k :: 0 <= k < |rows| ==> |columns| <= |rows[k]|
    requires Distinct(columns) && i < |columns|
    ensures columns[i] in ColumnsOf(rows, columns)
    ensures ColumnsOf(rows, columns)[columns[i]] == ColumnAt(rows, i)
  {
    var n := |columns| - 1;
    if i < n {
      var init := columns[..n];
      assert Distinct(init);
      ColumnsOfLookup(rows, init, i);
    }
  }

  /** The dictionary built from rows has one entry per label, holding that label's column. */
  lemma {:induction false} ColumnsOfAt(rows: seq<Series>, columns: seq<Key>)
    requires forall k :: 0 <= k < |rows| ==> |columns| <= |rows[k]|
    ensures ColumnsOf(rows, columns).Keys == SetOf(columns)
    ensures Distinct(columns) ==>
      forall i :: 0 <= i < |columns| ==> ColumnsOf(rows, columns)[columns[i]] == ColumnAt(rows, i)
  {
    ColumnsOfKeys(rows, columns);
    if Distinct(columns) {
      forall i | 0 <= i < |columns|
        ensures ColumnsOf(rows, columns)[columns[i]] == ColumnAt(rows, i)
      {
        ColumnsOfLookup(rows, columns, i);
      }
    }
  }

  // ---------------------------------------------------------------------
  // Renaming columns (the `columns` setter)
  // ---------------------------------------------------------------------

  /**
   * The first j pops of the renaming loop succeed: each of the first j old
   * labels is in the dictionary and was not popped already.
   */
  ghost predicate PopsOk(olds: seq<Key>, m: map<Key, Series>, j: nat)
    requires j <= |olds|
  {
    forall k :: 0 <= k < j ==> olds[k] in m && olds[k] !in olds[..k]
  }

  /** Every pop of the renaming loop succeeds. */
  ghost predicate Poppable(olds: seq<Key>, m: map<Key, Series>) {
    PopsOk(olds, m, |olds|)
  }

  lemma {:induction false} PoppableIff(olds: seq<Key>, m: map<Key, Series>)
    ensures Poppable(olds, m) <==> Distinct(olds) && forall k :: 0 <= k < |olds| ==> olds[k] in m
  {
    if Poppable(olds, m) {
      forall i, j | 0 <= i < j < |olds|
        ensures olds[i] != olds[j]
      {
        assert olds[..j][i] == olds[i];
      }
    }
  }

  /**
   * The dictionary the renaming loop builds: new_data[news[i]] = m[olds[i]]
   * for each position in turn, a later position overwriting an earlier one.
   */
  ghost function Renamed(olds: seq<Key>, news: seq<Key>, m: map<Key, Series>): map<Key, Series>
    requires |olds| == |news|
    requires forall k :: 0 <= k < |olds| ==> olds[k] in m
  {
    if olds == [] then map[]
    else Renamed(olds[..|olds| - 1], news[..|news| - 1], m)[news[|news| - 1] := m[olds[|olds| - 1]]]
  }

  lemma {:induction false} RenamedKeys(olds: seq<Key>, news: seq<Key>, m: map<Key, Series>)
    requires |olds| == |news|
    requires forall k :: 0 <= k < |olds| ==> olds[k] in m
    ensures Renamed(olds, news, m).Keys == SetOf(news)
  {
    if olds != [] {
      var n := |olds| - 1;
      RenamedKeys(olds[..n], news[..n], m);
      assert news == news[..n] + [news[n]];
      SetOfSnoc(news[..n], news[n]);
    }
  }

  lemma {:induction false} RenamedLookup(olds: seq<Key>, news: seq<Key>, m: map<Key, Series>, i: nat)
    requires |olds| == |news|
    requires forall k :: 0 <= k < |olds| ==> olds[k] in m
    requires Distinct(news) && i < |news|
    ensures news[i] in Renamed(olds, news, m)
    ensures Renamed(olds, news, m)[news[i]] == m[olds[i]]
  {
    var n := |olds| - 1;
    if i < n {
      assert Distinct(news[..n]);
      RenamedLookup(olds[..n], news[..n], m, i);
      assert news[i] != news[n];
    }
  }

  /**
   * After renaming, the labels are exactly the new ones, and with distinct
   * new labels the column stored under olds[i] is found under news[i].
   */
  lemma {:induction false} RenamedAt(olds: seq<Key>, news: seq<Key>, m: map<Key, Series>)
    requires |olds| == |news|
    requires forall k :: 0 <= k < |olds| ==> olds[k] in m
    ensures Renamed(olds, news, m).Keys == SetOf(news)
    ensures Distinct(news) ==>
      forall i :: 0 <= i < |news| ==> Renamed(olds, news, m)[news[i]] == m[olds[i]]
  {
    RenamedKeys(olds, news, m);
    if Distinct(news) {
      forall i | 0 <= i < |news|
        ensures Renamed(olds, news, m)[news[i]] == m[olds[i]]
      {
        RenamedLookup(olds, news, m, i);
      }
    }
  }

  /** Renaming to new labels and back restores the dictionary. */
  lemma RenameRoundTrip(olds: seq<Key>, news: seq<Key>, m: map<Key, Series>)
    requires |olds| == |news| && Distinct(olds) && Distinct(news)
    requires m.Keys == SetOf(olds)
    ensures forall k :: 0 <= k < |news| ==> news[k] in Renamed(olds, news, m)
    ensures Renamed(news, olds, Renamed(olds, news, m)) == m
  {
    assert forall k :: 0 <= k < |olds| ==> olds[k] in SetOf(olds);
    var there := Renamed(olds, news, m);
    RenamedKeys(olds, news, m);
    assert forall k :: 0 <= k < |news| ==> news[k] in SetOf(news);
    var back := Renamed(news, olds, there);
    RenamedKeys(news, olds, there);
    forall c | c in m
      ensures back[c] == m[c]
    {
      assert c in SetOf(olds);
      var i :| 0 <= i < |olds| && olds[i] == c;
      RenamedLookup(news, olds, there, i);
      RenamedLookup(olds, news, m, i);
    }
  }

  // ---------------------------------------------------------------------
  // The table
  // ---------------------------------------------------------------------

  class DataFrame {
    /** The column dictionary, from label to column values. */
    var data: map<Key, Series>
    /** The row labels. */
    var index: seq<Value>
    /** The ordered column labels (what the `columns` getter returns). */
    var columns: seq<Key>

    /**
     * The column list names each column of the dictionary exactly once. The
     * library does not enforce this; the operations below say when they keep it.
     */
    ghost predicate Aligned()
      reads this
    {
      Distinct(columns) && forall c :: c in data <==> c in columns
    }

    /** `DataFrame.empty`: there are no rows. */
    predicate IsEmpty()
      reads this
    {
      |index| == 0
    }

    /**
     * `DataFrame(data_dict, index, columns)`: the columns copied from the
     * dictionary; the column list given or the dictionary's keys in order;
     * the index given or `range(len(first column))`.
     */
    constructor FromDict(d: seq<(Key, Series)>, givenIndex: Option<seq<Value>>, givenColumns: Option<seq<Key>>)
      requires DistinctKeys(d)
      ensures data == DictOf(d)
      ensures columns == if givenColumns.Some? then givenColumns.value else KeysOf(d)
      ensures index == if givenIndex.Some? then givenIndex.value
                       else RangeIndex(if d == [] then 0 else |d[0].1|)
      ensures givenIndex.None? ==> (IsEmpty() <==> d == [] || d[0].1 == [])
      ensures givenColumns.None? ==> Aligned()
    {
      data := DictOf(d);
      columns := if givenColumns.Some? then givenColumns.value else KeysOf(d);
      var n := if d == [] then 0 else |d[0].1|;
      index := if givenIndex.Some? then givenIndex.value else RangeIndex(n);
      new;
      if givenColumns.None? {
        assert forall c :: c in data <==> c in columns;
      }
    }

    /** `DataFrame()` or `DataFrame(None, columns=...)`: no data and no rows. */
    constructor Blank(givenColumns: Option<seq<Key>>)
      ensures data == map[] && index == [] && IsEmpty()
      ensures columns == if givenColumns.Some? then givenColumns.value else []
    {
      data := map[];
      index := [];
      columns := if givenColumns.Some? then givenColumns.value else [];
    }

    /**
     * `DataFrame(rows, index, columns)`: column i holds entry i of every row.
     * Without a column list it raises ValueError; a row shorter than the
     * column list raises IndexError.
     */
    static method FromRows(rows: seq<Series>, givenIndex: Option<seq<Value>>, givenColumns: Option<seq<Key>>)
      returns (r: Result<DataFrame, PyError>)
      ensures givenColumns.None? ==> r == Err(ValueError)
      ensures givenColumns.Some? ==>
        (r.Ok? <==> forall k :: 0 <= k < |rows| ==> |givenColumns.value| <= |rows[k]|)
      ensures givenColumns.Some? && r.Err? ==> r.error == IndexError
      ensures r.Ok? ==> fresh(r.value)
      ensures r.Ok? ==> r.value.columns == givenColumns.value
      ensures r.Ok? ==> r.value.data == ColumnsOf(rows, givenColumns.value)
      ensures r.Ok? ==> r.value.index == if givenIndex.Some? then givenIndex.value else RangeIndex(|rows|)
      ensures r.Ok? && Distinct(givenColumns.value) ==> r.value.Aligned()
      ensures r.Ok? ==> (r.value.IsEmpty() <==> if givenIndex.Some? then givenIndex.value == [] else rows == [])
    {
      if givenColumns.None? {
        return Err(ValueError);
      }
      var cols := givenColumns.value;
      if exists k :: 0 <= k < |rows| && |rows[k]| < |cols| {
        return Err(IndexError);
      }
      var df := new DataFrame.Blank(givenColumns);
      df.data := ColumnsOf(rows, cols);
      df.index := if givenIndex.Some? then givenIndex.value else RangeIndex(|rows|);
      ColumnsOfAt(rows, cols);
      r := Ok(df);
    }

    /** `df[key]`: the column stored under key, or KeyError. */
    function Get(key: Key): (r: Result<Series, PyError>)
      reads this
      ensures r.Ok? <==> key in data
      ensures r.Ok? ==> r.value == data[key]
      ensures r.Err? ==> r.error == KeyError
    {
      if key in data then Ok(data[key]) else Err(KeyError)
    }

    /**
     * `df[key] = value`: stores value under key, appends key to the column
     * list only when it is absent, and leaves every other column alone.
     */
    method Set(key: Key, value: Series)
      modifies this
      ensures data == old(data)[key := value]
      ensures columns == if key in old(columns) then old(columns) else old(columns) + [key]
      ensures index == old(index)
      ensures IsEmpty() == old(IsEmpty())
      ensures Get(key) == Ok(value)
      ensures forall c :: c != key ==> Get(c) == old(Get(c))
      ensures old(Aligned()) ==> Aligned()
    {
      data := data[key := value];
      if key !in columns {
        columns := columns + [key];
      }
    }

    /**
     * `df.loc[mask, col]`: the values of column col at the true positions
     * of mask. With no true position nothing is looked up, so even a
     * missing column gives the empty series.
     */
    function Loc(mask: seq<bool>, col: Key): (r: Result<Series, PyError>)
      reads this
      ensures CountTrue(mask) == 0 ==> r == Ok([])
      ensures CountTrue(mask) > 0 && col !in data ==> r == Err(KeyError)
      ensures col in data ==> r == Select(mask, data[col])
      ensures r.Ok? ==> |r.value| == CountTrue(mask)
    {
      if TruePositions(mask) == [] then Ok([])
      else if col !in data then Err(KeyError)
      else Select(mask, data[col])
    }

    /**
     * The `columns` setter. A list of another length only replaces the
     * column list. A list of the same length moves each old label's column
     * to the new label at the same position, through PopColumns; labels of
     * the dictionary that are not in the old list are dropped. When a pop
     * raises KeyError the column list stays and the dictionary keeps what
     * the loop had not popped yet.
     */
    method SetColumns(newCols: seq<Key>) returns (o: Outcome<PyError>)
      modifies this
      ensures index == old(index)
      ensures |newCols| != |old(columns)| ==> o == Pass && columns == newCols && data == old(data)
      ensures |newCols| == |old(columns)| ==> (o.Pass? <==> Poppable(old(columns), old(data)))
      ensures |newCols| == |old(columns)| && o.Pass? ==>
        Poppable(old(columns), old(data)) &&
        columns == newCols && data == Renamed(old(columns), newCols, old(data))
      ensures o.Fail? ==> o.error == KeyError && columns == old(columns)
      ensures o.Fail? ==>
        exists j :: 0 <= j < |columns| && PopsOk(columns, old(data), j) &&
                    !PopsOk(columns, old(data), j + 1) && data == old(data) - SetOf(columns[..j])
      ensures old(Aligned()) && |newCols| == |old(columns)| && Distinct(newCols) ==> o.Pass? && Aligned()
    {
      if |newCols| != |columns| {
        columns := newCols;
        return Pass;
      }
      var newData, rest;
      o, newData, rest := PopColumns(columns, newCols, data);
      if o.Pass? {
        RenamedAt(columns, newCols, data);
        data := newData;
        columns := newCols;
      } else {
        data := rest;
      }
      if old(Aligned()) && Distinct(newCols) {
        PoppableIff(old(columns), old(data));
      }
    }
  }

  /**
   * The loop of the `columns` setter, on the dictionary m as a value:
   * `new_data[new] = m.pop(old)` for each pair of labels in turn. It either
   * completes, giving the renamed dictionary, or raises KeyError at the first
   * pop that fails, leaving `rest`, m without the labels popped before.
   */
  method PopColumns(olds: seq<Key>, news: seq<Key>, m: map<Key, Series>)
    returns (o: Outcome<PyError>, newData: map<Key, Series>, rest: map<Key, Series>)
    requires |olds| == |news|
    ensures o.Pass? <==> Poppable(olds, m)
    ensures o.Pass? ==> newData == Renamed(olds, news, m) && rest == m - SetOf(olds)
    ensures o.Fail? ==> o.error == KeyError
    ensures o.Fail? ==>
      exists j :: 0 <= j < |olds| && PopsOk(olds, m, j) && !PopsOk(olds, m, j + 1) && rest == m - SetOf(olds[..j])
  {
    newData, rest := map[], m;
    var i := 0;
    while i < |olds|
      invariant 0 <= i <= |olds|
      invariant PopsOk(olds, m, i)
      invariant rest == m - SetOf(olds[..i])
      invariant newData == Renamed(olds[..i], news[..i], m)
    {
      var c := olds[i];
      assert SetOf(olds[..i + 1]) == SetOf(olds[..i]) + {c} by {
        assert olds[..i + 1] == olds[..i] + [c];
      }
      if c !in rest {
        assert !PopsOk(olds, m, i + 1);
        assert !Poppable(olds, m);
        return Fail(KeyError), newData, rest;
      }
      assert olds[..i + 1][..i] == olds[..i] && news[..i + 1][..i] == news[..i];
      newData := newData[news[i] := rest[c]];
      rest := rest - {c};
      i := i + 1;
    }
    assert olds[..i] == olds && news[..i] == news;
    o := Pass;
  }
}
