# A verified model of the in-repository table library

The financial-advisory dashboard ships its own small stand-in for pandas
(`pandas.py`). The page imports it as `pandas`, and so do the tests. This
project models that library in Dafny and proves what its operations compute:

- **Series** is a list of cells with these operations: `pct_change` (period
  returns), `fillna`, `sum`, element-wise `**`, `*` and `==`, and `iloc`.
- **MultiIndex** builds label tuples as a cartesian product and projects one
  level of them.
- **DataFrame** is a mutable table. Its state is a column dictionary, a row
  index and an ordered column list. It has constructors from a dictionary
  and from a list of rows, column read and write, boolean-mask selection
  through `loc`, and the positional `columns` setter.
- **to_numeric** coerces cells to numbers, either raising or turning what
  does not convert into NaN.

A cell is `Num(real) | NaN | Null | Str(string)`. Python ints and floats are
both `Num`, NaN is a tag of its own, and `Null` is None. The exceptions the model
covers (TypeError, ValueError, KeyError and IndexError) become explicit error
values, `Err(TypeError)`, `Err(KeyError)` and so on, and no precondition rules
the inputs that raise them out. OverflowError is not modelled (see below).

Modules, one per component: `Wrappers` (result types, exception kinds),
`Values` (cells, Python `==` and `float(...)` on one cell), `Series`,
`MultiIndex`, `Frame` (the `DataFrame` class and selection), `Numeric`
(`to_numeric`), and `Scenarios` (a client replaying a test fixture).

The loops of the source are methods proved against recursive specification
functions: `PctChange` against `PctChangeOf`, `Sum` against `SumOf`,
`ToNumeric` against `ToNumericOf`, and `PopColumns` against `Renamed`. The comprehensions are
functions. The table is a class whose methods state its whole new state.

## Model

| member | source | states |
|---|---|---|
| `Values.PyEq` | pandas.py:21-22 | Python `==` on cells: true exactly when the cells are identical and not NaN (NaN equals nothing, None equals None) |
| `Values.Float` | pandas.py:142-143 | `float(v)`: numbers and NaN pass through; None raises TypeError; a string raises ValueError exactly when `ParseNum` (an optional sign, digits, at most one decimal point) does not read it, and otherwise gives the number `ParseNum` reads; a success is always a number or NaN |
| `Values.ParseNatDigits` | pandas.py:143 | `ParseNum`, the string reading `float` uses, gives back a printed natural number, with or without a minus sign |
| `Series.PctStep` | pandas.py:31-36 | one step of `pct_change`: NaN after a 0, None or NaN prior value; otherwise `(curr - prev) / prev` runs, and it raises TypeError exactly when an operand is not a number or NaN; a result is always a number or NaN |
| `Series.PctChangeSteps` | pandas.py:28-37 | `pct_change` fails iff some step fails; otherwise it has length max(1, n) (so `[]` gives `[NaN]`), starts with NaN, and position i holds the step from s[i-1] to s[i] |
| `Series.PctChangeSpec` | pandas.py:31-36 | NaN at each i ≥ 1 whose prior value is 0, None or NaN; `(s[i] - s[i-1]) / s[i-1]` after a non-zero number followed by a number; NaN after a non-zero number followed by NaN |
| `Series.PctChangeRaises` | pandas.py:33-36 | `pct_change` raises exactly when a prior value is a string, or a non-zero prior number is followed by None or a string |
| `Series.PctChangeExample` | pandas.py:28-37 | closes [2, 3, 4] give [NaN, 0.5, 1/3] |
| `Series.PctChange` | pandas.py:28-37 | the append loop returns exactly `PctChangeOf(s)`, including the TypeError path |
| `Series.Fillna` | pandas.py:39-40 | same length; every None/NaN replaced by the value; every other cell unchanged; no missing cell remains when the fill value is not missing |
| `Series.FillnaIdempotent` | pandas.py:39-40 | filling twice with one value equals filling once |
| `Series.SumSpec` | pandas.py:42-48 | `sum` raises exactly on a string cell; otherwise it equals the total of the non-missing cells, and 0 for a series with none |
| `Series.SumFillnaZero` | pandas.py:42-48 | `sum(s) == sum(s.fillna(0))`, errors included |
| `Series.Sum` | pandas.py:42-48 | the accumulator loop returns exactly `SumOf(s)` |
| `Series.Pow` | pandas.py:50-51 | `s ** n` raises iff a cell is a string; otherwise same length, element-wise power, None exactly where None was |
| `Series.MulSeries` | pandas.py:54-55 | `s * t` for two series: length min(len(s), len(t)) as `zip` truncates, element-wise product, raises iff a zipped cell is None or a string |
| `Series.MulScalar` | pandas.py:56 | `s * c`: same length, every cell times c; raises iff the series is non-empty and c or a cell is not a number or NaN |
| `Series.MulSeriesCommutes` | pandas.py:54-55 | element-wise multiplication of two series commutes |
| `Series.PowTwoIsSelfProduct` | pandas.py:50-55 | on numbers and NaN, `s ** 2 == s * s` |
| `Series.Eq` | pandas.py:21-22 | `s == x` is a mask of the same length, true exactly where the cell is x and x is not NaN |
| `Series.ILoc` | pandas.py:10-19 | `iloc[i]` returns s[i], counts a negative i from the end, and raises IndexError exactly outside [-n, n) |
| `MultiIndex.FromProduct` | pandas.py:60-62 | `from_product` has one tuple per combination: the product of the level sizes |
| `MultiIndex.FromProductMember` | pandas.py:60-62 | a tuple is in the product iff it has one label per level, each drawn from its level |
| `MultiIndex.FromProductTupleLength` | pandas.py:60-62 | every tuple of the product has exactly one label per level |
| `MultiIndex.FromProductPairAt` | pandas.py:60-62 | for two levels A and B, position i·len(B) + j holds (A[i], B[j]) |
| `MultiIndex.GetLevelValues` | pandas.py:64-65 | `get_level_values(l)` gives the label at l of every tuple, counting a negative l from the end, and raises IndexError iff some tuple has no position l |
| `MultiIndex.LevelValuesOfPair` | pandas.py:64-65 | projecting level 0 (1) of a two-level product never raises and gives A[i] (B[j]) at position i·len(B) + j |
| `MultiIndex.PriceColumnsExample` | tests/test_get_price_data.py:11 | `from_product([[t], ["Open", "Close"]])` is [(t, Open), (t, Close)], and its level 1 is ["Open", "Close"] |
| `Frame.TruePositions` | pandas.py:105 | the positions of the true mask entries: each true position exactly once, in increasing order, as many as there are true entries |
| `Frame.Select` | pandas.py:106-107 | the column's values at the true positions, in order, one per true entry; IndexError iff a true position lies past the column's end |
| `Frame.SelectAll` | pandas.py:103-107 | an all-true mask as long as the column selects the whole column |
| `Frame.LocOfEq` | pandas.py:103-107 | selecting a column by its own `== x` mask gives x once per occurrence of x, and nothing when x is NaN |
| `Frame.DictOf` | pandas.py:71 | the column dictionary has exactly the given keys, each holding its own column |
| `Frame.ColumnsOfAt` | pandas.py:78 | the dictionary built from rows has one key per column label; with distinct labels, label i holds entry i of every row |
| `Frame.RenamedAt` | pandas.py:125-128 | after renaming, the dictionary's keys are exactly the new labels, and with distinct new labels the column under old[i] is found under new[i] |
| `Frame.RenameRoundTrip` | pandas.py:116-129 | renaming to distinct new labels and back restores the column dictionary |
| `Frame.PopColumns` | pandas.py:125-128 | the pop loop completes iff every old label is present and not popped already, and gives the renamed dictionary; else it raises KeyError at the first failing pop and leaves the dictionary without the labels popped before it |
| `Frame.DataFrame.FromDict` | pandas.py:69-74 | the data is the dictionary; the columns are the given list or the keys in order; the index is the given one or `range(len(first column))`, so without a given index `empty` (the predicate `IsEmpty`, pandas.py:85-87) holds iff there is no column or the first is empty; the columns match the data when none were given |
| `Frame.DataFrame.FromRows` | pandas.py:75-79 | no column list raises ValueError; a row shorter than the column list raises IndexError; otherwise column i holds entry i of every row, the index is the given one or `range(len(rows))`, and the table is aligned when the labels are distinct; `empty` holds iff the given index is empty, or, without one, there are no rows |
| `Frame.DataFrame.Blank` | pandas.py:80-83 | any other `data` gives no columns' data, no rows (`empty`), and the given column list or [] |
| `Frame.DataFrame.Get` | pandas.py:89-90 | `df[key]` is the column stored under key, and KeyError iff there is none |
| `Frame.DataFrame.Set` | pandas.py:92-95 | `df[key] = v` stores v under key, appends key to the columns only when absent, leaves every other column, the index and so `empty` unchanged, and keeps the columns matching the data |
| `Frame.DataFrame.Loc` | pandas.py:97-110 | `df.loc[mask, col]` is the selection from column col, has one value per true entry, and is empty without a lookup (so no KeyError) when no entry is true |
| `Frame.DataFrame.SetColumns` | pandas.py:116-129 | a list of another length only replaces the column list; a list of the same length succeeds iff every pop does, then gives columns == new and the renamed data; a failure raises KeyError with the columns unchanged; a table whose columns match its data is renamed to distinct labels without error and stays matched |
| `Numeric.ToNumericScalar` | pandas.py:133-139 | a single value converts as `float` does; under "coerce" it never raises and a failure becomes NaN; otherwise the `float` error propagates |
| `Numeric.ToNumeric` | pandas.py:140-149 | the conversion loop returns exactly `ToNumericOf(values, errors)`, the error path included |
| `Numeric.ToNumericValues` | pandas.py:140-149 | `to_numeric` on a list succeeds iff errors is "coerce" or every cell converts; then it has the same length, each cell is converted or NaN, and all are numbers or NaN |
| `Numeric.ToNumericFirstError` | pandas.py:141-148 | when `to_numeric` raises, errors is not "coerce", and the error is that of the first cell that does not convert |
| `Numeric.ToNumericExamples` | pandas.py:132-149 | "25" coerces to 25 and "abc" to NaN; with "raise", "abc" raises ValueError; None coerces to NaN or raises TypeError |
| `Numeric.ToNumericOfPrinted` | pandas.py:133-135 | converting a printed natural number gives that number under any errors setting |
| `Numeric.CoercedIdempotent` | pandas.py:132-149 | what coercion returns converts to itself |
| `Scenarios.PriceDownloadReturn` | tests/test_get_price_data.py:9-20 | the fixture's frame (rows [1,2],[2,3],[3,4] under (ticker, Open/Close) columns), flattened to its field level, with `Return = Close.pct_change()`, has return 0.5 at position 1 |

## Left out

- `app.py` is Streamlit page layout, charts, image loading and an HTTP news fetch with fixed fallback articles. It is all I/O and display.
- `streamlit_stub.py` holds no-op stubs and an identity decorator.
- `read_csv` reads a file, and `date_range` depends on datetime parsing. Row labels are opaque cells in the model, so a date index is just a list of cells.
- `detect_ticker`, `extract_ticker_weight` and `get_price_data` are imported by the tests from `app.py`, but `app.py` does not define them, so there is no source text to model. The flattening step in `Scenarios.PriceDownloadReturn` (renaming the columns to their level-1 labels) is the scenario's own choice and not a model of `get_price_data`.
- `values` returns a copy of the list. The model's sequences are values, so the copy and the identity are the same thing.
- The `columns` getter returns the list object itself, and all three constructors keep the caller's column list without copying it (pandas.py:83); in the price-download fixture the MultiIndex object itself becomes the column list. A later `df[key] = v` therefore also appends to that caller's list. The model's fields are values, so this aliasing is not captured.
- The `hasattr(self, "_columns")` branch of the setter cannot be reached, because every constructor sets `_columns`.
- Column labels are strings (`Name`) or tuples of strings (`Tuple`). Python accepts any hashable label, such as `columns=[0, 1]`, where `1` and `1.0` are the same key; such labels are not modelled.
- The column dictionary is a Dafny `map`, which has no insertion order. Order lives in `columns`. `FromDict` takes the dictionary as a sequence of pairs with distinct keys, as a Python dictionary has.
- IEEE-754 floating point: rounding, infinities and signed zero are not modelled. Division is exact on reals.
- OverflowError: Python raises it when `**` on floats, or an int converted to float by `float(...)`, `/`, `*` or `+`, leaves the double range (`1e200 ** 2`, `float(10**400)`). This affects `Pow`, `Float`, `PctStep`, `MulCell` and `SumOf`, which compute the exact real instead.
- `Series.PctStep`: a prior value that is a NaN other than the `math.nan` object escapes the `in (0, math.nan)` identity test. Python then raises TypeError when the current value is None or a string, while the model gives NaN.
- `Values.Float`: accepts only an optional sign followed by ASCII digits with at most one decimal point. Python's `float` also accepts exponents, `inf`, `nan`, surrounding whitespace, underscores and non-ASCII decimal digits (fullwidth or Arabic-Indic, as in `float("２５")`); the model treats such strings as unparseable.
- `Series.Pow`: natural exponents only. Negative and fractional powers are not modelled.
- `Series.MulSeries`, `Series.MulScalar`: a string times an int repeats the string in Python, and an int times a plain list repeats the list. The model raises TypeError for every string operand and takes a scalar operand to be a cell.
- Booleans as numbers (`True * 2`) are not modelled, and masks are sequences of `bool` rather than arbitrary truthy values.
- `iloc` slices, and the messages carried by exceptions, are not modelled.
- The DataFrame constructors assume the dictionary values and the rows are lists. `list(v)` of a non-iterable value and indexing into a non-list row are not modelled.
- `Frame.DataFrame.Set`: takes the new column as a series. `list(value)` at pandas.py:93 also turns a string into its characters and raises TypeError on a non-iterable value; neither is modelled.
