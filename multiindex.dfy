/**
 * The MultiIndex: a list of label tuples, built as the cartesian product of
 * one label list per level, from which one level can be projected.
 * A tuple is a sequence of labels.
 */
module MultiIndex {
  import opened Wrappers

  /** The tuples [a] + t, for each t in tails in order. */
  function Cons<T>(a: T, tails: seq<seq<T>>): (r: seq<seq<T>>)
    ensures |r| == |tails|
    ensures forall j :: 0 <= j < |tails| ==> r[j] == [a] + tails[j]
  {
    seq(|tails|, j requires 0 <= j < |tails| => [a] + tails[j])
  }

  /** Each head in turn, followed by every tail: one level of the product. */
  function Prefixed<T>(heads: seq<T>, tails: seq<seq<T>>): (r: seq<seq<T>>)
    ensures |r| == |heads| * |tails|
  {
    if heads == [] then []
    else Cons(heads[0], tails) + Prefixed(heads[1..], tails)
  }

  /** `MultiIndex.from_product(levels)`, that is `itertools.product(*levels)`. */
  function FromProduct<T>(levels: seq<seq<T>>): (r: seq<seq<T>>)
    ensures |r| == ProdLen(levels)
  {
    if levels == [] then [[]]
    else Prefixed(levels[0], FromProduct(levels[1..]))
  }

  /** The product of the level sizes. */
  function ProdLen<T>(levels: seq<seq<T>>): nat
  {
    if levels == [] then 1 else |levels[0]| * ProdLen(levels[1..])
  }

  lemma ShiftRow(i: nat, n: nat)
    ensures (i - 1) * n + n == i * n
  {
  }

  /** Position i * |tails| + j of one level holds heads[i] followed by tails[j]. */
  lemma {:induction false} PrefixedAt<T>(heads: seq<T>, tails: seq<seq<T>>, i: nat, j: nat)
    requires i < |heads| && j < |tails|
    ensures i * |tails| + j < |Prefixed(heads, tails)|
    ensures Prefixed(heads, tails)[i * |tails| + j] == [heads[i]] + tails[j]
  {
    var n := |tails|;
    var first := Cons(heads[0], tails);
    var rest := Prefixed(heads[1..], tails);
    assert Prefixed(heads, tails) == first + rest;
    if i == 0 {
      assert (first + rest)[j] == first[j];
    } else {
      PrefixedAt(heads[1..], tails, i - 1, j);
      var k := (i - 1) * n + j;
      ShiftRow(i, n);
      assert k + n == i * n + j;
      assert (first + rest)[n + k] == rest[k];
    }
  }

  /** When every tail has m labels, every tuple of the level has m + 1. */
  lemma {:induction false} PrefixedTupleLength<T>(heads: seq<T>, tails: seq<seq<T>>, m: nat)
    requires forall k :: 0 <= k < |tails| ==> |tails[k]| == m
    ensures forall k :: 0 <= k < |Prefixed(heads, tails)| ==> |Prefixed(heads, tails)[k]| == m + 1
  {
    if heads != [] {
      PrefixedTupleLength(heads[1..], tails, m);
    }
  }

  /** A tuple is in one level of the product iff its head and its tail are. */
  lemma {:induction false} PrefixedMember<T>(heads: seq<T>, tails: seq<seq<T>>, t: seq<T>)
    ensures t in Prefixed(heads, tails) <==> |t| > 0 && t[0] in heads && t[1..] in tails
  {
    if heads != [] {
      PrefixedMember(heads[1..], tails, t);
      if |t| > 0 && t[0] == heads[0] && t[1..] in tails {
        var j :| 0 <= j < |tails| && tails[j] == t[1..];
        assert Cons(heads[0], tails)[j] == t;
      }
      if t in Cons(heads[0], tails) {
        var j :| 0 <= j < |tails| && Cons(heads[0], tails)[j] == t;
        assert t[1..] == tails[j];
      }
    }
  }

  /**
   * The product holds exactly the tuples with one label per level, drawn
   * from that level.
   */
  lemma {:induction false} FromProductMember<T>(levels: seq<seq<T>>, t: seq<T>)
    ensures t in FromProduct(levels) <==>
      |t| == |levels| && forall k :: 0 <= k < |levels| ==> t[k] in levels[k]
  {
    if levels == [] {
    } else {
      PrefixedMember(levels[0], FromProduct(levels[1..]), t);
      if |t| > 0 {
        FromProductMember(levels[1..], t[1..]);
        if |t| == |levels| && forall k :: 0 <= k < |levels| ==> t[k] in levels[k] {
          assert forall k :: 0 <= k < |levels| - 1 ==> t[1..][k] == t[k + 1];
        }
        if t in FromProduct(levels) {
          forall k | 0 <= k < |levels|
            ensures t[k] in levels[k]
          {
            if k > 0 {
              assert t[1..][k - 1] == t[k];
            }
          }
        }
      }
    }
  }

  /** With two levels A and B, position i * |B| + j holds the pair (A[i], B[j]). */
  lemma FromProductPairAt<T>(a: seq<T>, b: seq<T>, i: nat, j: nat)
    requires i < |a| && j < |b|
    ensures i * |b| + j < |FromProduct([a, b])|
    ensures FromProduct([a, b])[i * |b| + j] == [a[i], b[j]]
  {
    var tails := FromProduct([b]);
    assert [a, b][1..] == [b];
    assert [b][1..] == [];
    assert FromProduct([b][1..]) == [[]];
    PrefixedAt(b, [[]], j, 0);
    assert tails[j] == [b[j]];
    PrefixedAt(a, tails, i, j);
  }

  /** Python's `t[level]`, where a negative level counts from the end. */
  function LabelAt<T>(t: seq<T>, level: int): T
    requires -|t| <= level < |t|
  {
    if level >= 0 then t[level] else t[|t| + level]
  }

  /**
   * `MultiIndex.get_level_values(level)`: the label at `level` of every
   * tuple, raising IndexError when some tuple has no such position.
   */
  function GetLevelValues<T>(index: seq<seq<T>>, level: int): (r: Result<seq<T>, PyError>)
    ensures r.Err? <==> exists i :: 0 <= i < |index| && !(-|index[i]| <= level < |index[i]|)
    ensures r.Err? ==> r.error == IndexError
    ensures r.Ok? ==> |r.value| == |index|
    ensures r.Ok? ==> forall i :: 0 <= i < |index| ==> r.value[i] == LabelAt(index[i], level)
  {
    if exists i :: 0 <= i < |index| && !(-|index[i]| <= level < |index[i]|) then Err(IndexError)
    else Ok(seq(|index|, i requires 0 <= i < |index| => LabelAt(index[i], level)))
  }

  /**
   * Projecting level k of a product gives one label of level k per tuple:
   * it never raises, and for two levels the label at i * |B| + j is A[i] at
   * level 0 and B[j] at level 1.
   */
  lemma LevelValuesOfPair<T>(a: seq<T>, b: seq<T>, i: nat, j: nat)
    requires i < |a| && j < |b|
    ensures i * |b| + j < |FromProduct([a, b])|
    ensures GetLevelValues(FromProduct([a, b]), 0).Ok?
    ensures GetLevelValues(FromProduct([a, b]), 1).Ok?
    ensures GetLevelValues(FromProduct([a, b]), 0).value[i * |b| + j] == a[i]
    ensures GetLevelValues(FromProduct([a, b]), 1).value[i * |b| + j] == b[j]
  {
    FromProductTupleLength([a, b]);
    FromProductPairAt(a, b, i, j);
  }

  /** Every tuple of the product has one label per level. */
  lemma {:induction false} FromProductTupleLength<T>(levels: seq<seq<T>>)
    ensures forall k :: 0 <= k < |FromProduct(levels)| ==> |FromProduct(levels)[k]| == |levels|
  {
    if levels != [] {
      FromProductTupleLength(levels[1..]);
      PrefixedTupleLength(levels[0], FromProduct(levels[1..]), |levels| - 1);
    }
  }

  /** The columns a price download reports: (ticker, field) for each field. */
  lemma PriceColumnsExample(ticker: string)
    ensures FromProduct([[ticker], ["Open", "Close"]]) == [[ticker, "Open"], [ticker, "Close"]]
    ensures GetLevelValues(FromProduct([[ticker], ["Open", "Close"]]), 1) == Ok(["Open", "Close"])
    ensures GetLevelValues(FromProduct([[ticker], ["Open", "Close"]]), 0) == Ok([ticker, ticker])
  {
    var a, b := [ticker], ["Open", "Close"];
    FromProductPairAt(a, b, 0, 0);
    FromProductPairAt(a, b, 0, 1);
    assert [a, b][1..] == [b];
    assert [b][1..] == [];
    assert ProdLen([a, b]) == 2;
    var p := FromProduct([a, b]);
    assert p == [[ticker, "Open"], [ticker, "Close"]];
    var level1, level0 := GetLevelValues(p, 1), GetLevelValues(p, 0);
    assert level1.value == ["Open", "Close"];
    assert level0.value == [ticker, ticker];
  }
}
