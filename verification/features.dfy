/**
  The per-row feature builders: splitting the product name into its parts
  and one-hot encoding a categorical column.
 */
module Features {
  import opened Wrappers
  import opened Table
  import Text

  /**
    Assigning the split result to the three new columns fails unless the
    split is exactly three columns wide; `width` is the width it had.
   */
  datatype SplitError = ColumnsMismatch(width: nat)

  /** The whitespace tokens of a product name. */
  function Tokens(t: Transaction): seq<string> {
    Text.Split(t.productName)
  }

  /** The width of the expanded split: the largest token count over all rows, 0 for no rows. */
  function SplitWidth(df: seq<Transaction>): (w: nat)
    ensures forall i :: 0 <= i < |df| ==> |Tokens(df[i])| <= w
    ensures |df| == 0 ==> w == 0
    ensures |df| > 0 ==> exists i :: 0 <= i < |df| && |Tokens(df[i])| == w
  {
    if df == [] then 0
    else
      var w := SplitWidth(df[..|df| - 1]);
      var last := |Tokens(df[|df| - 1])|;
      if last > w then last else w
  }

  /** The `k`-th token, or missing when there are fewer tokens. */
  function Nth(words: seq<string>, k: nat): Option<string> {
    if k < |words| then Some(words[k]) else None
  }

  function SplitOne(t: Transaction): SplitTransaction {
    var words := Tokens(t);
    SplitTransaction(t, Nth(words, 0), Nth(words, 1), Nth(words, 2))
  }

  /**
    `split_alcohol_column`: a copy of the table with `AlcoholName`,
    `AlcoholClass` and `AlcoholId` taken from the tokens of `ProductName`.
    The split is expanded to as many columns as the longest name has tokens;
    the assignment succeeds only when that is three. Shorter names are
    padded with missing values rather than rejected.
   */
  function SplitAlcoholColumn(df: seq<Transaction>): (r: Result<seq<SplitTransaction>, SplitError>)
    ensures r.Ok? <==>
      (exists i :: 0 <= i < |df| && |Tokens(df[i])| == 3) &&
      (forall i :: 0 <= i < |df| ==> |Tokens(df[i])| <= 3)
    ensures r.Err? ==> r.error.width != 3 && forall i :: 0 <= i < |df| ==> |Tokens(df[i])| <= r.error.width
    ensures r.Err? && |df| > 0 ==> exists i :: 0 <= i < |df| && |Tokens(df[i])| == r.error.width
    ensures r.Ok? ==> |r.value| == |df|
    ensures r.Ok? ==> forall i :: 0 <= i < |df| ==> r.value[i].row == df[i]
    ensures r.Ok? ==> forall i :: 0 <= i < |df| && |Tokens(df[i])| == 3 ==>
      var words := Tokens(df[i]);
      r.value[i] == SplitTransaction(df[i], Some(words[0]), Some(words[1]), Some(words[2]))
    ensures r.Ok? ==> forall i :: 0 <= i < |df| && |Tokens(df[i])| < 3 ==> r.value[i].alcoholId == None
  {
    var width := SplitWidth(df);
    if width != 3 then Err(ColumnsMismatch(width))
    else Ok(seq(|df|, i requires 0 <= i < |df| => SplitOne(df[i])))
  }

  /** After a successful split, row `i` holds its first three tokens, missing where there are fewer. */
  lemma SplitFields(df: seq<Transaction>, i: int)
    requires SplitAlcoholColumn(df).Ok? && 0 <= i < |df|
    ensures var words := Tokens(df[i]);
      SplitAlcoholColumn(df).value[i] == SplitTransaction(df[i], Nth(words, 0), Nth(words, 1), Nth(words, 2))
  {
  }

  /** The distinct values present in a column: the one-hot column labels. */
  function Labels(col: seq<Keyed>): (labels: set<string>)
    ensures forall v :: v in labels <==> exists i :: 0 <= i < |col| && col[i].value == Some(v)
  {
    set i | 0 <= i < |col| && col[i].value.Some? :: col[i].value.value
  }

  /** Whether the indicator of `l` is set in a one-hot row. */
  predicate IsSet(d: Dummies, l: string) {
    l in d.indicators && d.indicators[l]
  }

  /** The labels whose indicator is set. */
  function SetLabels(d: Dummies): set<string> {
    set l | l in d.indicators && d.indicators[l]
  }

  function Indicators(labels: set<string>, v: Option<string>): map<string, bool> {
    map l | l in labels :: v == Some(l)
  }

  /**
    `one_hot_encode`: `get_dummies` of one column beside `CustomerId`. One
    output row per input row with the same customer; the indicator columns
    are the distinct values present in the column; a row's only set
    indicator is its own value's, and a missing value sets none.
   */
  function OneHotEncode(col: seq<Keyed>): (dummies: seq<Dummies>)
    ensures |dummies| == |col|
    ensures forall i :: 0 <= i < |col| ==> dummies[i].customerId == col[i].customerId
    ensures forall i :: 0 <= i < |col| ==> dummies[i].indicators.Keys == Labels(col)
    ensures forall i, l {:trigger IsSet(dummies[i], l)} :: 0 <= i < |col| ==>
      (IsSet(dummies[i], l) <==> col[i].value == Some(l))
  {
    var labels := Labels(col);
    seq(|col|, i requires 0 <= i < |col| => Dummies(col[i].customerId, Indicators(labels, col[i].value)))
  }

  /**
    `AlcoholName + AlcoholClass` on text columns: missing if either operand
    is missing, otherwise the left text followed directly by the right.
   */
  function ConcatCells(a: Option<string>, b: Option<string>): (r: Option<string>)
    ensures r.Some? <==> a.Some? && b.Some?
    ensures r.Some? ==> |r.value| == |a.value| + |b.value|
    ensures r.Some? ==> r.value[..|a.value|] == a.value && r.value[|a.value|..] == b.value
  {
    if a.Some? && b.Some? then Some(a.value + b.value) else None
  }

  /** The combined `Alcohol` column beside `CustomerId`. */
  function AlcoholColumn(df: seq<SplitTransaction>): (col: seq<Keyed>)
    ensures |col| == |df|
    ensures forall i :: 0 <= i < |df| ==> col[i].customerId == df[i].row.customerId
    ensures forall i :: 0 <= i < |df| ==>
      (col[i].value.Some? <==> df[i].alcoholName.Some? && df[i].alcoholClass.Some?)
  {
    seq(|df|, i requires 0 <= i < |df| =>
      Keyed(df[i].row.customerId, ConcatCells(df[i].alcoholName, df[i].alcoholClass)))
  }

  /** Every one-hot row has exactly one indicator set, its own value's; a missing value sets none. */
  lemma OneHotExactlyOne(col: seq<Keyed>, i: int)
    requires 0 <= i < |col|
    ensures SetLabels(OneHotEncode(col)[i]) == if col[i].value.Some? then {col[i].value.value} else {}
  {
    var d := OneHotEncode(col)[i];
    if col[i].value.Some? {
      assert IsSet(d, col[i].value.value);
    }
  }

  /** The one-hot labels of a table column are the values present in that column. */
  lemma SelectLabels(df: seq<SplitTransaction>, c: Column, l: string)
    ensures l in Labels(Select(df, c)) <==> exists i :: 0 <= i < |df| && Cell(df[i], c) == Some(l)
  {
    var col := Select(df, c);
    if l in Labels(col) {
      var i :| 0 <= i < |col| && col[i].value == Some(l);
      assert Cell(df[i], c) == Some(l);
    }
    if exists i :: 0 <= i < |df| && Cell(df[i], c) == Some(l) {
      var i :| 0 <= i < |df| && Cell(df[i], c) == Some(l);
      assert col[i].value == Some(l);
    }
  }

  /** The one-hot row of a table row: indicators for every label, set for its own value only. */
  lemma OneHotRowOfTable(df: seq<SplitTransaction>, c: Column, j: int)
    requires 0 <= j < |df|
    ensures var d := OneHotEncode(Select(df, c));
      && d[j].indicators.Keys == Labels(Select(df, c))
      && forall l :: l in d[j].indicators ==> (d[j].indicators[l] <==> Cell(df[j], c) == Some(l))
  {
    var d := OneHotEncode(Select(df, c));
    forall l | l in d[j].indicators ensures d[j].indicators[l] <==> Cell(df[j], c) == Some(l) {
      assert IsSet(d[j], l) <==> Select(df, c)[j].value == Some(l);
    }
  }
}
