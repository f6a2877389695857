/**
  What `aggregate_transactions` promises: one row per customer and day, one
  column per distinct `Alcohol` key, and a cell that is set exactly when
  that basket holds a purchase with that key, however many there are.
 */
module BasketFacts {
  import opened Wrappers
  import opened Rows
  import opened Table
  import opened Features
  import opened Baskets

  /** After a successful split, row `i` of the `Alcohol` column is the row's key beside its customer. */
  lemma AlcoholCellAt(df: seq<Transaction>, i: int)
    requires SplitAlcoholColumn(df).Ok? && 0 <= i < |df|
    ensures var col := AlcoholColumn(SplitAlcoholColumn(df).value);
      |col| == |df| && col[i] == Keyed(df[i].customerId, AlcoholKey(df[i]))
  {
    SplitFields(df, i);
  }

  /** Row `i` of `products` is in row `i`'s basket and marks row `i`'s key. */
  lemma ProductAt(df: seq<Transaction>, l: string, i: int)
    requires SplitAlcoholColumn(df).Ok? && 0 <= i < |df|
    ensures var col := AlcoholColumn(SplitAlcoholColumn(df).value);
      var products := Products(df, OneHotEncode(col));
      && BasketOf(products[i]) == TransactionBasket(df[i])
      && (Bought(products[i], l) <==> AlcoholKey(df[i]) == Some(l))
  {
    var col := AlcoholColumn(SplitAlcoholColumn(df).value);
    var d := OneHotEncode(col);
    AlcoholCellAt(df, i);
    assert IsSet(d[i], l) <==> col[i].value == Some(l);
    assert d[i].customerId == col[i].customerId;
    var products := Products(df, d);
    assert products[i] == ProductRow(d[i].customerId, df[i].transactionDate, d[i].indicators);
  }

  /** The `Alcohol` labels are the keys present in the table. */
  lemma AlcoholLabels(df: seq<Transaction>, l: string)
    requires SplitAlcoholColumn(df).Ok?
    ensures l in Labels(AlcoholColumn(SplitAlcoholColumn(df).value))
        <==> exists i :: 0 <= i < |df| && AlcoholKey(df[i]) == Some(l)
  {
    var col := AlcoholColumn(SplitAlcoholColumn(df).value);
    if l in Labels(col) {
      var i :| 0 <= i < |col| && col[i].value == Some(l);
      AlcoholCellAt(df, i);
    }
    if exists i :: 0 <= i < |df| && AlcoholKey(df[i]) == Some(l) {
      var i :| 0 <= i < |df| && AlcoholKey(df[i]) == Some(l);
      AlcoholCellAt(df, i);
    }
  }

  /** The grouped maximum of an indicator is set exactly when some row of that group sets it. */
  lemma GroupMaxCell(products: seq<ProductRow>, labels: set<string>, k: BasketKey, l: string)
    requires k in GroupMax(products, labels) && l in labels
    ensures GroupMax(products, labels)[k][l]
        <==> exists i :: 0 <= i < |products| && BasketOf(products[i]) == k && Bought(products[i], l)
  {
    var g := Group(products, BasketOf, k);
    assert GroupMax(products, labels)[k][l] == ColumnMax(g, l);
    if ColumnMax(g, l) {
      var j :| 0 <= j < |g| && Bought(g[j], l);
      var i :| 0 <= i < |products| && products[i] == g[j];
    }
    if exists i :: 0 <= i < |products| && BasketOf(products[i]) == k && Bought(products[i], l) {
      var i :| 0 <= i < |products| && BasketOf(products[i]) == k && Bought(products[i], l);
      var j :| 0 <= j < |g| && g[j] == products[i];
    }
  }

  /** One basket row per (customer, date) pair that occurs in the table, and no other. */
  lemma BasketKeys(df: seq<Transaction>)
    requires SplitAlcoholColumn(df).Ok?
    ensures AggregateTransactions(df).Ok?
    ensures AggregateTransactions(df).value.Keys == Keys(df, TransactionBasket)
  {
    var col := AlcoholColumn(SplitAlcoholColumn(df).value);
    var products := Products(df, OneHotEncode(col));
    forall i | 0 <= i < |products| ensures BasketOf(products[i]) == TransactionBasket(df[i]) {
      ProductAt(df, "", i);
    }
    KeysCorrespond(products, BasketOf, df, TransactionBasket);
  }

  /** Every basket row has one column per distinct `Alcohol` key present anywhere in the table. */
  lemma BasketColumns(df: seq<Transaction>, k: BasketKey, l: string)
    requires SplitAlcoholColumn(df).Ok?
    ensures AggregateTransactions(df).Ok?
    ensures k in AggregateTransactions(df).value ==>
      (l in AggregateTransactions(df).value[k] <==> exists i :: 0 <= i < |df| && AlcoholKey(df[i]) == Some(l))
  {
    AlcoholLabels(df, l);
  }

  /** Row by row, the product rows of basket `k` marking `l` are the transactions of `k` with key `l`. */
  lemma ProductRowsMatch(df: seq<Transaction>, k: BasketKey, l: string)
    requires SplitAlcoholColumn(df).Ok?
    ensures var col := AlcoholColumn(SplitAlcoholColumn(df).value);
      var products := Products(df, OneHotEncode(col));
      |products| == |df| &&
      forall i :: 0 <= i < |df| ==>
        ((BasketOf(products[i]) == k && Bought(products[i], l))
          <==> (TransactionBasket(df[i]) == k && AlcoholKey(df[i]) == Some(l)))
  {
    var col := AlcoholColumn(SplitAlcoholColumn(df).value);
    var products := Products(df, OneHotEncode(col));
    forall i | 0 <= i < |df|
      ensures (BasketOf(products[i]) == k && Bought(products[i], l))
          <==> (TransactionBasket(df[i]) == k && AlcoholKey(df[i]) == Some(l))
    {
      ProductAt(df, l, i);
    }
  }

  /**
    A basket's cell for `l` is set exactly when that customer bought, on
    that day, at least one product whose `Alcohol` key is `l`. A key
    bought nowhere has no column at all, so its cell is not set either.
   */
  lemma BasketCell(df: seq<Transaction>, k: BasketKey, l: string)
    requires SplitAlcoholColumn(df).Ok?
    ensures AggregateTransactions(df).Ok?
    ensures var r := AggregateTransactions(df).value;
      k in r ==>
        ((l in r[k] && r[k][l])
          <==> exists i :: 0 <= i < |df| && TransactionBasket(df[i]) == k && AlcoholKey(df[i]) == Some(l))
  {
    var r := AggregateTransactions(df).value;
    if k in r {
      BasketColumns(df, k, l);
      if l in r[k] {
        LabelledCell(df, k, l);
      }
    }
  }

  /** The cell of a column that exists is set exactly when some transaction of the basket has its key. */
  lemma LabelledCell(df: seq<Transaction>, k: BasketKey, l: string)
    requires AggregateTransactions(df).Ok? && k in AggregateTransactions(df).value
    requires l in AggregateTransactions(df).value[k]
    ensures AggregateTransactions(df).value[k][l]
        <==> exists i :: 0 <= i < |df| && TransactionBasket(df[i]) == k && AlcoholKey(df[i]) == Some(l)
  {
    var col := AlcoholColumn(SplitAlcoholColumn(df).value);
    var products := Products(df, OneHotEncode(col));
    assert AggregateTransactions(df).value == GroupMax(products, Labels(col));
    GroupMaxCell(products, Labels(col), k, l);
    ProductRowsMatch(df, k, l);
    if exists i :: 0 <= i < |products| && BasketOf(products[i]) == k && Bought(products[i], l) {
      var i :| 0 <= i < |products| && BasketOf(products[i]) == k && Bought(products[i], l);
      assert TransactionBasket(df[i]) == k && AlcoholKey(df[i]) == Some(l);
    }
    if exists i :: 0 <= i < |df| && TransactionBasket(df[i]) == k && AlcoholKey(df[i]) == Some(l) {
      var i :| 0 <= i < |df| && TransactionBasket(df[i]) == k && AlcoholKey(df[i]) == Some(l);
      assert BasketOf(products[i]) == k && Bought(products[i], l);
    }
  }
}

/**
  The basket table depends only on which transactions occur: neither their
  order nor how often one is repeated changes it.
 */
module BasketRows {
  import opened Wrappers
  import opened Rows
  import opened Table
  import opened Features
  import opened Baskets
  import opened BasketFacts

  /** Basket rows with the same columns and the same cell in every column are equal. */
  lemma SameBasketRow(m1: map<string, bool>, m2: map<string, bool>)
    requires forall l :: (l in m1 <==> l in m2) && (l in m1 ==> m1[l] == m2[l])
    ensures m1 == m2
  {
  }

  /** Basket tables with the same keys and the same row at every key are equal. */
  lemma SameBasketTable(m1: map<BasketKey, map<string, bool>>, m2: map<BasketKey, map<string, bool>>)
    requires forall k :: (k in m1 <==> k in m2) && (k in m1 ==> m1[k] == m2[k])
    ensures m1 == m2
  {
  }

  /** `a` and `b` hold the same transactions, in any order and any number of times. */
  predicate SameRows(a: seq<Transaction>, b: seq<Transaction>) {
    && (forall i :: 0 <= i < |a| ==> a[i] in b)
    && (forall i :: 0 <= i < |b| ==> b[i] in a)
  }

  lemma SplitOkOfSameRows(a: seq<Transaction>, b: seq<Transaction>)
    requires SameRows(a, b) && SplitAlcoholColumn(a).Ok?
    ensures SplitAlcoholColumn(b).Ok?
  {
    var i :| 0 <= i < |a| && |Tokens(a[i])| == 3;
    var j :| 0 <= j < |b| && b[j] == a[i];
    forall j | 0 <= j < |b| ensures |Tokens(b[j])| <= 3 {
      var i :| 0 <= i < |a| && a[i] == b[j];
    }
  }

  lemma SplitOfSameRows(a: seq<Transaction>, b: seq<Transaction>)
    requires SameRows(a, b)
    ensures SplitAlcoholColumn(a).Ok? <==> SplitAlcoholColumn(b).Ok?
  {
    if SplitAlcoholColumn(a).Ok? {
      SplitOkOfSameRows(a, b);
    }
    if SplitAlcoholColumn(b).Ok? {
      SplitOkOfSameRows(b, a);
    }
  }

  /** A table holding the same transactions as a non-empty table is not empty. */
  lemma NonEmptyOfSameRows(a: seq<Transaction>, b: seq<Transaction>)
    requires SameRows(a, b)
    ensures |a| > 0 ==> |b| > 0
  {
    if |a| > 0 {
      assert a[0] in b;
    }
  }

  /** The reported split width is the longest token count, which does not depend on repetition or order. */
  lemma SplitErrorOfSameRows(a: seq<Transaction>, b: seq<Transaction>)
    requires SameRows(a, b)
    requires SplitAlcoholColumn(a).Err? && SplitAlcoholColumn(b).Err?
    ensures SplitAlcoholColumn(a).error == SplitAlcoholColumn(b).error
  {
    var wa := SplitAlcoholColumn(a).error.width;
    var wb := SplitAlcoholColumn(b).error.width;
    NonEmptyOfSameRows(a, b);
    NonEmptyOfSameRows(b, a);
    if |a| == 0 {
      assert a == b;
    } else {
      var i :| 0 <= i < |a| && |Tokens(a[i])| == wa;
      var j :| 0 <= j < |b| && |Tokens(b[j])| == wb;
      var j' :| 0 <= j' < |b| && b[j'] == a[i];
      var i' :| 0 <= i' < |a| && a[i'] == b[j];
      assert wa <= wb;
      assert wb <= wa;
    }
  }

  lemma KeysOfSameRows(a: seq<Transaction>, b: seq<Transaction>)
    requires SameRows(a, b)
    ensures Keys(a, TransactionBasket) == Keys(b, TransactionBasket)
  {
    forall k | k in Keys(a, TransactionBasket) ensures k in Keys(b, TransactionBasket) {
      KeysMembership(a, TransactionBasket, k);
      KeysMembership(b, TransactionBasket, k);
      var i :| 0 <= i < |a| && TransactionBasket(a[i]) == k;
      var j :| 0 <= j < |b| && b[j] == a[i];
    }
    forall k | k in Keys(b, TransactionBasket) ensures k in Keys(a, TransactionBasket) {
      KeysMembership(a, TransactionBasket, k);
      KeysMembership(b, TransactionBasket, k);
      var j :| 0 <= j < |b| && TransactionBasket(b[j]) == k;
      var i :| 0 <= i < |a| && a[i] == b[j];
    }
  }

  /** Whether some transaction of `df` in basket `k` has `Alcohol` key `l`. */
  predicate InBasket(df: seq<Transaction>, k: BasketKey, l: string) {
    exists i :: 0 <= i < |df| && TransactionBasket(df[i]) == k && AlcoholKey(df[i]) == Some(l)
  }

  /** Whether some transaction of `df` has `Alcohol` key `l`. */
  predicate AnyRowHasKey(df: seq<Transaction>, l: string) {
    exists i :: 0 <= i < |df| && AlcoholKey(df[i]) == Some(l)
  }

  lemma WitnessesOfSameRows(a: seq<Transaction>, b: seq<Transaction>, k: BasketKey, l: string)
    requires SameRows(a, b)
    ensures InBasket(a, k, l) <==> InBasket(b, k, l)
    ensures AnyRowHasKey(a, l) <==> AnyRowHasKey(b, l)
  {
    if InBasket(a, k, l) {
      var i :| 0 <= i < |a| && TransactionBasket(a[i]) == k && AlcoholKey(a[i]) == Some(l);
      var j :| 0 <= j < |b| && b[j] == a[i];
    }
    if InBasket(b, k, l) {
      var j :| 0 <= j < |b| && TransactionBasket(b[j]) == k && AlcoholKey(b[j]) == Some(l);
      var i :| 0 <= i < |a| && a[i] == b[j];
    }
    if AnyRowHasKey(a, l) {
      var i :| 0 <= i < |a| && AlcoholKey(a[i]) == Some(l);
      var j :| 0 <= j < |b| && b[j] == a[i];
    }
    if AnyRowHasKey(b, l) {
      var j :| 0 <= j < |b| && AlcoholKey(b[j]) == Some(l);
      var i :| 0 <= i < |a| && a[i] == b[j];
    }
  }

  lemma BasketColumnOfSameRows(a: seq<Transaction>, b: seq<Transaction>, k: BasketKey, l: string)
    requires SameRows(a, b)
    requires AggregateTransactions(a).Ok? && AggregateTransactions(b).Ok?
    requires k in AggregateTransactions(a).value && k in AggregateTransactions(b).value
    ensures l in AggregateTransactions(a).value[k] <==> l in AggregateTransactions(b).value[k]
  {
    BasketColumns(a, k, l);
    BasketColumns(b, k, l);
    WitnessesOfSameRows(a, b, k, l);
  }

  lemma BasketCellOfSameRows(a: seq<Transaction>, b: seq<Transaction>, k: BasketKey, l: string)
    requires SameRows(a, b)
    requires AggregateTransactions(a).Ok? && AggregateTransactions(b).Ok?
    requires k in AggregateTransactions(a).value && k in AggregateTransactions(b).value
    requires l in AggregateTransactions(a).value[k] && l in AggregateTransactions(b).value[k]
    ensures AggregateTransactions(a).value[k][l] == AggregateTransactions(b).value[k][l]
  {
    BasketCell(a, k, l);
    BasketCell(b, k, l);
    WitnessesOfSameRows(a, b, k, l);
  }

  lemma BasketsAgree(a: seq<Transaction>, b: seq<Transaction>, k: BasketKey)
    requires SameRows(a, b)
    requires AggregateTransactions(a).Ok? && AggregateTransactions(b).Ok?
    requires k in AggregateTransactions(a).value && k in AggregateTransactions(b).value
    ensures var ra, rb := AggregateTransactions(a).value[k], AggregateTransactions(b).value[k];
      forall l :: (l in ra <==> l in rb) && (l in ra ==> ra[l] == rb[l])
  {
    var ra, rb := AggregateTransactions(a).value[k], AggregateTransactions(b).value[k];
    forall l ensures (l in ra <==> l in rb) && (l in ra ==> ra[l] == rb[l]) {
      BasketColumnOfSameRows(a, b, k, l);
      if l in ra {
        BasketCellOfSameRows(a, b, k, l);
      }
    }
  }

  /** One basket row of `a` equals the same basket row of `b`. */
  lemma BasketOfSameRows(a: seq<Transaction>, b: seq<Transaction>, k: BasketKey)
    requires SameRows(a, b)
    requires AggregateTransactions(a).Ok? && AggregateTransactions(b).Ok?
    requires k in AggregateTransactions(a).value && k in AggregateTransactions(b).value
    ensures AggregateTransactions(a).value[k] == AggregateTransactions(b).value[k]
  {
    BasketsAgree(a, b, k);
    SameBasketRow(AggregateTransactions(a).value[k], AggregateTransactions(b).value[k]);
  }

  lemma BasketTablesAgree(a: seq<Transaction>, b: seq<Transaction>)
    requires SameRows(a, b)
    requires AggregateTransactions(a).Ok? && AggregateTransactions(b).Ok?
    ensures var ra, rb := AggregateTransactions(a).value, AggregateTransactions(b).value;
      forall k :: (k in ra <==> k in rb) && (k in ra ==> ra[k] == rb[k])
  {
    var ra, rb := AggregateTransactions(a).value, AggregateTransactions(b).value;
    BasketKeys(a);
    BasketKeys(b);
    KeysOfSameRows(a, b);
    forall k ensures (k in ra <==> k in rb) && (k in ra ==> ra[k] == rb[k]) {
      if k in ra {
        BasketOfSameRows(a, b, k);
      }
    }
  }

  /** Tables holding the same transactions give the same basket table, or the same error. */
  lemma SameRowsSameBaskets(a: seq<Transaction>, b: seq<Transaction>)
    requires SameRows(a, b)
    ensures AggregateTransactions(a) == AggregateTransactions(b)
  {
    SplitOfSameRows(a, b);
    if AggregateTransactions(a).Err? {
      SplitErrorOfSameRows(a, b);
    } else {
      BasketTablesAgree(a, b);
      SameBasketTable(AggregateTransactions(a).value, AggregateTransactions(b).value);
    }
  }

  /**
    Buying the same product again in the same basket changes nothing:
    the basket cell records presence, not a count.
   */
  lemma RepeatedPurchase(df: seq<Transaction>, j: int)
    requires 0 <= j < |df|
    ensures AggregateTransactions(df + [df[j]]) == AggregateTransactions(df)
  {
    var df' := df + [df[j]];
    forall i | 0 <= i < |df'| ensures df'[i] in df {
      if i < |df| {
        assert df'[i] == df[i];
      }
    }
    forall i | 0 <= i < |df| ensures df[i] in df' {
      assert df'[i] == df[i];
    }
    SameRowsSameBaskets(df', df);
  }
}
