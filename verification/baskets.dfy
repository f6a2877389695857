/**
  `aggregate_transactions`: the basket table fed to frequent-itemset
  mining. A basket is one customer's purchases on one day; its cell for an
  alcohol is set when the basket holds at least one purchase of it.
 */
module Baskets {
  import opened Wrappers
  import opened Rows
  import opened Table
  import opened Features

  /** The grouping key of a basket: customer and transaction date. */
  type BasketKey = (CustomerId, Date)

  /** A row of `products`: the transaction date beside the one-hot row of the `Alcohol` column. */
  datatype ProductRow = ProductRow(customerId: CustomerId, transactionDate: Date, indicators: map<string, bool>)

  function BasketOf(p: ProductRow): BasketKey {
    (p.customerId, p.transactionDate)
  }

  function TransactionBasket(t: Transaction): BasketKey {
    (t.customerId, t.transactionDate)
  }

  /** Whether a product row's indicator for `l` is set. */
  predicate Bought(p: ProductRow, l: string) {
    l in p.indicators && p.indicators[l]
  }

  /** `concat([df.TransactionDate, one_hot], axis=1)`: the two tables share their row positions. */
  function Products(df: seq<Transaction>, oneHot: seq<Dummies>): (products: seq<ProductRow>)
    requires |oneHot| == |df|
    ensures |products| == |df|
    ensures forall i :: 0 <= i < |df| ==> BasketOf(products[i]) == (oneHot[i].customerId, df[i].transactionDate)
    ensures forall i, l :: 0 <= i < |df| ==> (Bought(products[i], l) <==> IsSet(oneHot[i], l))
  {
    seq(|df|, i requires 0 <= i < |df| => ProductRow(oneHot[i].customerId, df[i].transactionDate, oneHot[i].indicators))
  }

  /** `max` of one boolean indicator column over a group: set exactly when some row sets it. */
  function ColumnMax(rows: seq<ProductRow>, l: string): (m: bool)
    ensures m <==> exists i :: 0 <= i < |rows| && Bought(rows[i], l)
  {
    if rows == [] then false
    else
      var rest := ColumnMax(rows[1..], l);
      assert forall i :: 1 <= i < |rows| ==> rows[i] == rows[1..][i - 1];
      Bought(rows[0], l) || rest
  }

  /** `groupby([CustomerId, TransactionDate]).max()` over the indicator columns `labels`. */
  function GroupMax(products: seq<ProductRow>, labels: set<string>): (baskets: map<BasketKey, map<string, bool>>)
    ensures baskets.Keys == Keys(products, BasketOf)
    ensures forall k :: k in baskets ==> baskets[k].Keys == labels
  {
    map k | k in Keys(products, BasketOf) ::
      map l | l in labels :: ColumnMax(Group(products, BasketOf, k), l)
  }

  /**
    `aggregate_transactions`: split the product names, glue name and class
    into an `Alcohol` key, one-hot encode it and take the per-basket
    maximum of every indicator. Fails exactly when the split does.
   */
  function AggregateTransactions(df: seq<Transaction>): (r: Result<map<BasketKey, map<string, bool>>, SplitError>)
    ensures r.Ok? <==> SplitAlcoholColumn(df).Ok?
    ensures r.Err? ==> r.error == SplitAlcoholColumn(df).error
  {
    match SplitAlcoholColumn(df)
    case Err(e) => Err(e)
    case Ok(alcohols) =>
      var col := AlcoholColumn(alcohols);
      Ok(GroupMax(Products(df, OneHotEncode(col)), Labels(col)))
  }

  /** The `Alcohol` key of a transaction: its first two tokens glued together, missing with fewer than two. */
  function AlcoholKey(t: Transaction): (key: Option<string>)
    ensures key.Some? <==> |Tokens(t)| >= 2
    ensures key.Some? ==> key.value == Tokens(t)[0] + Tokens(t)[1]
  {
    var words := Tokens(t);
    ConcatCells(Nth(words, 0), Nth(words, 1))
  }
}
