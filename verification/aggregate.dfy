/**
  The two aggregations: the per-customer feature table and the per-basket
  presence table used for frequent-itemset mining.
 */
module Aggregate {
  import opened Wrappers
  import opened Sums
  import opened Rows
  import opened Table
  import opened Features
  import Text

  /** One row of the customer feature table. */
  datatype CustomerFeatures = CustomerFeatures(
    transactionCount: nat,
    transactionSum: real,
    alcoholName: map<string, nat>,
    customerType: map<string, bool>,
    customerChannel: map<string, bool>)

  function Value(r: SplitTransaction): real {
    r.row.transactionValue
  }

  /** `groupby('CustomerId').agg(count, sum)` over `TransactionValue`: one entry per customer. */
  function CountAndSum(df: seq<SplitTransaction>): (r: map<CustomerId, (nat, real)>)
    ensures r.Keys == Keys(df, CustomerIdOf)
  {
    map id | id in Keys(df, CustomerIdOf) ::
      var g := Group(df, CustomerIdOf, id);
      (|g|, Total(g, Value))
  }

  /** `groupby('CustomerId').sum()` over the indicator columns `labels`: one entry per customer, one count per label. */
  function GroupSum(dummies: seq<Dummies>, labels: set<string>): (r: map<CustomerId, map<string, nat>>)
    ensures r.Keys == Keys(dummies, DummiesCustomer)
    ensures forall id :: id in r ==> r[id].Keys == labels
  {
    map id | id in Keys(dummies, DummiesCustomer) ::
      var g := Group(dummies, DummiesCustomer, id);
      map l | l in labels :: Count(g, d => IsSet(d, l))
  }

  /** `groupby('CustomerId').first()` over the indicator columns: one entry per customer. */
  function GroupFirst(dummies: seq<Dummies>): (r: map<CustomerId, map<string, bool>>)
    ensures r.Keys == Keys(dummies, DummiesCustomer)
  {
    map id | id in Keys(dummies, DummiesCustomer) ::
      GroupNonEmpty(dummies, DummiesCustomer, id);
      Group(dummies, DummiesCustomer, id)[0].indicators
  }

  /** The count of a customer is the number of input rows of that customer. */
  lemma CountOfCustomer(df: seq<SplitTransaction>, id: CustomerId)
    requires id in Keys(df, CustomerIdOf)
    ensures id in CountAndSum(df)
    ensures CountAndSum(df)[id].0 == |set i | 0 <= i < |df| && df[i].row.customerId == id|
  {
    GroupSizeIsIndexCount(df, CustomerIdOf, id, set i | 0 <= i < |df| && df[i].row.customerId == id);
  }

  /** A customer's sum for label `l` is the number of that customer's rows whose indicator for `l` is set. */
  lemma SumOfIndicator(dummies: seq<Dummies>, labels: set<string>, id: CustomerId, l: string)
    requires id in Keys(dummies, DummiesCustomer) && l in labels
    ensures id in GroupSum(dummies, labels) && l in GroupSum(dummies, labels)[id]
    ensures GroupSum(dummies, labels)[id][l]
      == |set i | 0 <= i < |dummies| && dummies[i].customerId == id && IsSet(dummies[i], l)|
  {
    var kq := (x: Dummies) => DummiesCustomer(x) == id && IsSet(x, l);
    CountInGroup(dummies, DummiesCustomer, id, d => IsSet(d, l), kq);
    CountIsIndexCount(dummies, kq, set i | 0 <= i < |dummies| && dummies[i].customerId == id && IsSet(dummies[i], l));
  }

  /** A customer's first-row indicators are those of the customer's earliest row. */
  lemma FirstOfCustomer(dummies: seq<Dummies>, id: CustomerId) returns (j: int)
    requires id in Keys(dummies, DummiesCustomer)
    ensures 0 <= j < |dummies| && dummies[j].customerId == id
    ensures forall i :: 0 <= i < j ==> dummies[i].customerId != id
    ensures id in GroupFirst(dummies) && GroupFirst(dummies)[id] == dummies[j].indicators
  {
    j := EarliestOf(dummies, DummiesCustomer, id);
    GroupFirstRow(dummies, DummiesCustomer, id, j);
  }

  /** `merge(..., on=key)` with the default inner join: only keys present on both sides survive. */
  function InnerMerge<K, A, B>(left: map<K, A>, right: map<K, B>): (m: map<K, (A, B)>)
    ensures m.Keys == left.Keys * right.Keys
    ensures forall k :: k in m ==> m[k] == (left[k], right[k])
  {
    map k | k in left.Keys * right.Keys :: (left[k], right[k])
  }

  /** One-hot encoding a column of the table keeps each row's customer, hence the customer set. */
  lemma OneHotKeepsCustomers(df: seq<SplitTransaction>, c: Column)
    ensures Keys(OneHotEncode(Select(df, c)), DummiesCustomer) == Keys(df, CustomerIdOf)
  {
    KeysCorrespond(OneHotEncode(Select(df, c)), DummiesCustomer, df, CustomerIdOf);
  }

  /** The four per-customer tables merged on `CustomerId`. */
  type Merged = ((((nat, real), map<string, nat>), map<string, bool>), map<string, bool>)

  /** The inner merges of `aggregate_by_id`, before the columns are named. */
  function MergeAll(df: seq<SplitTransaction>): map<CustomerId, Merged> {
    var names := Select(df, AlcoholName);
    InnerMerge(InnerMerge(InnerMerge(CountAndSum(df), GroupSum(OneHotEncode(names), Labels(names))),
      GroupFirst(OneHotEncode(Select(df, CustomerType)))),
      GroupFirst(OneHotEncode(Select(df, CustomerChannel))))
  }

  /** Every customer appears in every per-customer table, so the inner merges drop no customer. */
  lemma MergeKeepsCustomers(df: seq<SplitTransaction>)
    ensures MergeAll(df).Keys == Keys(df, CustomerIdOf)
  {
    OneHotKeepsCustomers(df, AlcoholName);
    OneHotKeepsCustomers(df, CustomerType);
    OneHotKeepsCustomers(df, CustomerChannel);
  }

  /** A merged row with its columns named. */
  function Named(m: Merged): CustomerFeatures {
    var (((totals, nameCounts), types), channels) := m;
    CustomerFeatures(totals.0, totals.1, nameCounts, types, channels)
  }

  /**
    `aggregate_by_id`: one row per customer with the number and total value
    of their transactions, how many of their transactions were of each
    alcohol name, and the customer type and channel indicators of their
    first transaction. Every customer appears in every one-hot table, so the
    inner merges drop no customer.
   */
  function AggregateById(df: seq<SplitTransaction>): (r: map<CustomerId, CustomerFeatures>)
    ensures r.Keys == Keys(df, CustomerIdOf)
  {
    var merged := MergeAll(df);
    MergeKeepsCustomers(df);
    map id | id in merged.Keys :: Named(merged[id])
  }
}
