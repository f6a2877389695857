/**
  What `aggregate_by_id` promises about each customer row: its count and
  sum, its per-name counts, its first-seen type and channel, and that the
  customer rows together account for every transaction exactly once.
 */
module CustomerFacts {
  import opened Wrappers
  import opened Sums
  import opened Rows
  import opened Table
  import opened Features
  import opened Aggregate

  /** Where each column of a customer row comes from. */
  lemma AggregateFields(df: seq<SplitTransaction>, id: CustomerId)
    requires id in Keys(df, CustomerIdOf)
    ensures id in AggregateById(df)
    ensures var f := AggregateById(df)[id];
      var names := Select(df, AlcoholName);
      && f.transactionCount == |Purchases(df, id)|
      && f.transactionSum == Total(Purchases(df, id), Value)
      && id in GroupSum(OneHotEncode(names), Labels(names))
      && f.alcoholName == GroupSum(OneHotEncode(names), Labels(names))[id]
      && id in GroupFirst(OneHotEncode(Select(df, CustomerType)))
      && f.customerType == GroupFirst(OneHotEncode(Select(df, CustomerType)))[id]
      && id in GroupFirst(OneHotEncode(Select(df, CustomerChannel)))
      && f.customerChannel == GroupFirst(OneHotEncode(Select(df, CustomerChannel)))[id]
  {
    OneHotKeepsCustomers(df, AlcoholName);
    OneHotKeepsCustomers(df, CustomerType);
    OneHotKeepsCustomers(df, CustomerChannel);
  }

  /** `groupby.first()` yields the indicators of a customer's first one-hot row. */
  lemma GroupFirstPicks(d: seq<Dummies>, id: CustomerId, j: int)
    requires 0 <= j < |d| && id in Keys(d, DummiesCustomer)
    requires |Group(d, DummiesCustomer, id)| > 0 && Group(d, DummiesCustomer, id)[0] == d[j]
    ensures id in GroupFirst(d) && GroupFirst(d)[id] == d[j].indicators
  {
  }

  /** In a customer's one-hot rows, the first is the one of the customer's earliest transaction. */
  lemma FirstOneHotRow(df: seq<SplitTransaction>, c: Column, id: CustomerId, j: int)
    requires 0 <= j < |df| && df[j].row.customerId == id
    requires forall i :: 0 <= i < j ==> df[i].row.customerId != id
    ensures var d := OneHotEncode(Select(df, c));
      && id in Keys(d, DummiesCustomer)
      && |Group(d, DummiesCustomer, id)| > 0 && Group(d, DummiesCustomer, id)[0] == d[j]
  {
    var col := Select(df, c);
    var d := OneHotEncode(col);
    assert forall i :: 0 <= i < |df| ==> d[i].customerId == df[i].row.customerId by {
      forall i | 0 <= i < |df| ensures d[i].customerId == df[i].row.customerId {
        assert d[i].customerId == col[i].customerId;
      }
    }
    assert DummiesCustomer(d[j]) == id;
    GroupFirstRow(d, DummiesCustomer, id, j);
  }

  /** `groupby.first()` picks the one-hot row of the customer's earliest transaction. */
  lemma FirstRowOfCustomer(df: seq<SplitTransaction>, c: Column, id: CustomerId, j: int)
    requires 0 <= j < |df| && df[j].row.customerId == id
    requires forall i :: 0 <= i < j ==> df[i].row.customerId != id
    ensures var m := GroupFirst(OneHotEncode(Select(df, c)));
      id in m && m[id] == OneHotEncode(Select(df, c))[j].indicators
  {
    FirstOneHotRow(df, c, id, j);
    GroupFirstPicks(OneHotEncode(Select(df, c)), id, j);
  }

  /** The first-value indicators of a customer are the one-hot row of their earliest transaction. */
  lemma FirstIndicators(df: seq<SplitTransaction>, c: Column, id: CustomerId, j: int)
    requires 0 <= j < |df| && df[j].row.customerId == id
    requires forall i :: 0 <= i < j ==> df[i].row.customerId != id
    ensures var m := GroupFirst(OneHotEncode(Select(df, c)));
      && id in m
      && (forall l :: l in m[id] <==> exists i :: 0 <= i < |df| && Cell(df[i], c) == Some(l))
      && (forall l :: l in m[id] ==> (m[id][l] <==> Cell(df[j], c) == Some(l)))
  {
    FirstRowOfCustomer(df, c, id, j);
    OneHotRowOfTable(df, c, j);
    forall l ensures l in Labels(Select(df, c)) <==> exists i :: 0 <= i < |df| && Cell(df[i], c) == Some(l) {
      SelectLabels(df, c, l);
    }
  }

  /** The rows of one customer, in input order. */
  function Purchases(df: seq<SplitTransaction>, id: CustomerId): seq<SplitTransaction> {
    Group(df, CustomerIdOf, id)
  }

  /**
    A customer's `TransactionCount` is the number of input rows with that
    customer and `TransactionSum` is the total value of exactly those rows.
   */
  lemma CustomerTotals(df: seq<SplitTransaction>, id: CustomerId)
    requires exists i :: 0 <= i < |df| && df[i].row.customerId == id
    ensures id in AggregateById(df)
    ensures AggregateById(df)[id].transactionCount == |set i | 0 <= i < |df| && df[i].row.customerId == id|
    ensures AggregateById(df)[id].transactionSum == Total(Purchases(df, id), Value)
  {
    var i :| 0 <= i < |df| && df[i].row.customerId == id;
    assert CustomerIdOf(df[i]) == id;
    GroupSizeIsIndexCount(df, CustomerIdOf, id, set i | 0 <= i < |df| && df[i].row.customerId == id);
  }

  /** Counting the indicator of `l` within one customer's one-hot rows counts that customer's rows named `l`. */
  lemma NameCountIsRowCount(df: seq<SplitTransaction>, id: CustomerId, l: string)
    ensures
      var d := OneHotEncode(Select(df, AlcoholName));
      Count(Group(d, DummiesCustomer, id), d => IsSet(d, l))
      == |set i | 0 <= i < |df| && df[i].row.customerId == id && df[i].alcoholName == Some(l)|
  {
    var d := OneHotEncode(Select(df, AlcoholName));
    var pq := (x: Dummies) => DummiesCustomer(x) == id && IsSet(x, l);
    var p2 := (y: SplitTransaction) => y.row.customerId == id && y.alcoholName == Some(l);
    CountInGroup(d, DummiesCustomer, id, d => IsSet(d, l), pq);
    assert Count(Group(d, DummiesCustomer, id), d => IsSet(d, l)) == Count(d, pq);
    OneHotRowsMatchNames(df, id, l);
    CountCorresponding(d, pq, df, p2);
    assert Count(d, pq) == Count(df, p2);
    CountIsIndexCount(df, p2, set i | 0 <= i < |df| && df[i].row.customerId == id && df[i].alcoholName == Some(l));
    assert Count(df, p2) == |set i | 0 <= i < |df| && df[i].row.customerId == id && df[i].alcoholName == Some(l)|;
  }

  /** Row `i` of the one-hot encoding of column `c` belongs to row `i`'s customer and marks row `i`'s value. */
  lemma OneHotAt(df: seq<SplitTransaction>, c: Column, l: string, i: int)
    requires 0 <= i < |df|
    ensures var d := OneHotEncode(Select(df, c));
      && |d| == |df|
      && d[i].customerId == df[i].row.customerId
      && (IsSet(d[i], l) <==> Cell(df[i], c) == Some(l))
  {
    var col := Select(df, c);
    assert IsSet(OneHotEncode(col)[i], l) <==> col[i].value == Some(l);
    assert col[i].value == Cell(df[i], c);
    assert OneHotEncode(col)[i].customerId == col[i].customerId;
  }

  /** Row by row, the one-hot rows of customer `id` marked `l` are that customer's transactions named `l`. */
  lemma OneHotRowsMatchNames(df: seq<SplitTransaction>, id: CustomerId, l: string)
    ensures var d := OneHotEncode(Select(df, AlcoholName));
      |d| == |df| && forall i :: 0 <= i < |d| ==>
        ((d[i].customerId == id && IsSet(d[i], l)) <==> (df[i].row.customerId == id && df[i].alcoholName == Some(l)))
  {
    var d := OneHotEncode(Select(df, AlcoholName));
    forall i | 0 <= i < |d|
      ensures (d[i].customerId == id && IsSet(d[i], l)) <==> (df[i].row.customerId == id && df[i].alcoholName == Some(l))
    {
      OneHotAt(df, AlcoholName, l, i);
      CellOf(df[i]);
    }
  }

  /** The name labels are the alcohol names present in the table. */
  lemma NameLabels(df: seq<SplitTransaction>, l: string)
    ensures l in Labels(Select(df, AlcoholName)) <==> exists i :: 0 <= i < |df| && df[i].alcoholName == Some(l)
  {
    SelectLabels(df, AlcoholName, l);
    forall i | 0 <= i < |df| ensures Cell(df[i], AlcoholName) == df[i].alcoholName {
      CellOf(df[i]);
    }
  }

  /** A customer's `AlcoholName` columns are exactly the distinct names present in the table. */
  lemma PerNameColumns(df: seq<SplitTransaction>, id: CustomerId, l: string)
    requires id in Keys(df, CustomerIdOf)
    ensures id in AggregateById(df)
    ensures l in AggregateById(df)[id].alcoholName <==> exists i :: 0 <= i < |df| && df[i].alcoholName == Some(l)
  {
    var col := Select(df, AlcoholName);
    AggregateFields(df, id);
    assert AggregateById(df)[id].alcoholName.Keys == Labels(col);
    NameLabels(df, l);
  }

  /** Per-name purchase counts: a customer's column for name `l` counts that customer's rows named `l`. */
  lemma PerNameCounts(df: seq<SplitTransaction>, id: CustomerId, l: string)
    requires id in Keys(df, CustomerIdOf)
    requires exists i :: 0 <= i < |df| && df[i].alcoholName == Some(l)
    ensures id in AggregateById(df) && l in AggregateById(df)[id].alcoholName
    ensures AggregateById(df)[id].alcoholName[l]
         == |set i | 0 <= i < |df| && df[i].row.customerId == id && df[i].alcoholName == Some(l)|
  {
    var col := Select(df, AlcoholName);
    PerNameColumns(df, id, l);
    AggregateFields(df, id);
    NameCountIsRowCount(df, id, l);
    var m := GroupSum(OneHotEncode(col), Labels(col))[id];
    assert m[l] == Count(Group(OneHotEncode(col), DummiesCustomer, id), d => IsSet(d, l));
  }

  function One(r: SplitTransaction): real {
    1.0
  }

  /** One customer's rows counted per name and summed over names: each named row is counted once. */
  lemma {:induction false} NamesAddUp(rows: seq<SplitTransaction>, labels: set<string>)
    requires forall i :: 0 <= i < |rows| && rows[i].alcoholName.Some? ==> rows[i].alcoholName.value in labels
    ensures SetSum(labels, l => Count(rows, (x: SplitTransaction) => x.alcoholName == Some(l)) as real)
         == Count(rows, (x: SplitTransaction) => x.alcoholName.Some?) as real
    decreases |rows|
  {
    var f := l => Count(rows, (x: SplitTransaction) => x.alcoholName == Some(l)) as real;
    if rows == [] {
      SetSumZero(labels, f);
    } else {
      var n := |rows| - 1;
      var init := rows[..n];
      var y := rows[n];
      assert rows == init + [y];
      NamesAddUp(init, labels);
      var g := l => Count(init, (x: SplitTransaction) => x.alcoholName == Some(l)) as real;
      var h := l => if y.alcoholName == Some(l) then 1.0 else 0.0;
      forall l | l in labels ensures f(l) == g(l) + h(l) {
        FilterSnoc(init, y, (x: SplitTransaction) => x.alcoholName == Some(l));
      }
      SetSumPlus(labels, g, h, f);
      FilterSnoc(init, y, (x: SplitTransaction) => x.alcoholName.Some?);
      if y.alcoholName.Some? {
        SetSumSingle(labels, h, y.alcoholName.value, 1.0);
      } else {
        SetSumZero(labels, h);
      }
    }
  }

  /** Every name among a customer's purchases is one of the name labels. */
  lemma PurchaseNamesLabelled(df: seq<SplitTransaction>, id: CustomerId)
    ensures var purchases := Purchases(df, id);
      forall i :: 0 <= i < |purchases| && purchases[i].alcoholName.Some? ==>
        purchases[i].alcoholName.value in Labels(Select(df, AlcoholName))
  {
    var purchases := Purchases(df, id);
    forall i | 0 <= i < |purchases| && purchases[i].alcoholName.Some?
      ensures purchases[i].alcoholName.value in Labels(Select(df, AlcoholName))
    {
      var j :| 0 <= j < |df| && df[j] == purchases[i];
      NameLabels(df, purchases[i].alcoholName.value);
    }
  }

  /** A customer's column for name `l` counts the customer's purchases named `l`. */
  lemma NameColumnCountsPurchases(df: seq<SplitTransaction>, id: CustomerId, l: string)
    requires id in Keys(df, CustomerIdOf)
    requires exists i :: 0 <= i < |df| && df[i].alcoholName == Some(l)
    ensures id in AggregateById(df) && l in AggregateById(df)[id].alcoholName
    ensures AggregateById(df)[id].alcoholName[l] == Count(Purchases(df, id), (x: SplitTransaction) => x.alcoholName == Some(l))
  {
    PerNameCounts(df, id, l);
    NamedPurchases(df, id, l);
  }

  /** A customer's purchases named `l` are that customer's rows named `l`. */
  lemma NamedPurchases(df: seq<SplitTransaction>, id: CustomerId, l: string)
    ensures Count(Purchases(df, id), (x: SplitTransaction) => x.alcoholName == Some(l))
         == |set i | 0 <= i < |df| && df[i].row.customerId == id && df[i].alcoholName == Some(l)|
  {
    var kq := (x: SplitTransaction) => CustomerIdOf(x) == id && x.alcoholName == Some(l);
    CountInGroup(df, CustomerIdOf, id, (x: SplitTransaction) => x.alcoholName == Some(l), kq);
    CountIsIndexCount(df, kq, set i | 0 <= i < |df| && df[i].row.customerId == id && df[i].alcoholName == Some(l));
  }

  /** The number of a customer's purchases that have a name. */
  lemma NamedPurchaseCount(df: seq<SplitTransaction>, id: CustomerId)
    ensures Count(Purchases(df, id), (x: SplitTransaction) => x.alcoholName.Some?)
         == |set i | 0 <= i < |df| && df[i].row.customerId == id && df[i].alcoholName.Some?|
  {
    var kq := (x: SplitTransaction) => CustomerIdOf(x) == id && x.alcoholName.Some?;
    CountInGroup(df, CustomerIdOf, id, (x: SplitTransaction) => x.alcoholName.Some?, kq);
    CountIsIndexCount(df, kq, set i | 0 <= i < |df| && df[i].row.customerId == id && df[i].alcoholName.Some?);
  }

  /**
    Adding up a customer's per-name counts over all name columns gives the
    number of that customer's rows that have a name.
   */
  lemma NameCountsAddUp(df: seq<SplitTransaction>, id: CustomerId)
    requires id in Keys(df, CustomerIdOf)
    ensures id in AggregateById(df)
    ensures var m := AggregateById(df)[id].alcoholName;
      SetSum(m.Keys, l => if l in m then m[l] as real else 0.0)
      == |set i | 0 <= i < |df| && df[i].row.customerId == id && df[i].alcoholName.Some?| as real
  {
    var m := AggregateById(df)[id].alcoholName;
    var labels := m.Keys;
    var purchases := Purchases(df, id);
    assert labels == Labels(Select(df, AlcoholName)) by {
      forall l ensures l in labels <==> l in Labels(Select(df, AlcoholName)) {
        PerNameColumns(df, id, l);
        NameLabels(df, l);
      }
    }
    PurchaseNamesLabelled(df, id);
    NamesAddUp(purchases, labels);
    forall l | l in labels
      ensures (if l in m then m[l] as real else 0.0) == Count(purchases, (x: SplitTransaction) => x.alcoholName == Some(l)) as real
    {
      NameLabels(df, l);
      NameColumnCountsPurchases(df, id, l);
    }
    SetSumSame(labels, l => if l in m then m[l] as real else 0.0, l => Count(purchases, (x: SplitTransaction) => x.alcoholName == Some(l)) as real);
    NamedPurchaseCount(df, id);
  }

  /**
    When every transaction of a customer has an alcohol name, that
    customer's per-name counts add up to their `TransactionCount`.
   */
  lemma NameCountsAddUpToCount(df: seq<SplitTransaction>, id: CustomerId)
    requires id in Keys(df, CustomerIdOf)
    requires forall i :: 0 <= i < |df| && df[i].row.customerId == id ==> df[i].alcoholName.Some?
    ensures id in AggregateById(df)
    ensures var f := AggregateById(df)[id];
      SetSum(f.alcoholName.Keys, l => if l in f.alcoholName then f.alcoholName[l] as real else 0.0)
      == f.transactionCount as real
  {
    NameCountsAddUp(df, id);
    KeysMembership(df, CustomerIdOf, id);
    CustomerTotals(df, id);
    assert (set i | 0 <= i < |df| && df[i].row.customerId == id && df[i].alcoholName.Some?)
        == (set i | 0 <= i < |df| && df[i].row.customerId == id);
  }

  /** `FirstIndicators` for a column that always holds a value, read through that value's field. */
  lemma FirstIndicatorsOf(df: seq<SplitTransaction>, c: Column, v: SplitTransaction -> string, id: CustomerId, j: int)
    requires forall r :: Cell(r, c) == Some(v(r))
    requires 0 <= j < |df| && df[j].row.customerId == id
    requires forall i :: 0 <= i < j ==> df[i].row.customerId != id
    ensures var m := GroupFirst(OneHotEncode(Select(df, c)));
      && id in m
      && (forall l :: l in m[id] <==> exists i :: 0 <= i < |df| && v(df[i]) == l)
      && (forall l :: l in m[id] ==> (m[id][l] <==> l == v(df[j])))
  {
    FirstIndicators(df, c, id, j);
    var m := GroupFirst(OneHotEncode(Select(df, c)));
    forall l ensures l in m[id] <==> exists i :: 0 <= i < |df| && v(df[i]) == l {
      if l in m[id] {
        var i :| 0 <= i < |df| && Cell(df[i], c) == Some(l);
        assert v(df[i]) == l;
      }
      if exists i :: 0 <= i < |df| && v(df[i]) == l {
        var i :| 0 <= i < |df| && v(df[i]) == l;
        assert Cell(df[i], c) == Some(l);
      }
    }
    assert Cell(df[j], c) == Some(v(df[j]));
  }

  lemma FirstTypeAndChannel(df: seq<SplitTransaction>, id: CustomerId, j: int)
    requires 0 <= j < |df| && df[j].row.customerId == id
    requires forall i :: 0 <= i < j ==> df[i].row.customerId != id
    ensures var m := GroupFirst(OneHotEncode(Select(df, CustomerType)));
      && id in m
      && (forall l :: l in m[id] <==> exists i :: 0 <= i < |df| && df[i].row.customerType == l)
      && (forall l :: l in m[id] ==> (m[id][l] <==> l == df[j].row.customerType))
    ensures var m := GroupFirst(OneHotEncode(Select(df, CustomerChannel)));
      && id in m
      && (forall l :: l in m[id] <==> exists i :: 0 <= i < |df| && df[i].row.customerChannel == l)
      && (forall l :: l in m[id] ==> (m[id][l] <==> l == df[j].row.customerChannel))
  {
    forall r ensures Cell(r, CustomerType) == Some(r.row.customerType) && Cell(r, CustomerChannel) == Some(r.row.customerChannel) {
      CellOf(r);
    }
    FirstIndicatorsOf(df, CustomerType, (r: SplitTransaction) => r.row.customerType, id, j);
    FirstIndicatorsOf(df, CustomerChannel, (r: SplitTransaction) => r.row.customerChannel, id, j);
  }

  /**
    First value wins: a customer's `CustomerType` and `CustomerChannel`
    indicators are those of the customer's earliest row; later rows are
    ignored. The indicator columns are all the values present in the table.
   */
  lemma FirstValueWins(df: seq<SplitTransaction>, id: CustomerId, j: int)
    requires 0 <= j < |df| && df[j].row.customerId == id
    requires forall i :: 0 <= i < j ==> df[i].row.customerId != id
    ensures id in AggregateById(df)
    ensures var f := AggregateById(df)[id];
      && (forall l :: l in f.customerType <==> exists i :: 0 <= i < |df| && df[i].row.customerType == l)
      && (forall l :: l in f.customerType ==> (f.customerType[l] <==> l == df[j].row.customerType))
      && (forall l :: l in f.customerChannel <==> exists i :: 0 <= i < |df| && df[i].row.customerChannel == l)
      && (forall l :: l in f.customerChannel ==> (f.customerChannel[l] <==> l == df[j].row.customerChannel))
  {
    assert CustomerIdOf(df[j]) == id;
    KeysMembership(df, CustomerIdOf, id);
    assert id in AggregateById(df);
    AggregateFields(df, id);
    FirstTypeAndChannel(df, id, j);
  }

  /**
    No transaction is lost or counted twice: over all customers, the
    `TransactionSum`s add up to the table's total value and the
    `TransactionCount`s to its number of rows.
   */
  lemma TotalsAddUp(df: seq<SplitTransaction>)
    ensures var r := AggregateById(df);
      SetSum(r.Keys, id => if id in r then r[id].transactionSum else 0.0) == Total(df, Value)
    ensures var r := AggregateById(df);
      SetSum(r.Keys, id => if id in r then r[id].transactionCount as real else 0.0) == |df| as real
  {
    var r := AggregateById(df);
    GroupTotalsAddUp(df, CustomerIdOf, Value, id => if id in r then r[id].transactionSum else 0.0);
    forall id | id in Keys(df, CustomerIdOf)
      ensures (if id in r then r[id].transactionCount as real else 0.0) == Total(Group(df, CustomerIdOf, id), One)
    {
      TotalOfOnes(Group(df, CustomerIdOf, id), One);
    }
    GroupTotalsAddUp(df, CustomerIdOf, One, id => if id in r then r[id].transactionCount as real else 0.0);
    TotalOfOnes(df, One);
  }
}
