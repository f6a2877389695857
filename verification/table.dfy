/** The transaction table and the derived tables the transforms build. */
module Table {
  import opened Wrappers

  /** Customer identifiers and transaction dates are compared for equality only. */
  type CustomerId = int
  /** A calendar day; the loaded timestamps always carry a zero time of day. */
  type Date = int

  /** One row of the transaction file. */
  datatype Transaction = Transaction(
    customerId: CustomerId,
    transactionDate: Date,
    transactionValue: real,
    productName: string,
    customerType: string,
    customerChannel: string,
    customerStatus: string,
    customerLatitude: real,
    customerLongitude: real)

  /**
    A transaction row with the three columns obtained by splitting
    `ProductName`; a column is missing where the name had too few tokens.
   */
  datatype SplitTransaction = SplitTransaction(
    row: Transaction,
    alcoholName: Option<string>,
    alcoholClass: Option<string>,
    alcoholId: Option<string>)

  /** The text columns of a split transaction table. */
  datatype Column =
    | ProductName | CustomerType | CustomerChannel | CustomerStatus
    | AlcoholName | AlcoholClass | AlcoholId

  function Cell(r: SplitTransaction, c: Column): Option<string> {
    match c
    case ProductName => Some(r.row.productName)
    case CustomerType => Some(r.row.customerType)
    case CustomerChannel => Some(r.row.customerChannel)
    case CustomerStatus => Some(r.row.customerStatus)
    case AlcoholName => r.alcoholName
    case AlcoholClass => r.alcoholClass
    case AlcoholId => r.alcoholId
  }

  /** Each column name reads its own field of a row. */
  lemma CellOf(r: SplitTransaction)
    ensures Cell(r, ProductName) == Some(r.row.productName)
    ensures Cell(r, CustomerType) == Some(r.row.customerType)
    ensures Cell(r, CustomerChannel) == Some(r.row.customerChannel)
    ensures Cell(r, CustomerStatus) == Some(r.row.customerStatus)
    ensures Cell(r, AlcoholName) == r.alcoholName
    ensures Cell(r, AlcoholClass) == r.alcoholClass
    ensures Cell(r, AlcoholId) == r.alcoholId
  {
  }

  /** A categorical cell paired with the customer of its row. */
  datatype Keyed = Keyed(customerId: CustomerId, value: Option<string>)

  /** One row of a one-hot table: the customer and one indicator per label. */
  datatype Dummies = Dummies(customerId: CustomerId, indicators: map<string, bool>)

  function CustomerIdOf(r: SplitTransaction): CustomerId {
    r.row.customerId
  }

  function DummiesCustomer(d: Dummies): CustomerId {
    d.customerId
  }

  /** The `CustomerId` column beside one text column, row by row. */
  function Select(df: seq<SplitTransaction>, c: Column): (col: seq<Keyed>)
    ensures |col| == |df|
    ensures forall i :: 0 <= i < |df| ==> col[i].customerId == df[i].row.customerId
    ensures forall i :: 0 <= i < |df| ==> col[i].value == Cell(df[i], c)
  {
    seq(|df|, i requires 0 <= i < |df| => Keyed(df[i].row.customerId, Cell(df[i], c)))
  }
}
