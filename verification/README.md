# Transaction feature preparation, modelled in Dafny

This project models the data-preparation core of a customer-segmentation
tool for a shop selling alcohol. The core lives in `src/data.py`. It takes a
table of transactions and builds two derived tables:

- the **customer feature table** (`aggregate_by_id`). It has one row per
  customer with `TransactionCount`, `TransactionSum`, one purchase count
  per alcohol name, and the customer-type and channel indicators taken
  from the customer's first transaction;
- the **basket table** (`aggregate_transactions`). It has one row per
  customer and day, with one boolean column per `Alcohol` key. The key is
  the alcohol name glued to its class. A cell says whether that basket
  holds a purchase with that key.

Both tables are built from two per-row transforms:

- `split_alcohol_column` cuts `ProductName` into `AlcoholName`,
  `AlcoholClass` and `AlcoholId` by whitespace;
- `one_hot_encode` turns a categorical column into indicator columns
  beside `CustomerId`.

How the tables are modelled:

- Tables are sequences of immutable records.
- Grouped results are maps keyed by the group key. The `groupby` key order
  is therefore not modelled.
- Failures are `Result` values.
- Whitespace follows Python's `str.isspace`, because pandas' `str.split()`
  applies Python's `str.split()` to every cell.

Modules:

- `Text`: tokenising (`Split`, `Join`).
- `Table`: the row types and column selection.
- `Features`: the split and the one-hot encoding.
- `Rows`: generic filtering, grouping and totals over sequences of rows.
- `Sums`: sums over finite sets, used to add up per-group totals.
- `Aggregate`: the customer feature table.
- `CustomerFacts`: lemmas about the customer feature table.
- `Baskets`: the basket table.
- `BasketFacts`, `BasketRows`: lemmas about the basket table.
- `SplitFacts`: lemmas about the split and the `Alcohol` key.

The split is lenient. A stricter reading would reject every product name
that does not have exactly three tokens; the code does not. It assigns the
expanded split to three columns, which fails only when the widest name does
not have exactly three tokens. So a name with zero, one or two tokens
(including an empty or all-whitespace name) passes whenever another name has
three, and its missing parts become missing values. `SplitFacts.ShortNamePadded`
states this behaviour for a one-token name, and `Features.SplitFields` for
every row.

## Model

| member | source | states |
|---|---|---|
| Text.Split | src/data.py:28 | every token of a product name is non-empty and contains no whitespace |
| Text.SplitSpaced | src/data.py:28 | every run of whitespace, of any length and any whitespace characters, separates two tokens, and whitespace at either end yields no token: words placed between such separators split back into exactly those words |
| Text.SplitJoin | src/data.py:28 | splitting words joined by single spaces gives back exactly those words, in order |
| Text.SplitKeepsVisible | src/data.py:28 | the tokens glued together are exactly the name's non-whitespace characters: the split loses and invents nothing |
| Text.SplitNormalises | src/data.py:28 | re-splitting the space-joined tokens gives the same tokens: the split is idempotent |
| Features.SplitWidth | src/data.py:28 | the expanded split is as wide as the largest token count, and 0 for a table without rows |
| Features.SplitAlcoholColumn | src/data.py:23-29 | succeeds exactly when some name has three tokens and none has more; on failure it reports a width other than 3 that is the largest token count; on success it keeps the row count and every original column, gives three-token rows their tokens in order, and leaves `AlcoholId` missing for shorter names |
| Features.SplitFields | src/data.py:28 | after a successful split each row's three new columns are its first three tokens, missing where the name has fewer |
| SplitFacts.SplitRecoversParts | src/data.py:23-29 | round trip: when every name was composed as "name class id" from three tokens, the split succeeds and returns exactly those three parts per row, leaving the rest of each row unchanged |
| SplitFacts.EmptyTableRejected | src/data.py:28 | a table without rows fails with width 0 |
| SplitFacts.ShortNamePadded | src/data.py:28 | a one-token name is accepted when another name has three tokens; its class and id are missing |
| SplitFacts.LongNameRejected | src/data.py:28 | a name with more than three tokens makes the split fail with a width at least its token count |
| Features.Labels | src/data.py:36 | the one-hot columns are exactly the distinct non-missing values of the column |
| Features.OneHotEncode | src/data.py:32-38 | one output row per input row with the same customer; every row carries every label; a row's indicator for a label is set iff the row's value is that label |
| Features.OneHotExactlyOne | src/data.py:36 | each one-hot row has exactly one indicator set, its own value's, and none for a missing value |
| Features.SelectLabels | src/data.py:36 | the labels of a table column are the values that occur in some row of that column |
| Features.OneHotRowOfTable | src/data.py:36-37 | the one-hot row of table row `j` has every label, with only the label of row `j`'s value set |
| Table.Select | src/data.py:36-37 | a selected column has one cell per table row, holding that row's value in the chosen column beside that row's customer |
| Aggregate.OneHotKeepsCustomers | src/data.py:37 | a one-hot table has the same set of customers as the table it was built from |
| Aggregate.CountAndSum | src/data.py:45-46 | the count-and-sum table has one entry per customer that occurs in the input, and no other |
| Aggregate.CountOfCustomer | src/data.py:46 | a customer's count is the number of input rows of that customer |
| Aggregate.GroupSum | src/data.py:52 | the summed one-hot table has one entry per customer among the one-hot rows, each with exactly the given label columns |
| Aggregate.SumOfIndicator | src/data.py:52 | a customer's sum for label `l` is the number of that customer's one-hot rows with `l` set |
| Aggregate.GroupFirst | src/data.py:54 | the first-row table has one entry per customer among the one-hot rows, and no other |
| Aggregate.FirstOfCustomer | src/data.py:54 | a customer's first-row indicators are those of the customer's earliest row: no earlier row belongs to that customer |
| Aggregate.InnerMerge | src/data.py:55 | an inner merge keeps exactly the keys on both sides, pairing their rows |
| Aggregate.MergeKeepsCustomers | src/data.py:49-55 | the three inner merges on `CustomerId` keep exactly the customers of the input table |
| Aggregate.AggregateById | src/data.py:41-58 | the feature table has exactly one row per customer that occurs in the input; the merges drop none |
| CustomerFacts.CustomerTotals | src/data.py:45-46 | a customer's `TransactionCount` is the number of input rows with that customer, and `TransactionSum` is the total value of exactly those rows |
| CustomerFacts.TotalsAddUp | src/data.py:45-46 | over all customers the sums add up to the table's total value and the counts to its number of rows: no transaction is lost or counted twice |
| CustomerFacts.PerNameColumns | src/data.py:49-52 | every customer row has one count column for each alcohol name present anywhere in the table |
| CustomerFacts.PerNameCounts | src/data.py:49-52 | a customer's count for name `l` is the number of that customer's rows named `l` |
| CustomerFacts.NameCountIsRowCount | src/data.py:50-52 | counting the `l` indicator within one customer's one-hot rows counts that customer's rows named `l` |
| CustomerFacts.NameCountsAddUp | src/data.py:49-52 | a customer's name counts, summed over all name columns, give the number of their rows that have a name |
| CustomerFacts.NameCountsAddUpToCount | src/data.py:45-55 | when all of a customer's rows have a name, the name counts add up to `TransactionCount` |
| CustomerFacts.FirstIndicators | src/data.py:53-54 | the first-row indicators of a customer have every label of the column, set only for the value of the customer's earliest row |
| CustomerFacts.FirstValueWins | src/data.py:49-55 | a customer's `CustomerType` and `CustomerChannel` indicators are those of their earliest transaction, whatever later rows say; the indicator columns are all values in the table |
| Rows.GroupTotalsAddUp | src/data.py:46 | per-group totals, summed over all groups, give the total of the whole table |
| Baskets.ColumnMax | src/data.py:70-72 | the maximum of a boolean indicator over a group is set exactly when some row of the group sets it |
| Baskets.GroupMax | src/data.py:72 | one row per (customer, date) group that occurs, each with exactly the given indicator columns |
| Baskets.AggregateTransactions | src/data.py:61-73 | the basket table is built exactly when the split succeeds, and otherwise fails with the split's error (a one-hot label that clashes with a key column's name is not an error in the model; see Left out) |
| Baskets.AlcoholKey | src/data.py:66 | a row's `Alcohol` key is present iff its name has at least two tokens, and is then the first two tokens glued together |
| Features.ConcatCells | src/data.py:66 | adding two text cells gives a missing cell iff either is missing; otherwise the left text followed directly by the right, with no separator |
| Features.AlcoholColumn | src/data.py:66 | the `Alcohol` column has one cell per row beside that row's customer, missing iff the row's name or class is missing |
| Baskets.Products | src/data.py:68 | row `i` of the product table pairs row `i`'s date with row `i`'s one-hot row: its basket is that customer and date, and it marks exactly the labels set in that one-hot row |
| BasketFacts.AlcoholCellAt | src/data.py:66 | after a successful split, row `i` of the `Alcohol` column holds row `i`'s customer and key; a missing class makes the key missing |
| BasketFacts.GroupMaxCell | src/data.py:72 | a grouped maximum is set exactly when some product row of that basket sets the indicator |
| BasketFacts.BasketKeys | src/data.py:68-72 | whenever the split succeeds, the basket table is built and has one row for every (customer, date) pair that occurs in the input, and no other |
| BasketFacts.BasketColumns | src/data.py:66-67 | every basket row has one column for each `Alcohol` key present anywhere in the table |
| BasketFacts.BasketCell | src/data.py:66-72 | after a successful split, a basket's cell for key `l` exists and is set iff that customer bought a product with key `l` on that day |
| BasketRows.SameRowsSameBaskets | src/data.py:70-72 | two tables holding the same transactions, in any order and any multiplicity, give the same basket table or the same error |
| BasketRows.RepeatedPurchase | src/data.py:70-72 | repeating a purchase changes nothing: a cell records presence, not a count |
| SplitFacts.AlcoholKeyCollision | src/data.py:66 | two rows whose (name, class) pairs glue to the same text share one `Alcohol` key, even when the pairs differ |
| SplitFacts.CollidingNames | src/data.py:66 | such pairs exist: a transaction named "Vod caPremium 1" and one named "Vodca Premium 1" both get the `Alcohol` key "VodcaPremium" |
| SplitFacts.SameAlcoholKey | src/data.py:66 | two rows with at least two tokens share a key exactly when their first two tokens glue to the same text |

## Left out

- `read_data` (CSV parsing, decimal commas, date parsing) is file I/O and is not modelled. `TransactionDate` is an integer day and `CustomerId` an integer.
- `generate_report` calls an external profiling library and writes HTML; it is not modelled.
- `src/visualization.py` (plots, K-means clustering, elbow method) is not part of this model.
- `TransactionValue`, latitude and longitude are exact reals. Floating-point rounding in `sum` is not modelled.
- Missing values in the input table (NaN product names, values or customer ids) are not modelled. Every input cell holds a value. The only missing cells are those the split and the concatenation produce.
- The row order of grouped results, pandas' column order, and the two-level column labels after `agg` are not modelled. Outputs are maps keyed by the group key, and output columns are record fields or map keys.
- The renaming of the first two columns to `TransactionCount` and `TransactionSum` is modelled by the field names of `CustomerFeatures`, not as a string operation.
- Recent pandas versions may refuse to merge a table with two-level column labels into one with one level. The model assumes a pandas 1.x merge, which only warns when the two tables have different column levels and goes through.
- The indicator columns of `AlcoholName`, `CustomerType` and `CustomerChannel` share one flat column namespace in pandas. When a value occurs in two of those columns, `merge` renames both columns with `_x`/`_y` suffixes. The model keeps the three sets of indicators in separate maps, so this renaming is not modelled.
- Baskets.AggregateTransactions: does not fail when an `Alcohol` key equals `CustomerId` or `TransactionDate` (a product named "Customer Id 7", say). In pandas, `concat` then yields two columns of that name and the `groupby` raises a `ValueError`. The model keeps the indicators in a map beside separate key fields, so no such clash can arise.
- Aggregate.AggregateById: does not fail when an `AlcoholName`, `CustomerType` or `CustomerChannel` value is `CustomerId`. In pandas, that duplicates the `CustomerId` column after `concat`, and the `groupby` raises a `ValueError`. The reason is the same as for the basket table.
- Text.Split: its own contract states only that every token is a non-empty whitespace-free word; how whitespace runs separate tokens is stated by `Text.SplitSpaced`.
- Selecting a column that does not exist (a `KeyError`) cannot happen in the model, because columns are fields of a fixed record type.
- The indicator dtype (`bool` or `uint8`, depending on the pandas version) is modelled as `bool`. Per-name sums are natural numbers.
- The input table is never modified and every transform can be repeated with the same result. Both follow from the model's pure functions, so no lemma states them.
