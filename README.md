# Order-data aggregation pipeline of the e-commerce dashboard

This project models the data pipeline of a Streamlit dashboard over a merged
e-commerce order table. The pipeline has these parts:

- **Date filter.** It keeps the records whose purchase timestamp lies between
  the sidebar's start and end dates.
- **Four builders.** Each one aggregates the filtered records:
  - category totals: `order_item_id` summed per product category, sorted in
    descending order;
  - review aggregation: `review_score` summed per review score;
  - city counts: distinct customers per city, sorted in descending order;
  - RFM table: recency, frequency and monetary value per customer.
- **Top-category pair.** The category with the largest item total, and that
  total.

Everything is written as Dafny functions over sequences of records, with lemmas
about them. The source mutates only DataFrames it has just built (column
assignment, `dropna`, `drop(..., inplace=True)`), so the model writes each of
those steps as a function from one table to the next.

Representation:

- A record is the `Records.Record` datatype. Missing values (NaN/NaT) are
  `None`.
- Timestamps arrive already decoded, as a pair of a day number and a second of
  the day. `.date()` is the day number.
- Prices are integer cents.
- Category and city labels are integer codes. Code order stands for the order
  of the label strings.
- `customer_id` and `order_id_x` are integer codes as well. The ascending id
  order of `Rfm.GroupByCustomer` and `Rfm.RfmRows` is code order, standing for
  the order of the id strings.
- An aggregated pandas series is a sequence of `Groups.Entry(key, value)`.
- `groupby` makes one group per distinct non-null key, with keys in ascending
  order (pandas' default `sort=True`).
- `sort_values(ascending=False)` gives a value-descending permutation of its
  input.
- `idxmax` is the first maximum in key order.

Modules:

| module | file | models |
|---|---|---|
| `Records` | records.dfy | the record, timestamps and their order |
| `Groups` | groups.dfy | groupby, sort_values, idxmax |
| `DateFilter` | date_filter.dfy | dashboard.py:69-70 |
| `CategoryTotals` | category_totals.dfy | dashboard.py:10-12, 88-89 |
| `ReviewScores` | review_scores.dfy | dashboard.py:14-18 |
| `CityCustomers` | city_customers.dfy | dashboard.py:20-22 |
| `Rfm` | rfm.dfy | dashboard.py:24-41 |
| `Dashboard` | dashboard.dfy | dashboard.py:69-89 |

Behaviour at the edges:

- Records with a missing category are dropped and form no group of their own.
- A review score that no record carries has no bucket.
- Each review bucket holds score × occurrences. The code sums the
  `review_score` column itself, so a bucket is neither a count nor a sum of
  `order_item_id`.
- A start after the end raises no error and selects nothing
  (`DateFilter.ReversedRangeIsEmpty`).
- Equal totals keep whatever order the sort leaves them in. The model states
  nothing about the order of tied rows.
- The RFM reference day is the latest purchase day of the whole unfiltered
  table (dashboard.py:36 reads `all_df`).
- The top-category pair is read from the whole table too. Lines 88-89 are
  script-level code that reads `all_df`.
- The end date counts only up to its midnight. A purchase later in the day on
  `end_date` is excluded (`DateFilter.InRangeByDay`).

Source defects that the model corrects:

- Every builder returns its own function object instead of its local result
  (dashboard.py:12, 18, 22, 41). The model returns the local result.
- Every builder reads the global `all_df` instead of its `df` argument. This
  one is logged under "## Findings".
- `create_rfm_df` gets its reference day as an explicit parameter, `refDay`.
  Its precondition `Rfm.ReferenceCovers` says that `refDay` is at least the
  day of every purchase, which a maximum over the table guarantees.
  `Dashboard.RfmAgainst` supplies `Rfm.LatestDay` of the whole table.

Builders and the members that state their contracts:

| function | models | contract stated by |
|---|---|---|
| `CategoryTotals.SumOrderItems` | `create_sum_order_items_df`, dashboard.py:10-12: `ByCategory` sorted by total | `CategoryTotals.SumOrderItemsRows`, `CategoryTotals.SumOrderItemsTotal` |
| `CategoryTotals.TopCategory` | `name_product` and `total_order`, dashboard.py:88-89: `IdxMax` of `ByCategory` | `CategoryTotals.TopCategoryIsMax`, `CategoryTotals.TopCategoryFirstInKeyOrder`, `CategoryTotals.TopCategoryIsFirstRow` |
| `ReviewScores.AggregatedReviews` | `create_aggregated_data_df`, dashboard.py:14-18: `GroupBy` of the scores with the summed score | `ReviewScores.AggregatedReviewsRows` |
| `CityCustomers.SumCustomerCity` | `create_sum_customer_city_df`, dashboard.py:20-22: `GroupBy` of the cities with the distinct-customer count, sorted by count | `CityCustomers.SumCustomerCityRows`, `CityCustomers.DuplicateCustomerCountsOnce` |
| `Rfm.CreateRfm` | `create_rfm_df`, dashboard.py:24-41: `GroupByCustomer`, then `DropMissingTimestamp`, then `AddRecency` | `Rfm.RfmRows`, `Rfm.RfmFrequencyBounds`, `Rfm.RfmRecencyZero`, `Rfm.TwoOrdersExample` |
| `Rfm.OrderIds` | the `order_id_x` `nunique` of dashboard.py:27 | `Rfm.OrderIdsMembers`, `Rfm.FrequencyBounds` |
| `Rfm.Monetary` | the `price` `sum` of dashboard.py:28 | `Rfm.RfmRows`, `Rfm.TwoOrdersExample` |
| `Rfm.ToRfmRow`, `Rfm.AddRecency` | the recency column and the drop of the timestamp, dashboard.py:36-39 | `Rfm.RfmRows` |
| `Dashboard.RfmAgainst` | `create_rfm_df(main_df)` with the reference day of dashboard.py:36 | `Dashboard.PageRfmRows` |
| `Dashboard.PageViews` | the script body, dashboard.py:69-89, with the builders reading `main_df` | `Dashboard.PageRfmRows`, `Dashboard.PageIgnoresOutOfRange` |
| `Dashboard.PageViewsAsWritten` | the same body as written, with the builders reading `all_df` | `Dashboard.AsWrittenCountsOutOfRange` |

## Model

| member | source | states |
|---|---|---|
| `DateFilter.FilterByDate` | dashboard.py:69-70 | the result is an order-preserving subsequence of the input, and it contains exactly the input records whose timestamp is present and lies between start midnight and end midnight |
| `DateFilter.FilterCounts` | dashboard.py:69-70 | each record occurs in the result as often as in the input when it is in range, and never when it is not |
| `DateFilter.InRangeByDay` | dashboard.py:69-70 | a record passes exactly when its day is at least the start day and either before the end day, or on the end day at second 0 |
| `DateFilter.ReversedRangeIsEmpty` | dashboard.py:69-70 | a start after the end selects no record, and raises no error |
| `DateFilter.FilterAppend` | dashboard.py:69-70 | filtering a concatenation gives the concatenation of the filtered parts |
| `DateFilter.FilterNothing` | dashboard.py:69-70 | when no record is in range, the result is empty |
| `DateFilter.FilterKeepsTimeOrder` | dashboard.py:50 | a table sorted by timestamp stays sorted after filtering |
| `Groups.GroupKeys` | dashboard.py:11 | the group keys are the distinct non-null labels, once each, in strictly ascending order |
| `Groups.GroupBy` | dashboard.py:11 | one entry per distinct label, keys ascending, and each value is that label's aggregate |
| `Groups.SortByValueDesc` | dashboard.py:11 | `sort_values(ascending=False)` returns a permutation of its input in non-increasing value order |
| `Groups.SortByValueDescSum` | dashboard.py:11 | sorting keeps the sum of the values |
| `Groups.SortByValueDescDistinct` | dashboard.py:11 | sorting keeps one entry per key |
| `Groups.SortByValueDescMembers` | dashboard.py:11 | sorting keeps the same entries, the same keys and the same number of rows |
| `Groups.SortByValueDescHead` | dashboard.py:11 | the first row of a sorted non-empty series is one of its entries and has the greatest value |
| `Groups.IdxMax` | dashboard.py:88-89 | on a non-empty series, returns an entry of the series whose value is the maximum, and no smaller key reaches that maximum; on an empty series, returns `None` |
| `CategoryTotals.Categories` | dashboard.py:11 | a label is listed exactly when some record carries that non-null category |
| `CategoryTotals.ByCategory` | dashboard.py:11 | the grouped sums: one entry per category present, and each value is the sum of `order_item_id` over that category's records |
| `CategoryTotals.SumOrderItemsRows` | dashboard.py:10-11 | `SumOrderItems` (`ByCategory` sorted by total): the category table has exactly one row per distinct non-null category, each row's total is that category's sum, and rows are in non-increasing order of total |
| `CategoryTotals.SumOrderItemsTotal` | dashboard.py:10-11 | `SumOrderItems`: the row totals add up to `order_item_id` summed over all records that have a category |
| `CategoryTotals.TopCategoryIsMax` | dashboard.py:88-89 | `TopCategory` (`IdxMax` of `ByCategory`): the top pair exists exactly when some record has a category; its name is such a category, and its total is that category's sum and the maximum over all categories |
| `CategoryTotals.TopCategoryFirstInKeyOrder` | dashboard.py:88 | `TopCategory`: `idxmax` keeps the first maximum: no category with a smaller code reaches the top total |
| `CategoryTotals.TopCategoryIsFirstRow` | dashboard.py:88-89 | `TopCategory` against `SumOrderItems`: the top pair exists exactly when the sorted table is non-empty; the first row's total equals the top total, and the first row's category reaches that total; when no other category ties, the first row is the top pair itself |
| `ReviewScores.Scores` | dashboard.py:15 | a score is listed exactly when some record carries it |
| `ReviewScores.ScoreSumIsScoreTimesCount` | dashboard.py:15-17 | summing `review_score` over the group of score `s` gives `s` times the number of records with score `s` |
| `ReviewScores.ScoreCountPositive` | dashboard.py:15 | a score's record count is positive exactly when some record has that score |
| `ReviewScores.AggregatedReviewsRows` | dashboard.py:14-17 | `AggregatedReviews` (`GroupBy` of the scores): buckets appear once each, in ascending score order, exactly for the scores that occur; each bucket holds its score times its number of occurrences |
| `CityCustomers.Cities` | dashboard.py:21 | a city is listed exactly when some record carries it |
| `CityCustomers.CustomersInMembers` | dashboard.py:21 | a city's id set holds exactly the `customer_id` values of that city's records |
| `CityCustomers.CustomersAtMostRecords` | dashboard.py:21 | a city never has more distinct customers than records |
| `CityCustomers.SumCustomerCityRows` | dashboard.py:20-21 | `SumCustomerCity` (`GroupBy` of the cities, sorted by count): one row per distinct non-null city, in non-increasing order of value; each value is the number of distinct customers in that city, between 1 and the city's record count |
| `CityCustomers.DuplicateCustomerCountsOnce` | dashboard.py:21 | `SumCustomerCity`: customers A, A and B in one city give the row (city, 2) |
| `Rfm.CustomerIds` | dashboard.py:25 | an id is listed exactly when some record carries it |
| `Rfm.LatestPurchase` | dashboard.py:26 | the per-customer `max` of the timestamp is present exactly when the customer has a record with a timestamp; it is one of those timestamps, and it is at or after all of them |
| `Rfm.OrderIdsMembers` | dashboard.py:27 | the set whose size is the frequency holds exactly the `order_id_x` values of the customer's records |
| `Rfm.FrequencyBounds` | dashboard.py:27 | a customer's number of distinct order ids lies between 1 and the customer's record count |
| `Rfm.GroupByCustomer` | dashboard.py:25-31 | one aggregated row per distinct customer, in ascending id order; each row holds the customer's latest timestamp, distinct order count and summed price |
| `Rfm.DropMissingTimestamp` | dashboard.py:33 | keeps exactly the rows whose latest timestamp is present |
| `Rfm.DropKeepsOrder` | dashboard.py:33 | dropping rows keeps the ascending id order |
| `Rfm.LatestDay` | dashboard.py:36 | the reference day is present exactly when some record has a timestamp; it is the day of one of them, and at least the day of every one |
| `Rfm.RfmRows` | dashboard.py:24-39 | `CreateRfm` (`GroupByCustomer`, `DropMissingTimestamp`, `AddRecency`/`ToRfmRow`, with `Monetary` as the summed price): exactly one row per customer with a latest timestamp, ids ascending, and no other rows; each row has frequency = number of distinct order ids, monetary = summed price, recency = reference day minus the latest purchase day, and recency ≥ 0 |
| `Rfm.RfmFrequencyBounds` | dashboard.py:27-31 | `CreateRfm`: every row's frequency lies between 1 and the customer's record count |
| `Rfm.RfmRecencyZero` | dashboard.py:36-37 | `CreateRfm`: when the reference is the table's own latest day, a row's recency is 0 exactly when that customer bought on that day |
| `Rfm.TwoOrdersExample` | dashboard.py:24-39 | `CreateRfm`: two orders on days 0 and 9 with reference day 14 give recency 5, frequency 2, and monetary equal to the sum of the prices |
| `Dashboard.PageRfmRows` | dashboard.py:69-78 | `PageViews` through `RfmAgainst`: the page's RFM table has a row exactly for the customers with a purchase in range, and every recency is non-negative |
| `Dashboard.PageIgnoresOutOfRange` | dashboard.py:69-77 | `PageViews`: adding records outside the range changes none of the three filtered panels |
| `Dashboard.AsWrittenCountsOutOfRange` | dashboard.py:11 | `PageViewsAsWritten` against `PageViews`: as written, a purchase outside the range reaches the category panel; the intended page leaves it out |

## Left out

- Loading: the CSV download from a Google Drive URL (dashboard.py:44-45) is
  network and file I/O.
- Parsing: `pd.to_datetime` (dashboard.py:34, 53-54) is not modelled.
  Timestamps are already decoded integers.
- Sorting: the in-place `sort_values` of the whole table (dashboard.py:50) is a
  library sort. `DateFilter.FilterKeepsTimeOrder` takes sortedness as a
  hypothesis instead.
- `reset_index` (dashboard.py:11, 51) is index bookkeeping with no behaviour.
- The sidebar `date_input` widget (dashboard.py:61-67) is UI. Start and end
  days are parameters.
- Rendering: `st.header`, `st.metric`, `st.columns`, seaborn and matplotlib
  plotting, `st.plypot` (dashboard.py:81-106) are UI.
- `babel.numbers.format_currency` (dashboard.py:5) is a foreign library, and
  the shown code never calls it.
- Floating-point prices: the model uses integer cents.
- Missing ids, prices and item counts: `orderId`, `customerId`, `priceCents` and
  `orderItemId` are always present in the model. pandas' `sum` and `nunique`
  skip NaN; in the model a NaN price or item count is taken as 0 cents or 0
  items, and a record with a missing id is assumed not to occur.
- Label strings: labels are integer codes. The model assumes code order is the
  order of the label strings.
- The runtime defects in the script are not modelled, because they are
  crashes, not computations:
  - the undefined `name_product_df` at dashboard.py:100;
  - the misspelt `st.plypot` at dashboard.py:106;
  - the builders returning their own function object.
- Groups.IdxMax: pandas `idxmax` raises `ValueError` on an empty series, so
  dashboard.py:88 stops the script when no record has a category. The model
  returns `None` there, and `Dashboard.PageViews` still computes the other
  panels.
- Groups.SortByValueDesc: the order among equal totals is not stated. pandas
  sorts with an unstable quicksort, so the source promises no order there.
- CategoryTotals.TopCategoryIsFirstRow: the top name equals the first row's
  name only when no other category ties, for the same reason.
- Rfm.LatestDay: when the whole table has no timestamp, `.date()` of `NaT` is
  not modelled. `Dashboard.RfmAgainst` returns the empty table then, which is
  what dropping every customer gives.
- Mean recency, frequency and monetary value are not modelled. No code in the
  source computes them.
- `main (1).py` is a broken variant of the same script. It is not part of this
  model.

## Findings

| source | as written | input that shows it | evidently intended | confidence | as-written member | corrected member |
|---|---|---|---|---|---|---|
| dashboard.py:11 | each builder aggregates the global `all_df` instead of its `df` argument (also dashboard.py:15, 21, 25), so the date filter has no effect on any panel | one record on day 5, category code 1, one item; range days 0 to 1 | aggregate the filtered `main_df` passed as `df` | not executed | `Dashboard.PageViewsAsWritten`, `Dashboard.AsWrittenCountsOutOfRange` | `Dashboard.PageViews`, `Dashboard.PageIgnoresOutOfRange` |
