/** The script body (dashboard.py:69-89): filter the table by the sidebar range,
    hand the filtered records to the four builders, and read the top-category
    pair from the whole table. */
module Dashboard {
  import opened Records
  import opened Groups
  import opened DateFilter
  import opened CategoryTotals
  import opened ReviewScores
  import opened CityCustomers
  import opened Rfm

  /** Everything the page renders from the data. */
  datatype Views = Views(
    sumOrderItems: seq<Entry>,
    aggregatedReviews: seq<Entry>,
    sumCustomerCity: seq<Entry>,
    rfm: seq<RfmRow>,
    topCategory: Option<Entry>)

  /** The RFM table of `main` against the latest purchase day of `all` (line 36).
      When `all` has no purchase timestamp at all, no record of `main` has one
      either, so every customer is dropped and the table is empty. */
  function RfmAgainst(main: seq<Record>, all: seq<Record>): seq<RfmRow>
    requires forall x :: x in main ==> x in all
  {
    match LatestDay(all)
    case None => []
    case Some(d) =>
      assert ReferenceCovers(main, d);
      CreateRfm(main, d)
  }

  /** The intended page: each builder applied to the filtered records `main_df`
      (lines 69-78), the top pair read from the whole table (lines 88-89). */
  function PageViews(all: seq<Record>, start: int, end: int): Views {
    var main := FilterByDate(all, start, end);
    Views(SumOrderItems(main), AggregatedReviews(main), SumCustomerCity(main),
          RfmAgainst(main, all), TopCategory(all))
  }

  /** Customer `c` made a purchase inside the range. */
  predicate BoughtInRange(all: seq<Record>, c: int, start: int, end: int) {
    exists x :: x in all && x.customerId == c && InRange(x, start, end)
  }

  /** On the page, the RFM table has a row exactly for the customers with a
      purchase inside the range, and every recency is non-negative because the
      reference day is the latest purchase day of the whole table. */
  lemma PageRfmRows(all: seq<Record>, start: int, end: int)
    ensures forall c :: HasRow(PageViews(all, start, end).rfm, c) <==> BoughtInRange(all, c, start, end)
    ensures forall row :: row in PageViews(all, start, end).rfm ==> row.recency >= 0
  {
    var main := FilterByDate(all, start, end);
    var t := PageViews(all, start, end).rfm;
    match LatestDay(all)
    case None =>
      assert forall c :: !BoughtInRange(all, c, start, end);
    case Some(d) =>
      RfmRows(main, d);
      forall c ensures Purchased(main, c) <==> BoughtInRange(all, c, start, end) {
        if Purchased(main, c) {
          var x :| x in main && x.customerId == c && x.purchase.Some?;
          assert x in all && InRange(x, start, end);
        }
        if BoughtInRange(all, c, start, end) {
          var x :| x in all && x.customerId == c && InRange(x, start, end);
          assert x in main;
        }
      }
  }

  /** The filtered panels depend only on the records inside the range: adding
      records outside it changes none of them. */
  lemma PageIgnoresOutOfRange(all: seq<Record>, extra: seq<Record>, start: int, end: int)
    requires forall x :: x in extra ==> !InRange(x, start, end)
    ensures PageViews(all + extra, start, end).sumOrderItems == PageViews(all, start, end).sumOrderItems
    ensures PageViews(all + extra, start, end).aggregatedReviews == PageViews(all, start, end).aggregatedReviews
    ensures PageViews(all + extra, start, end).sumCustomerCity == PageViews(all, start, end).sumCustomerCity
  {
    FilterAppend(all, extra, start, end);
    FilterNothing(extra, start, end);
    assert FilterByDate(all, start, end) + [] == FilterByDate(all, start, end);
  }

  /** The page as written: every builder aggregates the global `all_df` instead of
      its `df` argument (lines 11, 15, 21 and 25), so `main_df` is never used.
      Line 36 reads the whole table for the reference day on both pages.
      (The builders' returning of their own function object is set aside here.) */
  function PageViewsAsWritten(all: seq<Record>, start: int, end: int): Views {
    Views(SumOrderItems(all), AggregatedReviews(all), SumCustomerCity(all),
          RfmAgainst(all, all), TopCategory(all))
  }

  /** As written, a purchase outside the range still reaches the category panel,
      where the intended page leaves it out. */
  lemma AsWrittenCountsOutOfRange()
    ensures
      var x := Record(1, 1, Some(1), 1, 100, Some(5), Some(1), Some(Timestamp(5, 0)));
      && PageViewsAsWritten([x], 0, 1).sumOrderItems == [Entry(1, 1)]
      && PageViews([x], 0, 1).sumOrderItems == []
  {
    var x := Record(1, 1, Some(1), 1, 100, Some(5), Some(1), Some(Timestamp(5, 0)));
    assert [x][1..] == [];
    assert Categories([x]) == [1];
    assert GroupKeys([1]) == [1];
    assert ItemsOf([x], 1) == 1;
    assert ByCategory([x]) == Tabulate([1], c => ItemsOf([x], c));
    assert ByCategory([x]) == [Entry(1, 1)];
    assert SortByValueDesc([Entry(1, 1)]) == [Entry(1, 1)];
    assert FilterByDate([x], 0, 1) == [];
  }
}
