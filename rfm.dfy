/** `create_rfm_df` (dashboard.py:24-41): per customer the latest purchase,
    the number of distinct orders (frequency) and the summed price (monetary);
    customers without a latest purchase are dropped, recency is the reference
    day minus the day of the latest purchase, and the scratch timestamp column
    is dropped. Each stage of the source is one function here. */
module Rfm {
  import opened Records
  import opened Groups

  /** A row of the table after the `agg` and the column rename (lines 25-31). */
  datatype CustomerAggregate = CustomerAggregate(
    customerId: int,
    maxOrderTimestamp: Option<Timestamp>,
    frequency: nat,
    monetary: int)

  /** A row of the finished table (line 39): the scratch timestamp is gone. */
  datatype RfmRow = RfmRow(customerId: int, frequency: nat, monetary: int, recency: int)

  /** The `customer_id` values, in record order. */
  function CustomerIds(rs: seq<Record>): (ids: seq<int>)
    ensures forall c :: c in ids <==> exists x :: x in rs && x.customerId == c
  {
    if rs == [] then []
    else
      assert rs == [rs[0]] + rs[1..];
      [rs[0].customerId] + CustomerIds(rs[1..])
  }

  /** `"order_purchase_timestamp_y": "max"` for customer `c`; missing timestamps
      are skipped, and a customer with none gets `None` (NaT). */
  function LatestPurchase(rs: seq<Record>, c: int): (t: Option<Timestamp>)
    ensures t.Some? <==> exists x :: x in rs && x.customerId == c && x.purchase.Some?
    ensures t.Some? ==> exists x :: x in rs && x.customerId == c && x.purchase == t
    ensures t.Some? ==> forall x :: x in rs && x.customerId == c && x.purchase.Some? ==>
      AtOrBefore(x.purchase.value, t.value)
  {
    if rs == [] then None
    else
      assert rs == [rs[0]] + rs[1..];
      var rest := LatestPurchase(rs[1..], c);
      if rs[0].customerId == c && rs[0].purchase.Some? then
        if rest.Some? then Some(Later(rs[0].purchase.value, rest.value)) else rs[0].purchase
      else rest
  }

  /** The `order_id_x` values of customer `c`'s records; `nunique` is its size. */
  function OrderIds(rs: seq<Record>, c: int): set<int> {
    if rs == [] then {}
    else (if rs[0].customerId == c then {rs[0].orderId} else {}) + OrderIds(rs[1..], c)
  }

  /** `"price": "sum"` for customer `c`. */
  function Monetary(rs: seq<Record>, c: int): int {
    if rs == [] then 0
    else (if rs[0].customerId == c then rs[0].priceCents else 0) + Monetary(rs[1..], c)
  }

  /** How many records belong to customer `c`. */
  function RecordCount(rs: seq<Record>, c: int): nat {
    if rs == [] then 0 else (if rs[0].customerId == c then 1 else 0) + RecordCount(rs[1..], c)
  }

  /** `nunique` on `order_id_x` collects exactly the order ids of the customer's records. */
  lemma {:induction false} OrderIdsMembers(rs: seq<Record>, c: int)
    ensures forall o :: o in OrderIds(rs, c) <==> exists x :: x in rs && x.customerId == c && x.orderId == o
  {
    if rs != [] {
      OrderIdsMembers(rs[1..], c);
      assert rs == [rs[0]] + rs[1..];
    }
  }

  /** Frequency is between one and the customer's record count: several line items
      of one order count once. */
  lemma {:induction false} FrequencyBounds(rs: seq<Record>, c: int)
    requires exists x :: x in rs && x.customerId == c
    ensures 1 <= |OrderIds(rs, c)| <= RecordCount(rs, c)
  {
    assert rs == [rs[0]] + rs[1..];
    var rest := OrderIds(rs[1..], c);
    if rs[0].customerId == c {
      if exists x :: x in rs[1..] && x.customerId == c {
        FrequencyBounds(rs[1..], c);
      } else {
        OrderIdsOfAbsent(rs[1..], c);
      }
      assert |rest + {rs[0].orderId}| <= |rest| + 1 by {
        if rs[0].orderId in rest {
          assert rest + {rs[0].orderId} == rest;
        }
      }
      assert rs[0].orderId in OrderIds(rs, c);
    } else {
      FrequencyBounds(rs[1..], c);
    }
  }

  lemma {:induction false} OrderIdsOfAbsent(rs: seq<Record>, c: int)
    requires forall x :: x in rs ==> x.customerId != c
    ensures OrderIds(rs, c) == {} && RecordCount(rs, c) == 0
  {
    if rs != [] {
      assert forall x :: x in rs[1..] ==> x in rs;
      OrderIdsOfAbsent(rs[1..], c);
    }
  }

  /** The aggregated row of customer `c`. */
  function AggregateOf(rs: seq<Record>, c: int): CustomerAggregate {
    CustomerAggregate(c, LatestPurchase(rs, c), |OrderIds(rs, c)|, Monetary(rs, c))
  }

  predicate AggregatesIncreasing(rows: seq<CustomerAggregate>) {
    forall i, j :: 0 <= i < j < |rows| ==> rows[i].customerId < rows[j].customerId
  }

  predicate RowsIncreasing(rows: seq<RfmRow>) {
    forall i, j :: 0 <= i < j < |rows| ==> rows[i].customerId < rows[j].customerId
  }

  /** The aggregated rows of the customers in `ks`, in the order of `ks`. */
  function Aggregates(rs: seq<Record>, ks: seq<int>): (g: seq<CustomerAggregate>)
    ensures |g| == |ks|
    ensures forall i :: 0 <= i < |ks| ==> g[i] == AggregateOf(rs, ks[i])
  {
    if ks == [] then [] else [AggregateOf(rs, ks[0])] + Aggregates(rs, ks[1..])
  }

  /** `groupby(by="customer_id", as_index=False).agg(...)` with the columns renamed
      (lines 25-31): one row per distinct customer, in ascending id order. */
  function GroupByCustomer(rs: seq<Record>): (g: seq<CustomerAggregate>)
    ensures AggregatesIncreasing(g)
    ensures forall a :: a in g ==> a.customerId in CustomerIds(rs) && a == AggregateOf(rs, a.customerId)
    ensures forall c :: c in CustomerIds(rs) ==> AggregateOf(rs, c) in g
  {
    var ks := GroupKeys(CustomerIds(rs));
    var g := Aggregates(rs, ks);
    assert forall c :: c in ks ==> AggregateOf(rs, c) in g by {
      forall c | c in ks ensures AggregateOf(rs, c) in g {
        var i :| 0 <= i < |ks| && ks[i] == c;
        assert g[i] == AggregateOf(rs, c);
      }
    }
    g
  }

  /** `dropna(subset=["max_order_timestamp"])` (line 33). */
  function DropMissingTimestamp(rows: seq<CustomerAggregate>): (r: seq<CustomerAggregate>)
    ensures forall a :: a in r <==> a in rows && a.maxOrderTimestamp.Some?
  {
    if rows == [] then []
    else
      assert rows == [rows[0]] + rows[1..];
      var rest := DropMissingTimestamp(rows[1..]);
      if rows[0].maxOrderTimestamp.Some? then [rows[0]] + rest else rest
  }

  /** Dropping rows keeps the ascending id order. */
  lemma {:induction false} DropKeepsOrder(rows: seq<CustomerAggregate>)
    requires AggregatesIncreasing(rows)
    ensures AggregatesIncreasing(DropMissingTimestamp(rows))
  {
    if rows != [] {
      var rest := DropMissingTimestamp(rows[1..]);
      DropKeepsOrder(rows[1..]);
      if rows[0].maxOrderTimestamp.Some? {
        forall a | a in rest ensures rows[0].customerId < a.customerId {
          var j :| 1 <= j < |rows| && rows[j] == a;
        }
        var r := [rows[0]] + rest;
        forall i, j | 0 <= i < j < |r| ensures r[i].customerId < r[j].customerId {
          if i == 0 {
            assert r[j] in rest;
          } else {
            assert r[i] == rest[i - 1] && r[j] == rest[j - 1];
          }
        }
      }
    }
  }

  /** Lines 34-39 for one row: recency in whole days from the `.date()` of the
      latest purchase to the reference day, and the timestamp column dropped. */
  function ToRfmRow(a: CustomerAggregate, refDay: int): RfmRow
    requires a.maxOrderTimestamp.Some?
  {
    RfmRow(a.customerId, a.frequency, a.monetary, refDay - a.maxOrderTimestamp.value.day)
  }

  function AddRecency(rows: seq<CustomerAggregate>, refDay: int): seq<RfmRow>
    requires forall a :: a in rows ==> a.maxOrderTimestamp.Some?
  {
    seq(|rows|, i requires 0 <= i < |rows| => ToRfmRow(rows[i], refDay))
  }

  /** The reference day is on or after the day of every purchase, as the maximum
      over the table (line 36) is. */
  predicate ReferenceCovers(rs: seq<Record>, refDay: int) {
    forall x :: x in rs && x.purchase.Some? ==> x.purchase.value.day <= refDay
  }

  /** The intended result of `create_rfm_df(df)` with reference day `refDay`. */
  function CreateRfm(rs: seq<Record>, refDay: int): seq<RfmRow>
    requires ReferenceCovers(rs, refDay)
  {
    AddRecency(DropMissingTimestamp(GroupByCustomer(rs)), refDay)
  }

  /** `all_df["order_purchase_timestamp_y"].max().date()` (line 36). */
  function LatestDay(rs: seq<Record>): (d: Option<int>)
    ensures d.Some? <==> exists x :: x in rs && x.purchase.Some?
    ensures d.Some? ==> ReferenceCovers(rs, d.value)
    ensures d.Some? ==> exists x :: x in rs && x.purchase.Some? && x.purchase.value.day == d.value
  {
    if rs == [] then None
    else
      assert rs == [rs[0]] + rs[1..];
      var rest := LatestDay(rs[1..]);
      if rs[0].purchase.Some? then
        if rest.Some? && rest.value > rs[0].purchase.value.day then rest
        else Some(rs[0].purchase.value.day)
      else rest
  }

  /** Some record of customer `c` has a purchase timestamp. */
  predicate Purchased(rs: seq<Record>, c: int) {
    exists x :: x in rs && x.customerId == c && x.purchase.Some?
  }

  /** The table has a row for customer `c`. */
  predicate HasRow(t: seq<RfmRow>, c: int) {
    exists row :: row in t && row.customerId == c
  }

  /** One row per customer that has a latest purchase, in ascending id order, and
      no other rows; each row carries the number of distinct orders, the summed
      price, and the reference day minus the day of the latest purchase, which is
      never negative. */
  lemma RfmRows(rs: seq<Record>, refDay: int)
    requires ReferenceCovers(rs, refDay)
    ensures RowsIncreasing(CreateRfm(rs, refDay))
    ensures forall c :: HasRow(CreateRfm(rs, refDay), c) <==> Purchased(rs, c)
    ensures forall row :: row in CreateRfm(rs, refDay) ==>
      && LatestPurchase(rs, row.customerId).Some?
      && row.frequency == |OrderIds(rs, row.customerId)|
      && row.monetary == Monetary(rs, row.customerId)
      && row.recency == refDay - LatestPurchase(rs, row.customerId).value.day
      && row.recency >= 0
  {
    var g := GroupByCustomer(rs);
    var d := DropMissingTimestamp(g);
    var t := CreateRfm(rs, refDay);
    DropKeepsOrder(g);
    assert |t| == |d|;
    assert forall i :: 0 <= i < |d| ==> t[i] == ToRfmRow(d[i], refDay);
    forall c | Purchased(rs, c) ensures HasRow(t, c) {
      var x :| x in rs && x.customerId == c && x.purchase.Some?;
      assert c in CustomerIds(rs);
      var a := AggregateOf(rs, c);
      assert a in d;
      var i :| 0 <= i < |d| && d[i] == a;
      assert t[i] in t;
    }
    forall row | row in t
      ensures Purchased(rs, row.customerId)
      ensures LatestPurchase(rs, row.customerId).Some?
      ensures row.recency == refDay - LatestPurchase(rs, row.customerId).value.day
      ensures row.frequency == |OrderIds(rs, row.customerId)| && row.monetary == Monetary(rs, row.customerId)
      ensures row.recency >= 0
    {
      var i :| 0 <= i < |t| && t[i] == row;
      assert d[i] in d;
      var tl := LatestPurchase(rs, row.customerId).value;
      var x :| x in rs && x.customerId == row.customerId && x.purchase == Some(tl);
    }
  }

  /** Frequency lies between one and the customer's record count. */
  lemma RfmFrequencyBounds(rs: seq<Record>, refDay: int)
    requires ReferenceCovers(rs, refDay)
    ensures forall row :: row in CreateRfm(rs, refDay) ==>
      1 <= row.frequency <= RecordCount(rs, row.customerId)
  {
    RfmRows(rs, refDay);
    forall row | row in CreateRfm(rs, refDay)
      ensures 1 <= row.frequency <= RecordCount(rs, row.customerId)
    {
      FrequencyBounds(rs, row.customerId);
    }
  }

  /** With the table's own latest day as reference, a customer's recency is 0
      exactly when the customer made a purchase on that day. */
  lemma RfmRecencyZero(rs: seq<Record>)
    requires LatestDay(rs).Some?
    ensures forall row :: row in CreateRfm(rs, LatestDay(rs).value) ==>
      (row.recency == 0 <==>
        exists x :: x in rs && x.customerId == row.customerId && x.purchase.Some?
                    && x.purchase.value.day == LatestDay(rs).value)
  {
    var d := LatestDay(rs).value;
    RfmRows(rs, d);
    forall row | row in CreateRfm(rs, d)
      ensures row.recency == 0 <==>
        exists x :: x in rs && x.customerId == row.customerId && x.purchase.Some? && x.purchase.value.day == d
    {
      var t := LatestPurchase(rs, row.customerId).value;
      if row.recency == 0 {
        var x :| x in rs && x.customerId == row.customerId && x.purchase == Some(t);
      }
    }
  }

  /** A customer with purchases on days 0 and 9 of two orders, reference day 14:
      recency 5 from the later order, frequency 2, monetary the sum of the prices. */
  lemma TwoOrdersExample(a: Record, b: Record)
    requires a.customerId == b.customerId && a.orderId != b.orderId
    requires a.purchase == Some(Timestamp(0, 0)) && b.purchase == Some(Timestamp(9, 0))
    ensures CreateRfm([a, b], 14) == [RfmRow(a.customerId, 2, a.priceCents + b.priceCents, 5)]
  {
    var rs := [a, b];
    var c := a.customerId;
    assert rs[1..] == [b] && [b][1..] == [];
    assert CustomerIds([b]) == [c];
    assert CustomerIds(rs) == [c, c];
    assert GroupKeys([c]) == [c];
    assert GroupKeys(CustomerIds(rs)) == [c];
    assert OrderIds([b], c) == {b.orderId};
    assert OrderIds(rs, c) == {a.orderId, b.orderId};
    assert Monetary([b], c) == b.priceCents;
    assert Monetary(rs, c) == a.priceCents + b.priceCents;
    assert LatestPurchase([b], c) == b.purchase;
    assert LatestPurchase(rs, c) == b.purchase;
    var g := GroupByCustomer(rs);
    assert g == Aggregates(rs, [c]);
    assert g == [CustomerAggregate(c, b.purchase, 2, a.priceCents + b.priceCents)];
    assert DropMissingTimestamp(g) == g;
  }
}
