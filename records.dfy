/** The order-line records the dashboard reads from its CSV table, after the
    timestamp columns have been decoded. Labels (product category, city) are
    integer codes whose order is the labels' order; prices are integer cents. */
module Records {

  datatype Option<T> = None | Some(value: T)

  /** A second within a calendar day. */
  type SecondOfDay = s: int | 0 <= s < 86400

  /** A decoded purchase timestamp: the calendar day (days since an epoch)
      and the second within that day. `.date()` of a timestamp is its day. */
  datatype Timestamp = Timestamp(day: int, second: SecondOfDay)

  /** Timestamp comparison: day first, then second within the day. */
  predicate AtOrBefore(a: Timestamp, b: Timestamp) {
    a.day < b.day || (a.day == b.day && a.second <= b.second)
  }

  /** The later of two timestamps. */
  function Later(a: Timestamp, b: Timestamp): (t: Timestamp)
    ensures t == a || t == b
    ensures AtOrBefore(a, t) && AtOrBefore(b, t)
  {
    if AtOrBefore(a, b) then b else a
  }

  /** A date string `str(d)` compared with a timestamp stands for midnight of day `d`. */
  function Midnight(day: int): Timestamp {
    Timestamp(day, 0)
  }

  /** One row of the merged order table; `None` stands for a missing value. */
  datatype Record = Record(
    orderId: int,                 // order_id_x
    customerId: int,              // customer_id
    category: Option<int>,        // product_category_name
    orderItemId: int,             // order_item_id
    priceCents: int,              // price
    reviewScore: Option<int>,     // review_score
    city: Option<int>,            // customer_city
    purchase: Option<Timestamp>)  // order_purchase_timestamp_y
}
