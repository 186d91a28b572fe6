/** The sidebar's date-range filter (dashboard.py:69-70): keeps the records whose
    purchase timestamp lies between `str(start_date)` and `str(end_date)`, both of
    which compare as midnight of their day. */
module DateFilter {
  import opened Records

  /** `start midnight <= purchase <= end midnight`; a missing timestamp (NaT)
      fails both comparisons. */
  predicate InRange(r: Record, start: int, end: int) {
    r.purchase.Some?
    && AtOrBefore(Midnight(start), r.purchase.value)
    && AtOrBefore(r.purchase.value, Midnight(end))
  }

  /** `a` is `b` with some elements left out and the rest in their order. */
  predicate IsSubsequence(a: seq<Record>, b: seq<Record>)
    decreases |b|
  {
    a == []
    || (b != [] && ((a[0] == b[0] && IsSubsequence(a[1..], b[1..])) || IsSubsequence(a, b[1..])))
  }

  /** The boolean-mask selection `all_df[(ts >= str(start)) & (ts <= str(end))]`. */
  function FilterByDate(rs: seq<Record>, start: int, end: int): (r: seq<Record>)
    ensures IsSubsequence(r, rs)
    ensures forall x :: x in r <==> x in rs && InRange(x, start, end)
  {
    if rs == [] then []
    else
      assert rs == [rs[0]] + rs[1..];
      var rest := FilterByDate(rs[1..], start, end);
      if InRange(rs[0], start, end) then [rs[0]] + rest else rest
  }

  /** Each record occurs in the result exactly as often as in the input when it
      is in range, and not at all otherwise. */
  lemma {:induction false} FilterCounts(rs: seq<Record>, start: int, end: int, x: Record)
    ensures multiset(FilterByDate(rs, start, end))[x] == if InRange(x, start, end) then multiset(rs)[x] else 0
  {
    if rs != [] {
      assert rs == [rs[0]] + rs[1..];
      FilterCounts(rs[1..], start, end, x);
    }
  }

  /** Only the date decides, and the end day counts only at midnight: a record
      later in the day on `end` is excluded. */
  lemma InRangeByDay(r: Record, start: int, end: int)
    ensures InRange(r, start, end) <==>
      r.purchase.Some?
      && start <= r.purchase.value.day
      && (r.purchase.value.day < end || (r.purchase.value.day == end && r.purchase.value.second == 0))
  {
  }

  /** A range whose start lies after its end selects nothing; no error is raised. */
  lemma {:induction false} ReversedRangeIsEmpty(rs: seq<Record>, start: int, end: int)
    requires start > end
    ensures FilterByDate(rs, start, end) == []
  {
    if rs != [] {
      ReversedRangeIsEmpty(rs[1..], start, end);
    }
  }

  /** The mask is applied row by row, so filtering distributes over concatenation. */
  lemma {:induction false} FilterAppend(a: seq<Record>, b: seq<Record>, start: int, end: int)
    ensures FilterByDate(a + b, start, end) == FilterByDate(a, start, end) + FilterByDate(b, start, end)
  {
    if a == [] {
      assert a + b == b;
    } else {
      assert (a + b)[0] == a[0] && (a + b)[1..] == a[1..] + b;
      FilterAppend(a[1..], b, start, end);
    }
  }

  /** A filter that lets no record through yields an empty table. */
  lemma {:induction false} FilterNothing(rs: seq<Record>, start: int, end: int)
    requires forall x :: x in rs ==> !InRange(x, start, end)
    ensures FilterByDate(rs, start, end) == []
  {
    if rs != [] {
      assert forall x :: x in rs[1..] ==> x in rs;
      FilterNothing(rs[1..], start, end);
    }
  }

  /** The table is sorted by purchase timestamp before filtering (dashboard.py:50). */
  predicate TimeOrdered(rs: seq<Record>) {
    forall i, j :: 0 <= i < j < |rs| && rs[i].purchase.Some? && rs[j].purchase.Some? ==>
      AtOrBefore(rs[i].purchase.value, rs[j].purchase.value)
  }

  /** Filtering a time-ordered table leaves it time-ordered. */
  lemma {:induction false} FilterKeepsTimeOrder(rs: seq<Record>, start: int, end: int)
    requires TimeOrdered(rs)
    ensures TimeOrdered(FilterByDate(rs, start, end))
  {
    if rs != [] {
      var rest := FilterByDate(rs[1..], start, end);
      FilterKeepsTimeOrder(rs[1..], start, end);
      if InRange(rs[0], start, end) {
        forall x | x in rest ensures AtOrBefore(rs[0].purchase.value, x.purchase.value) {
          var j :| 1 <= j < |rs| && rs[j] == x;
        }
        var r := [rs[0]] + rest;
        forall i, j | 0 <= i < j < |r| && r[i].purchase.Some? && r[j].purchase.Some?
          ensures AtOrBefore(r[i].purchase.value, r[j].purchase.value)
        {
          if i == 0 {
            assert r[j] in rest;
          } else {
            assert r[i] == rest[i - 1] && r[j] == rest[j - 1];
          }
        }
      }
    }
  }
}
