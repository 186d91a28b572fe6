/** `create_sum_customer_city_df` (dashboard.py:20-21): the number of distinct
    `customer_id` values per `customer_city`, sorted in descending order. */
module CityCustomers {
  import opened Records
  import opened Groups

  /** The non-null `customer_city` values, in record order. */
  function Cities(rs: seq<Record>): (cs: seq<int>)
    ensures forall c :: c in cs <==> exists x :: x in rs && x.city == Some(c)
  {
    if rs == [] then []
    else
      assert rs == [rs[0]] + rs[1..];
      (if rs[0].city.Some? then [rs[0].city.value] else []) + Cities(rs[1..])
  }

  /** The `customer_id` values of the records in city `c`. */
  function CustomersIn(rs: seq<Record>, c: int): set<int> {
    if rs == [] then {}
    else (if rs[0].city == Some(c) then {rs[0].customerId} else {}) + CustomersIn(rs[1..], c)
  }

  /** How many records are in city `c`. */
  function RecordsIn(rs: seq<Record>, c: int): nat {
    if rs == [] then 0 else (if rs[0].city == Some(c) then 1 else 0) + RecordsIn(rs[1..], c)
  }

  /** `nunique` collects exactly the ids of the city's records. */
  lemma {:induction false} CustomersInMembers(rs: seq<Record>, c: int)
    ensures forall id :: id in CustomersIn(rs, c) <==> exists x :: x in rs && x.city == Some(c) && x.customerId == id
  {
    if rs != [] {
      CustomersInMembers(rs[1..], c);
      assert rs == [rs[0]] + rs[1..];
    }
  }

  /** A city never has more distinct customers than records. */
  lemma {:induction false} CustomersAtMostRecords(rs: seq<Record>, c: int)
    ensures |CustomersIn(rs, c)| <= RecordsIn(rs, c)
  {
    if rs != [] {
      CustomersAtMostRecords(rs[1..], c);
      if rs[0].city == Some(c) {
        var rest := CustomersIn(rs[1..], c);
        assert |rest + {rs[0].customerId}| <= |rest| + 1 by {
          if rs[0].customerId in rest {
            assert rest + {rs[0].customerId} == rest;
          }
        }
        assert CustomersIn(rs, c) == rest + {rs[0].customerId};
      }
    }
  }

  /** The intended result of `create_sum_customer_city_df(df)`. */
  function SumCustomerCity(rs: seq<Record>): seq<Entry> {
    SortByValueDesc(GroupBy(Cities(rs), c => |CustomersIn(rs, c)|))
  }

  /** One row per distinct non-null city, in non-increasing order of value; each
      value is the number of distinct customers among that city's records, at
      least one and at most the city's record count. */
  lemma SumCustomerCityRows(rs: seq<Record>)
    ensures DistinctKeys(SumCustomerCity(rs))
    ensures ValuesNonIncreasing(SumCustomerCity(rs))
    ensures forall c :: c in KeySet(SumCustomerCity(rs)) <==> exists x :: x in rs && x.city == Some(c)
    ensures forall e :: e in SumCustomerCity(rs) ==>
      && e.value == |CustomersIn(rs, e.key)|
      && 1 <= e.value <= RecordsIn(rs, e.key)
  {
    var g := GroupBy(Cities(rs), c => |CustomersIn(rs, c)|);
    SortByValueDescDistinct(g);
    SortByValueDescMembers(g);
    forall e | e in SumCustomerCity(rs)
      ensures 1 <= e.value <= RecordsIn(rs, e.key)
    {
      assert e.key in KeySet(g);
      var x :| x in rs && x.city == Some(e.key);
      CustomersInMembers(rs, e.key);
      assert x.customerId in CustomersIn(rs, e.key);
      CustomersAtMostRecords(rs, e.key);
    }
  }

  /** A city whose records belong to customers A, A and B counts 2, not 3. */
  lemma DuplicateCustomerCountsOnce(a: Record, b: Record)
    requires a.city == Some(1) && b.city == Some(1) && a.customerId != b.customerId
    ensures SumCustomerCity([a, a, b]) == [Entry(1, 2)]
  {
    var rs := [a, a, b];
    assert rs[1..] == [a, b] && [a, b][1..] == [b] && [b][1..] == [];
    assert CustomersIn([b], 1) == {b.customerId};
    assert CustomersIn([a, b], 1) == {a.customerId, b.customerId};
    assert CustomersIn(rs, 1) == {a.customerId, b.customerId};
    assert Cities([b]) == [1];
    assert Cities([a, b]) == [1] + Cities([b]) == [1, 1];
    assert Cities(rs) == [1] + Cities([a, b]) == [1, 1, 1];
    assert [1, 1, 1][1..] == [1, 1] && [1, 1][1..] == [1];
    assert GroupKeys([1]) == [1];
    assert GroupKeys([1, 1]) == [1];
    assert GroupKeys([1, 1, 1]) == [1];
    var g := GroupBy(Cities(rs), c => |CustomersIn(rs, c)|);
    assert g == Tabulate([1], c => |CustomersIn(rs, c)|);
    assert g == [Entry(1, 2)];
  }
}
