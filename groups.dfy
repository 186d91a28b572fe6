/** The pandas operations the builders chain together: `groupby` (one group
    per distinct non-null key, keys in ascending order), a per-group value,
    `sort_values(ascending=False)` on the resulting series, and `idxmax`. */
module Groups {
  import opened Records

  /** One row of an aggregated series: the group key and its value. */
  datatype Entry = Entry(key: int, value: int)

  predicate StrictlyIncreasing(ks: seq<int>) {
    forall i, j :: 0 <= i < j < |ks| ==> ks[i] < ks[j]
  }

  /** Adds key `k` to an ascending key list, keeping it ascending and duplicate-free. */
  function InsertKey(k: int, ks: seq<int>): (r: seq<int>)
    requires StrictlyIncreasing(ks)
    ensures StrictlyIncreasing(r)
    ensures forall x :: x in r <==> x == k || x in ks
  {
    if ks == [] then [k]
    else if k < ks[0] then
      HeadBelowRest(ks);
      PrependIncreasing(k, ks);
      [k] + ks
    else if k == ks[0] then ks
    else
      var t := InsertKey(k, ks[1..]);
      HeadBelowRest(ks);
      assert ks == [ks[0]] + ks[1..];
      PrependIncreasing(ks[0], t);
      [ks[0]] + t
  }

  /** Every later key of an ascending list is above its head. */
  lemma HeadBelowRest(ks: seq<int>)
    requires ks != [] && StrictlyIncreasing(ks)
    ensures forall x :: x in ks[1..] ==> ks[0] < x
  {
    forall x | x in ks[1..] ensures ks[0] < x {
      var j :| 0 <= j < |ks[1..]| && ks[1..][j] == x;
      assert ks[j + 1] == x;
    }
  }

  /** A key below every key of an ascending list can go in front of it. */
  lemma PrependIncreasing(h: int, t: seq<int>)
    requires StrictlyIncreasing(t)
    requires forall x :: x in t ==> h < x
    ensures StrictlyIncreasing([h] + t)
  {
    var r := [h] + t;
    forall i, j | 0 <= i < j < |r| ensures r[i] < r[j] {
      assert r[j] == t[j - 1];
      if i == 0 {
        assert t[j - 1] in t;
      } else {
        assert r[i] == t[i - 1];
      }
    }
  }

  /** The group keys of a column: each distinct value once, in ascending order. */
  function GroupKeys(labels: seq<int>): (r: seq<int>)
    ensures StrictlyIncreasing(r)
    ensures forall x :: x in r <==> x in labels
  {
    if labels == [] then [] else InsertKey(labels[0], GroupKeys(labels[1..]))
  }

  /** The series with one entry `(k, f(k))` per key of `ks`, in the order of `ks`. */
  function Tabulate(ks: seq<int>, f: int -> int): (r: seq<Entry>)
    ensures |r| == |ks|
    ensures forall i :: 0 <= i < |ks| ==> r[i].key == ks[i] && r[i].value == f(ks[i])
  {
    if ks == [] then [] else [Entry(ks[0], f(ks[0]))] + Tabulate(ks[1..], f)
  }

  /** The set of keys present in a series. */
  function KeySet(rows: seq<Entry>): set<int> {
    set e | e in rows :: e.key
  }

  predicate KeysIncreasing(rows: seq<Entry>) {
    forall i, j :: 0 <= i < j < |rows| ==> rows[i].key < rows[j].key
  }

  predicate DistinctKeys(rows: seq<Entry>) {
    forall i, j :: 0 <= i < j < |rows| ==> rows[i].key != rows[j].key
  }

  predicate ValuesNonIncreasing(rows: seq<Entry>) {
    forall i, j :: 0 <= i < j < |rows| ==> rows[i].value >= rows[j].value
  }

  /** `labels.groupby(...)` followed by the per-group aggregate `f`: one entry per
      distinct label, in ascending key order, carrying that label's aggregate. */
  function GroupBy(labels: seq<int>, f: int -> int): (r: seq<Entry>)
    ensures KeysIncreasing(r) && DistinctKeys(r)
    ensures forall k :: k in KeySet(r) <==> k in labels
    ensures forall e :: e in r ==> e.value == f(e.key)
  {
    var ks := GroupKeys(labels);
    var r := Tabulate(ks, f);
    assert forall k :: k in KeySet(r) <==> k in ks by {
      forall k | k in ks ensures k in KeySet(r) {
        var i :| 0 <= i < |ks| && ks[i] == k;
        assert r[i] in r;
      }
    }
    r
  }

  function SumValues(rows: seq<Entry>): int {
    if rows == [] then 0 else rows[0].value + SumValues(rows[1..])
  }

  /** Places `e` in a value-descending series. */
  function InsertByValue(e: Entry, rows: seq<Entry>): (r: seq<Entry>)
    requires ValuesNonIncreasing(rows)
    ensures ValuesNonIncreasing(r)
    ensures multiset(r) == multiset(rows) + multiset{e}
  {
    if rows == [] || e.value >= rows[0].value then
      HeadAboveRest(rows);
      PrependNonIncreasing(e, rows);
      [e] + rows
    else
      var tail := InsertByValue(e, rows[1..]);
      assert rows == [rows[0]] + rows[1..];
      HeadAboveRest(rows);
      UnderHead(rows[0], e, rows[1..], tail);
      PrependNonIncreasing(rows[0], tail);
      [rows[0]] + tail
  }

  /** Every later entry of a value-descending series is at most its head. */
  lemma HeadAboveRest(rows: seq<Entry>)
    requires ValuesNonIncreasing(rows)
    ensures rows != [] ==> forall x :: x in rows ==> x.value <= rows[0].value
  {
    forall x | x in rows ensures x.value <= rows[0].value {
      var j :| 0 <= j < |rows| && rows[j] == x;
      if j > 0 {
        assert rows[0].value >= rows[j].value;
      }
    }
  }

  /** An entry bounding `e` and every entry of `rest` bounds any rearrangement of them. */
  lemma UnderHead(h: Entry, e: Entry, rest: seq<Entry>, tail: seq<Entry>)
    requires e.value < h.value
    requires forall x :: x in rest ==> x.value <= h.value
    requires multiset(tail) == multiset(rest) + multiset{e}
    ensures forall x :: x in tail ==> x.value <= h.value
  {
    forall x | x in tail ensures x.value <= h.value {
      assert x in multiset(tail);
      if x != e {
        assert x in multiset(rest);
      }
    }
  }

  /** An entry at least as large as every entry of a value-descending series can
      go in front of it. */
  lemma PrependNonIncreasing(h: Entry, t: seq<Entry>)
    requires ValuesNonIncreasing(t)
    requires forall x :: x in t ==> x.value <= h.value
    ensures ValuesNonIncreasing([h] + t)
  {
    var r := [h] + t;
    forall i, j | 0 <= i < j < |r| ensures r[i].value >= r[j].value {
      assert r[j] == t[j - 1];
      if i == 0 {
        assert t[j - 1] in t;
      } else {
        assert r[i] == t[i - 1];
      }
    }
  }

  lemma {:induction false} InsertByValueSum(e: Entry, rows: seq<Entry>)
    requires ValuesNonIncreasing(rows)
    ensures SumValues(InsertByValue(e, rows)) == e.value + SumValues(rows)
  {
    if rows == [] || e.value >= rows[0].value {
    } else {
      InsertByValueSum(e, rows[1..]);
    }
  }

  lemma {:induction false} InsertByValueDistinct(e: Entry, rows: seq<Entry>)
    requires ValuesNonIncreasing(rows) && DistinctKeys(rows)
    requires forall x :: x in rows ==> x.key != e.key
    ensures DistinctKeys(InsertByValue(e, rows))
  {
    if rows == [] || e.value >= rows[0].value {
    } else {
      var tail := InsertByValue(e, rows[1..]);
      InsertByValueDistinct(e, rows[1..]);
      forall x | x in tail ensures x.key != rows[0].key {
        assert x in multiset(tail);
        if x != e {
          assert x in multiset(rows[1..]);
          var j :| 1 <= j < |rows| && rows[j] == x;
          assert rows[0].key != rows[j].key;
        } else {
          assert rows[0] in rows;
        }
      }
    }
  }

  /** `sort_values(ascending=False)`: a value-descending permutation of `rows`. */
  function SortByValueDesc(rows: seq<Entry>): (r: seq<Entry>)
    ensures ValuesNonIncreasing(r)
    ensures multiset(r) == multiset(rows)
  {
    if rows == [] then []
    else
      assert rows == [rows[0]] + rows[1..];
      InsertByValue(rows[0], SortByValueDesc(rows[1..]))
  }

  /** Sorting keeps the series total. */
  lemma {:induction false} SortByValueDescSum(rows: seq<Entry>)
    ensures SumValues(SortByValueDesc(rows)) == SumValues(rows)
  {
    if rows != [] {
      SortByValueDescSum(rows[1..]);
      InsertByValueSum(rows[0], SortByValueDesc(rows[1..]));
    }
  }

  /** Sorting keeps one entry per key. */
  lemma {:induction false} SortByValueDescDistinct(rows: seq<Entry>)
    requires DistinctKeys(rows)
    ensures DistinctKeys(SortByValueDesc(rows))
  {
    if rows != [] {
      var rest := SortByValueDesc(rows[1..]);
      SortByValueDescDistinct(rows[1..]);
      forall x | x in rest ensures x.key != rows[0].key {
        assert x in multiset(rows[1..]);
        var j :| 1 <= j < |rows| && rows[j] == x;
        assert rows[0].key != rows[j].key;
      }
      InsertByValueDistinct(rows[0], rest);
    }
  }

  /** Sorting keeps the same entries, the same keys and the same length. */
  lemma SortByValueDescMembers(rows: seq<Entry>)
    ensures |SortByValueDesc(rows)| == |rows|
    ensures forall e :: e in SortByValueDesc(rows) <==> e in rows
    ensures KeySet(SortByValueDesc(rows)) == KeySet(rows)
  {
    var s := SortByValueDesc(rows);
    assert |s| == |multiset(s)| == |multiset(rows)| == |rows|;
    forall e ensures e in s <==> e in rows {
      assert e in s <==> e in multiset(s);
      assert e in rows <==> e in multiset(rows);
    }
  }

  /** The first row of the sorted series is an entry of greatest value. */
  lemma SortByValueDescHead(rows: seq<Entry>)
    requires rows != []
    ensures SortByValueDesc(rows) != []
    ensures SortByValueDesc(rows)[0] in rows
    ensures forall e :: e in rows ==> e.value <= SortByValueDesc(rows)[0].value
  {
    SortByValueDescMembers(rows);
    HeadAboveRest(SortByValueDesc(rows));
  }

  /** `idxmax`: the position of the first maximal value. */
  function MaxIndex(rows: seq<Entry>): (i: nat)
    requires rows != []
    ensures i < |rows|
    ensures forall j :: 0 <= j < |rows| ==> rows[j].value <= rows[i].value
    ensures forall j :: 0 <= j < i ==> rows[j].value < rows[i].value
  {
    if |rows| == 1 then 0
    else
      var k := MaxIndex(rows[1..]);
      if rows[k + 1].value > rows[0].value then k + 1 else 0
  }

  /** `idxmax` together with `max`: the first entry of greatest value, or `None`
      for an empty series (where pandas raises). In a key-ascending series no
      smaller key reaches the maximum. */
  function IdxMax(g: seq<Entry>): (t: Option<Entry>)
    requires KeysIncreasing(g)
    ensures t.Some? <==> g != []
    ensures t.Some? ==> t.value in g
    ensures t.Some? ==> forall e :: e in g ==> e.value <= t.value.value
    ensures t.Some? ==> forall e :: e in g && e.key < t.value.key ==> e.value < t.value.value
  {
    if g == [] then None
    else
      var i := MaxIndex(g);
      assert forall e :: e in g && e.key < g[i].key ==> e.value < g[i].value by {
        forall e | e in g && e.key < g[i].key ensures e.value < g[i].value {
          var j :| 0 <= j < |g| && g[j] == e;
        }
      }
      Some(g[i])
  }
}
