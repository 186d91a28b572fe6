/** `create_sum_order_items_df` (dashboard.py:10-11) and the top-category pair
    (dashboard.py:88-89): `order_item_id` summed per `product_category_name`. */
module CategoryTotals {
  import opened Records
  import opened Groups

  /** The non-null `product_category_name` values, in record order. */
  function Categories(rs: seq<Record>): (cs: seq<int>)
    ensures forall c :: c in cs <==> exists x :: x in rs && x.category == Some(c)
  {
    if rs == [] then []
    else
      assert rs == [rs[0]] + rs[1..];
      (if rs[0].category.Some? then [rs[0].category.value] else []) + Categories(rs[1..])
  }

  /** The sum of `order_item_id` over the records of category `c`. */
  function ItemsOf(rs: seq<Record>, c: int): int {
    if rs == [] then 0
    else (if rs[0].category == Some(c) then rs[0].orderItemId else 0) + ItemsOf(rs[1..], c)
  }

  /** The sum of `order_item_id` over the records that have a category. */
  function CategorizedItems(rs: seq<Record>): int {
    if rs == [] then 0
    else (if rs[0].category.Some? then rs[0].orderItemId else 0) + CategorizedItems(rs[1..])
  }

  /** `groupby("product_category_name").order_item_id.sum()`, in key order. */
  function ByCategory(rs: seq<Record>): (g: seq<Entry>)
    ensures KeysIncreasing(g) && DistinctKeys(g)
    ensures forall c :: c in KeySet(g) <==> c in Categories(rs)
    ensures forall e :: e in g ==> e.value == ItemsOf(rs, e.key)
  {
    GroupBy(Categories(rs), c => ItemsOf(rs, c))
  }

  /** The intended result of `create_sum_order_items_df(df)`: the grouped sums
      sorted by total in descending order. */
  function SumOrderItems(rs: seq<Record>): seq<Entry> {
    SortByValueDesc(ByCategory(rs))
  }

  /** One row per distinct non-null category, carrying that category's sum, in
      non-increasing order of total. */
  lemma SumOrderItemsRows(rs: seq<Record>)
    ensures DistinctKeys(SumOrderItems(rs))
    ensures ValuesNonIncreasing(SumOrderItems(rs))
    ensures forall c :: c in KeySet(SumOrderItems(rs)) <==> exists x :: x in rs && x.category == Some(c)
    ensures forall e :: e in SumOrderItems(rs) ==> e.value == ItemsOf(rs, e.key)
  {
    SortByValueDescDistinct(ByCategory(rs));
    SortByValueDescMembers(ByCategory(rs));
  }

  /** Sum over the keys of `ks` of each key's category sum. */
  function ItemsOver(rs: seq<Record>, ks: seq<int>): int {
    if ks == [] then 0 else ItemsOf(rs, ks[0]) + ItemsOver(rs, ks[1..])
  }

  lemma {:induction false} ItemsOverEmpty(ks: seq<int>)
    ensures ItemsOver([], ks) == 0
  {
    if ks != [] {
      ItemsOverEmpty(ks[1..]);
    }
  }

  /** Over duplicate-free keys, the first record contributes its items once if its
      category is among the keys. */
  lemma {:induction false} ItemsOverSplit(rs: seq<Record>, ks: seq<int>)
    requires rs != [] && StrictlyIncreasing(ks)
    ensures ItemsOver(rs, ks) ==
      (if rs[0].category.Some? && rs[0].category.value in ks then rs[0].orderItemId else 0)
      + ItemsOver(rs[1..], ks)
  {
    if ks != [] {
      ItemsOverSplit(rs, ks[1..]);
      assert ks[0] !in ks[1..];
      assert ks == [ks[0]] + ks[1..];
    }
  }

  /** Over duplicate-free keys covering every category, the key sums add up to
      the categorized total. */
  lemma {:induction false} ItemsOverAll(rs: seq<Record>, ks: seq<int>)
    requires StrictlyIncreasing(ks)
    requires forall x :: x in rs && x.category.Some? ==> x.category.value in ks
    ensures ItemsOver(rs, ks) == CategorizedItems(rs)
  {
    if rs == [] {
      ItemsOverEmpty(ks);
    } else {
      ItemsOverSplit(rs, ks);
      assert forall x :: x in rs[1..] ==> x in rs;
      ItemsOverAll(rs[1..], ks);
    }
  }

  lemma {:induction false} TabulateSum(rs: seq<Record>, ks: seq<int>)
    ensures SumValues(Tabulate(ks, c => ItemsOf(rs, c))) == ItemsOver(rs, ks)
  {
    if ks != [] {
      TabulateSum(rs, ks[1..]);
    }
  }

  /** The row totals add up to `order_item_id` summed over the categorized records:
      dropping null categories is the only thing lost. */
  lemma SumOrderItemsTotal(rs: seq<Record>)
    ensures SumValues(SumOrderItems(rs)) == CategorizedItems(rs)
  {
    var ks := GroupKeys(Categories(rs));
    TabulateSum(rs, ks);
    ItemsOverAll(rs, ks);
    SortByValueDescSum(ByCategory(rs));
  }

  /** `name_product` and `total_order` (dashboard.py:88-89): `idxmax` and `max`
      of the grouped sums; `idxmax` of an empty series raises, modelled as `None`. */
  function TopCategory(rs: seq<Record>): Option<Entry> {
    IdxMax(ByCategory(rs))
  }

  /** The grouped entry of a category that some record carries. */
  lemma EntryOf(rs: seq<Record>, c: int) returns (e: Entry)
    requires exists x :: x in rs && x.category == Some(c)
    ensures e in ByCategory(rs) && e.key == c && e.value == ItemsOf(rs, c)
  {
    assert c in KeySet(ByCategory(rs));
    e :| e in ByCategory(rs) && e.key == c;
  }

  /** The top pair exists exactly when some record has a category; its name is a
      category some record carries, its total is that category's sum, and no
      category has a larger sum. */
  lemma TopCategoryIsMax(rs: seq<Record>)
    ensures TopCategory(rs).Some? <==> exists x :: x in rs && x.category.Some?
    ensures TopCategory(rs).Some? ==>
      && (exists x :: x in rs && x.category == Some(TopCategory(rs).value.key))
      && TopCategory(rs).value.value == ItemsOf(rs, TopCategory(rs).value.key)
    ensures TopCategory(rs).Some? ==>
      forall x :: x in rs && x.category.Some? ==> ItemsOf(rs, x.category.value) <= TopCategory(rs).value.value
  {
    if exists x :: x in rs && x.category.Some? {
      var x :| x in rs && x.category.Some?;
      var e := EntryOf(rs, x.category.value);
    }
    if ByCategory(rs) != [] {
      var t := TopCategory(rs).value;
      assert t.key in KeySet(ByCategory(rs));
      forall x | x in rs && x.category.Some?
        ensures ItemsOf(rs, x.category.value) <= t.value
      {
        var e := EntryOf(rs, x.category.value);
      }
    }
  }

  /** `idxmax` keeps the first maximum: no category with a smaller code reaches
      the top total. */
  lemma TopCategoryFirstInKeyOrder(rs: seq<Record>)
    ensures TopCategory(rs).Some? ==>
      forall x :: x in rs && x.category.Some? && x.category.value < TopCategory(rs).value.key ==>
        ItemsOf(rs, x.category.value) < TopCategory(rs).value.value
  {
    if ByCategory(rs) != [] {
      var t := TopCategory(rs).value;
      forall x | x in rs && x.category.Some? && x.category.value < t.key
        ensures ItemsOf(rs, x.category.value) < t.value
      {
        var e := EntryOf(rs, x.category.value);
      }
    }
  }

  /** The top pair agrees with the first row of `SumOrderItems`: the same total,
      and the first row's category also reaches it; when no other category reaches
      the maximum, the first row is the top pair itself. */
  lemma TopCategoryIsFirstRow(rs: seq<Record>)
    ensures TopCategory(rs).Some? <==> SumOrderItems(rs) != []
    ensures TopCategory(rs).Some? ==>
      && SumOrderItems(rs)[0].value == TopCategory(rs).value.value
      && ItemsOf(rs, SumOrderItems(rs)[0].key) == TopCategory(rs).value.value
    ensures TopCategory(rs).Some? &&
      (forall e :: e in ByCategory(rs) && e.key != TopCategory(rs).value.key ==> e.value < TopCategory(rs).value.value)
      ==> SumOrderItems(rs)[0] == TopCategory(rs).value
  {
    var g := ByCategory(rs);
    SortByValueDescMembers(g);
    if g != [] {
      SortByValueDescHead(g);
    }
  }
}
