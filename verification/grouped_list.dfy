/**
  The shopping list of `get_ingredients_for_shopping`: the cart rows
  grouped by the (name, measurement unit) pair, each group's amounts
  summed into its value, the groups ordered by name, and the document
  written as a header followed by one line per group.
 */
module GroupedList {
  import opened Rows
  import Collation
  import Wrappers
  import Listing
  import Store
  import CartQuery

  /** Ordered by name, in the database's order on strings. */
  predicate SortedByName(items: seq<Item>) {
    forall i, j :: 0 <= i < j < |items| ==> Collation.Le(items[i].name, items[j].name)
  }

  /** One item per distinct key of the rows, carrying that key's total, lists exactly the groups. */
  lemma ListedGroups(rows: seq<Item>, ks: seq<(string, string)>, groups: seq<Item>)
    requires Distinct(ks)
    requires forall k :: k in ks <==> k in Keys(rows, PairKey)
    requires |groups| == |ks|
    requires forall i :: 0 <= i < |ks| ==> groups[i] == Item(ks[i].0, ks[i].1, Total(rows, PairKey, ks[i]))
    ensures DistinctKeys(groups, PairKey)
    ensures forall it :: it in groups <==>
      PairKey(it) in Keys(rows, PairKey) && it.amount == Total(rows, PairKey, PairKey(it))
  {
    assert forall i :: 0 <= i < |groups| ==> PairKey(groups[i]) == ks[i];
    forall it | PairKey(it) in Keys(rows, PairKey) && it.amount == Total(rows, PairKey, PairKey(it))
      ensures it in groups
    {
      var i :| 0 <= i < |ks| && ks[i] == PairKey(it);
      assert groups[i] == it;
    }
  }

  /**
    One line per (name, unit) group present in `rows`, carrying the sum of
    that group's amounts: what the GROUP BY with `Sum('amount')` yields,
    before ordering.
   */
  function Groups(rows: seq<Item>): (groups: seq<Item>)
    ensures DistinctKeys(groups, PairKey)
    ensures forall it :: it in groups <==>
      PairKey(it) in Keys(rows, PairKey) && it.amount == Total(rows, PairKey, PairKey(it))
  {
    var ks := FirstOccurrences(Keys(rows, PairKey));
    var groups := seq(|ks|, i requires 0 <= i < |ks| => Item(ks[i].0, ks[i].1, Total(rows, PairKey, ks[i])));
    ListedGroups(rows, ks, groups);
    groups
  }

  /** `x` sorts at or before every item of the sorted `items` when it sorts at or before the first. */
  lemma LeadsSorted(x: Item, items: seq<Item>)
    requires SortedByName(items)
    requires |items| > 0 && Collation.Le(x.name, items[0].name)
    ensures forall j :: 0 <= j < |items| ==> Collation.Le(x.name, items[j].name)
  {
    forall j | 0 < j < |items|
      ensures Collation.Le(x.name, items[j].name)
    {
      Collation.LeTransitive(x.name, items[0].name, items[j].name);
    }
  }

  /** Every item of a list with the same multiset as `a + [x]` is `x` or an item of `a`. */
  lemma MembersOfMultiset(r: seq<Item>, a: seq<Item>, x: Item)
    requires multiset(r) == multiset(a) + multiset{x}
    ensures forall j :: 0 <= j < |r| ==> r[j] == x || r[j] in a
  {
    forall j | 0 <= j < |r|
      ensures r[j] == x || r[j] in a
    {
      assert r[j] in multiset(r);
    }
  }

  /**
    The head of a sorted list, when `x` sorts after it, sorts at or before
    every item of any arrangement of the tail and `x`; so it can lead.
   */
  lemma HeadLeads(head: Item, tail: seq<Item>, x: Item, rest: seq<Item>)
    requires SortedByName([head] + tail)
    requires Collation.Le(head.name, x.name)
    requires SortedByName(rest)
    requires multiset(rest) == multiset(tail) + multiset{x}
    ensures SortedByName([head] + rest)
  {
    MembersOfMultiset(rest, tail, x);
    forall j | 0 <= j < |rest|
      ensures Collation.Le(head.name, rest[j].name)
    {
      if rest[j] != x {
        var m :| 0 <= m < |tail| && tail[m] == rest[j];
        assert ([head] + tail)[0] == head && ([head] + tail)[m + 1] == rest[j];
      }
    }
  }

  /** Insertion of one item into a list ordered by name. */
  function Insert(x: Item, items: seq<Item>): (r: seq<Item>)
    requires SortedByName(items)
    ensures SortedByName(r)
    ensures multiset(r) == multiset(items) + multiset{x}
    decreases |items|
  {
    if |items| == 0 then [x]
    else if Collation.Le(x.name, items[0].name) then
      LeadsSorted(x, items);
      [x] + items
    else
      Collation.LeTotal(x.name, items[0].name);
      assert items == [items[0]] + items[1..];
      var rest := Insert(x, items[1..]);
      HeadLeads(items[0], items[1..], x, rest);
      [items[0]] + rest
  }

  /** Inserting an item whose (name, unit) pair is new keeps the pairs distinct. */
  lemma {:induction false} InsertKeepsDistinct(x: Item, items: seq<Item>)
    requires SortedByName(items)
    requires DistinctKeys(items, PairKey)
    requires forall j :: 0 <= j < |items| ==> PairKey(items[j]) != PairKey(x)
    ensures DistinctKeys(Insert(x, items), PairKey)
    decreases |items|
  {
    if |items| > 0 && !Collation.Le(x.name, items[0].name) {
      var rest := Insert(x, items[1..]);
      InsertKeepsDistinct(x, items[1..]);
      MembersOfMultiset(rest, items[1..], x);
      forall j | 0 <= j < |rest|
        ensures PairKey(items[0]) != PairKey(rest[j])
      {
        if rest[j] != x {
          var m :| 0 <= m < |items[1..]| && items[1..][m] == rest[j];
          assert items[1 + m] == rest[j];
        }
      }
    }
  }

  /** Insertion sort by name: the `order_by('ingredient__name')` of the query. */
  function SortByName(items: seq<Item>): (r: seq<Item>)
    ensures SortedByName(r)
    ensures multiset(r) == multiset(items)
    decreases |items|
  {
    if |items| == 0 then []
    else
      assert items == [items[0]] + items[1..];
      Insert(items[0], SortByName(items[1..]))
  }

  /** Sorting keeps the (name, unit) pairs distinct. */
  lemma {:induction false} SortKeepsDistinct(items: seq<Item>)
    requires DistinctKeys(items, PairKey)
    ensures DistinctKeys(SortByName(items), PairKey)
    decreases |items|
  {
    if |items| > 0 {
      var rest := SortByName(items[1..]);
      SortKeepsDistinct(items[1..]);
      forall j | 0 <= j < |rest|
        ensures PairKey(rest[j]) != PairKey(items[0])
      {
        assert rest[j] in multiset(items[1..]);
        var m :| 0 <= m < |items[1..]| && items[1..][m] == rest[j];
        assert items[1 + m] == rest[j];
      }
      InsertKeepsDistinct(items[0], rest);
    }
  }

  /**
    The groups in the order the document lists them: ordered by name, one
    per (name, unit) pair among the rows, each with its group's total.
   */
  function ShoppingGroups(rows: seq<Item>): (r: seq<Item>)
    ensures SortedByName(r)
    ensures DistinctKeys(r, PairKey)
    ensures forall it :: it in r <==>
      PairKey(it) in Keys(rows, PairKey) && it.amount == Total(rows, PairKey, PairKey(it))
  {
    var groups := Groups(rows);
    var r := SortByName(groups);
    SortKeepsDistinct(groups);
    assert forall it :: it in r <==> it in groups by {
      assert forall it :: it in r <==> it in multiset(r);
      assert forall it :: it in groups <==> it in multiset(groups);
    }
    r
  }

  /** The text of the response `get_ingredients_for_shopping` builds for `user`. */
  function GetIngredientsForShopping(db: Store.Db, user: Store.UserId): (doc: string)
    ensures |doc| >= |Listing.Header| && doc[..|Listing.Header|] == Listing.Header
  {
    Listing.ShoppingDocument(ShoppingGroups(CartQuery.CartRows(db, user)))
  }

  /** Sorting moves amounts around without changing their sum. */
  lemma {:induction false} InsertSum(x: Item, items: seq<Item>)
    requires SortedByName(items)
    ensures Sum(Insert(x, items)) == x.amount + Sum(items)
    decreases |items|
  {
    if |items| == 0 {
      SumCons(x, items);
    } else if Collation.Le(x.name, items[0].name) {
      SumCons(x, items);
    } else {
      InsertSum(x, items[1..]);
      SumCons(items[0], Insert(x, items[1..]));
      SumFirst(items);
    }
  }

  lemma {:induction false} SortSum(items: seq<Item>)
    ensures Sum(SortByName(items)) == Sum(items)
    decreases |items|
  {
    if |items| > 0 {
      SortSum(items[1..]);
      InsertSum(items[0], SortByName(items[1..]));
      SumFirst(items);
    }
  }

  /** The group values add up to the amounts of all rows. */
  lemma ShoppingGroupsConserve(rows: seq<Item>)
    ensures Sum(ShoppingGroups(rows)) == Sum(rows)
  {
    var ks := FirstOccurrences(Keys(rows, PairKey));
    var groups := Groups(rows);
    assert |groups| == |ks| && forall i :: 0 <= i < |groups| ==> groups[i].amount == Total(rows, PairKey, ks[i]);
    SumOfListedTotals(groups, ks, rows, PairKey);
    TotalsPartitionSum(ks, rows, PairKey);
    SortSum(groups);
  }

  /** Names and units of the groups are those of rows, so a readable input gives a readable list. */
  lemma ShoppingGroupsReadable(rows: seq<Item>)
    requires Listing.AllReadable(rows)
    ensures Listing.AllReadable(ShoppingGroups(rows))
  {
    var groups := ShoppingGroups(rows);
    forall i | 0 <= i < |groups|
      ensures Listing.Readable(groups[i])
    {
      assert groups[i] in groups;
      var m :| 0 <= m < |rows| && Keys(rows, PairKey)[m] == PairKey(groups[i]);
      assert Listing.Readable(rows[m]);
    }
  }

  /** Reading the response back yields the header and then the groups, in order. */
  lemma ShoppingListReadsBack(db: Store.Db, user: Store.UserId)
    requires Listing.AllReadable(CartQuery.CartRows(db, user))
    ensures Listing.ParseShoppingDocument(GetIngredientsForShopping(db, user))
            == Wrappers.Some(ShoppingGroups(CartQuery.CartRows(db, user)))
  {
    ShoppingGroupsReadable(CartQuery.CartRows(db, user));
    Listing.ShoppingDocumentRoundTrip(ShoppingGroups(CartQuery.CartRows(db, user)));
  }

  /** A cart none of whose recipes has an ingredient row, empty or not, gives the header alone. */
  lemma NoRowsHeaderOnly(db: Store.Db, user: Store.UserId)
    requires forall a :: a in db.amounts ==> !CartQuery.Contributes(db, user, a)
    ensures GetIngredientsForShopping(db, user) == Listing.Header
  {
    var rows := CartQuery.CartRows(db, user);
    CartQuery.NoContributionNoRows(db, user, db.amounts);
    assert Keys(rows, PairKey) == [];
  }

  /**
    Each value on `user`'s list is the sum, over the whole amount table, of
    the amounts of the contributing rows with that (name, unit) pair.
   */
  lemma ShoppingValuesFromStore(db: Store.Db, user: Store.UserId)
    ensures forall it :: it in ShoppingGroups(CartQuery.CartRows(db, user)) ==>
      it.amount == CartQuery.AmountTotal(db, user, db.amounts, PairKey, PairKey(it))
  {
    forall it | it in ShoppingGroups(CartQuery.CartRows(db, user))
      ensures it.amount == CartQuery.AmountTotal(db, user, db.amounts, PairKey, PairKey(it))
    {
      CartQuery.TotalOfJoin(db, user, db.amounts, PairKey, PairKey(it));
    }
  }

  /** In a valid store every value on the list is at least 1. */
  lemma ShoppingValuesPositive(db: Store.Db, user: Store.UserId)
    requires Store.Valid(db)
    ensures AllPositive(ShoppingGroups(CartQuery.CartRows(db, user)))
  {
    var rows := CartQuery.CartRows(db, user);
    var groups := ShoppingGroups(rows);
    CartQuery.CartRowsPositive(db, user);
    forall i | 0 <= i < |groups|
      ensures groups[i].amount >= 1
    {
      assert groups[i] in groups;
      TotalPositive(rows, PairKey, PairKey(groups[i]));
    }
  }
}
