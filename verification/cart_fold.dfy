/**
  The hand-written shopping list of the recipe view set: a fold over the
  query rows into a dictionary keyed by ingredient name alone, whose
  value (measurement unit, amount) is created by the first row with that
  name and whose amount every later row with that name increases; then
  one line per key in insertion order, without a header.
 */
module CartFold {
  import opened Rows
  import opened Wrappers
  import Listing
  import Store
  import CartQuery

  /** The dictionary value: `{'measurement_unit': ..., 'amount': ...}`. */
  datatype Tally = Tally(unit: string, amount: nat)

  /** The names of the rows, row by row. */
  function Names(rows: seq<Item>): seq<string> {
    Keys(rows, NameKey)
  }

  /** The unit of the first row named `name`. */
  function FirstUnit(rows: seq<Item>, name: string): string
    requires name in Names(rows)
  {
    rows[FirstIndex(Names(rows), name)].unit
  }

  /**
    What the fold yields, stated without the dictionary: one item per
    distinct name, in the order names first occur, carrying the first
    unit seen for that name and the sum of every amount under that name.
   */
  function CartTally(rows: seq<Item>): (items: seq<Item>)
    ensures DistinctKeys(items, NameKey)
    ensures forall n :: n in Names(items) <==> n in Names(rows)
    ensures forall i, j :: 0 <= i < j < |items| ==>
      FirstIndex(Names(rows), items[i].name) < FirstIndex(Names(rows), items[j].name)
    ensures forall i :: 0 <= i < |items| ==>
      items[i].name in Names(rows) && items[i].unit == FirstUnit(rows, items[i].name)
    ensures forall i :: 0 <= i < |items| ==> items[i].amount == Total(rows, NameKey, items[i].name)
    ensures |rows| == 0 ==> items == []
  {
    var names := FirstOccurrences(Names(rows));
    FirstOccurrencesOrdered(Names(rows));
    var items := seq(|names|, i requires 0 <= i < |names| =>
      Item(names[i], FirstUnit(rows, names[i]), Total(rows, NameKey, names[i])));
    assert Names(items) == names;
    items
  }

  /** The dictionary's keys are the names of the first `k` rows. */
  ghost predicate KeysSeen(rows: seq<Item>, k: nat, list: map<string, Tally>)
    requires k <= |rows|
  {
    forall n :: n in list <==> n in Names(rows)[..k]
  }

  /** Every name in the dictionary keeps the unit of its first row. */
  ghost predicate UnitsFirst(rows: seq<Item>, list: map<string, Tally>) {
    forall n :: n in list ==> n in Names(rows) && list[n].unit == FirstUnit(rows, n)
  }

  /** Every name in the dictionary carries the sum of its amounts over the first `k` rows. */
  ghost predicate AmountsSummed(rows: seq<Item>, k: nat, list: map<string, Tally>)
    requires k <= |rows|
  {
    forall n :: n in list ==> list[n].amount == Total(rows[..k], NameKey, n)
  }

  /** The dictionary after the first `k` rows: the loop invariant of the fold. */
  ghost predicate FoldedUpTo(rows: seq<Item>, k: nat, order: seq<string>, list: map<string, Tally>)
    requires k <= |rows|
  {
    && order == FirstOccurrences(Names(rows)[..k])
    && KeysSeen(rows, k, list)
    && UnitsFirst(rows, list)
    && AmountsSummed(rows, k, list)
  }

  /** One more row extends the names seen by its own name. */
  lemma NamesStep(rows: seq<Item>, k: nat)
    requires k < |rows|
    ensures forall n :: n in Names(rows)[..k + 1] <==> n in Names(rows)[..k] || n == rows[k].name
  {
    assert Names(rows)[..k + 1] == Names(rows)[..k] + [rows[k].name];
  }

  /** One more row adds its name to the insertion order when the name is new. */
  lemma OrderStep(rows: seq<Item>, k: nat)
    requires k < |rows|
    ensures FirstOccurrences(Names(rows)[..k + 1]) ==
      if rows[k].name in Names(rows)[..k] then FirstOccurrences(Names(rows)[..k])
      else FirstOccurrences(Names(rows)[..k]) + [rows[k].name]
  {
    assert Names(rows)[..k + 1][..k] == Names(rows)[..k];
  }

  /** Loop iteration for a name not yet in the dictionary: it gets the row's unit and amount. */
  lemma FoldStepNew(rows: seq<Item>, k: nat, order: seq<string>, list: map<string, Tally>)
    requires k < |rows|
    requires FoldedUpTo(rows, k, order, list)
    requires rows[k].name !in list
    ensures FoldedUpTo(rows, k + 1, order + [rows[k].name], list[rows[k].name := Tally(rows[k].unit, rows[k].amount)])
  {
    var name := rows[k].name;
    var list' := list[name := Tally(rows[k].unit, rows[k].amount)];
    assert order + [name] == FirstOccurrences(Names(rows)[..k + 1]) by {
      OrderStep(rows, k);
    }
    assert KeysSeen(rows, k + 1, list') by {
      NamesStep(rows, k);
    }
    assert UnitsFirst(rows, list') by {
      assert name !in Names(rows)[..k];
      FirstIndexNew(Names(rows), k);
    }
    assert AmountsSummed(rows, k + 1, list') by {
      assert Total(rows[..k + 1], NameKey, name) == rows[k].amount by {
        KeysOfPrefix(rows, NameKey, k);
        TotalAbsent(rows[..k], NameKey, name);
        TotalStep(rows, NameKey, k, name);
      }
      forall n | n in list
        ensures Total(rows[..k + 1], NameKey, n) == Total(rows[..k], NameKey, n)
      {
        TotalStep(rows, NameKey, k, n);
      }
    }
  }

  /** A row whose name is already a key leaves the keys as they are. */
  lemma KnownKeys(rows: seq<Item>, k: nat, list: map<string, Tally>, t: Tally)
    requires k < |rows|
    requires KeysSeen(rows, k, list)
    requires rows[k].name in list
    ensures KeysSeen(rows, k + 1, list[rows[k].name := t])
  {
    NamesStep(rows, k);
  }

  /** Changing only the amount of a key keeps every unit. */
  lemma KnownUnits(rows: seq<Item>, list: map<string, Tally>, name: string, amount: nat)
    requires UnitsFirst(rows, list)
    requires name in list
    ensures UnitsFirst(rows, list[name := Tally(list[name].unit, amount)])
  {
  }

  /** Adding the row's amount to its own key keeps every amount summed. */
  lemma KnownAmounts(rows: seq<Item>, k: nat, list: map<string, Tally>, unit: string)
    requires k < |rows|
    requires AmountsSummed(rows, k, list)
    requires rows[k].name in list
    ensures AmountsSummed(rows, k + 1, list[rows[k].name := Tally(unit, list[rows[k].name].amount + rows[k].amount)])
  {
    var list' := list[rows[k].name := Tally(unit, list[rows[k].name].amount + rows[k].amount)];
    forall n | n in list'
      ensures list'[n].amount == Total(rows[..k + 1], NameKey, n)
    {
      TotalStep(rows, NameKey, k, n);
    }
  }

  /** Loop iteration for a name already in the dictionary: its amount grows, its unit stays. */
  lemma FoldStepKnown(rows: seq<Item>, k: nat, order: seq<string>, list: map<string, Tally>)
    requires k < |rows|
    requires FoldedUpTo(rows, k, order, list)
    requires rows[k].name in list
    ensures FoldedUpTo(rows, k + 1, order,
                       list[rows[k].name := Tally(list[rows[k].name].unit, list[rows[k].name].amount + rows[k].amount)])
  {
    var name := rows[k].name;
    var t := Tally(list[name].unit, list[name].amount + rows[k].amount);
    OrderStep(rows, k);
    KnownKeys(rows, k, list, t);
    KnownUnits(rows, list, name, t.amount);
    KnownAmounts(rows, k, list, t.unit);
  }

  /**
    One pass of the loop body: a name not yet in the dictionary is added
    with the row's unit and amount; a known name has its amount increased.
   */
  function AddRow(rows: seq<Item>, k: nat, order: seq<string>, list: map<string, Tally>)
    : (next: (seq<string>, map<string, Tally>))
    requires k < |rows|
    requires FoldedUpTo(rows, k, order, list)
    ensures FoldedUpTo(rows, k + 1, next.0, next.1)
  {
    var row := rows[k];
    if row.name !in list then
      FoldStepNew(rows, k, order, list);
      (order + [row.name], list[row.name := Tally(row.unit, row.amount)])
    else
      FoldStepKnown(rows, k, order, list);
      (order, list[row.name := Tally(list[row.name].unit, list[row.name].amount + row.amount)])
  }

  /**
    The dictionary fold of `download_shopping_cart`: `order` is the key
    order of the dictionary (insertion order), `list` its contents.
   */
  method Fold(rows: seq<Item>) returns (order: seq<string>, list: map<string, Tally>)
    ensures FoldedUpTo(rows, |rows|, order, list)
  {
    order := [];
    list := map[];
    var k := 0;
    while k < |rows|
      invariant 0 <= k <= |rows|
      invariant FoldedUpTo(rows, k, order, list)
    {
      var next := AddRow(rows, k, order, list);
      order, list := next.0, next.1;
      k := k + 1;
    }
  }

  /** After the last row, the dictionary read in insertion order is the list. */
  lemma FoldedIsTally(rows: seq<Item>, order: seq<string>, list: map<string, Tally>)
    requires FoldedUpTo(rows, |rows|, order, list)
    ensures |order| == |CartTally(rows)|
    ensures forall i :: 0 <= i < |order| ==>
      order[i] in list && CartTally(rows)[i] == Item(order[i], list[order[i]].unit, list[order[i]].amount)
  {
    assert rows[..|rows|] == rows;
    assert Names(rows)[..|rows|] == Names(rows);
    assert forall n :: n in order <==> n in list;
  }

  /** `download_shopping_cart` up to the response: the fold, then one item per dictionary key. */
  method FoldCart(rows: seq<Item>) returns (items: seq<Item>)
    ensures items == CartTally(rows)
  {
    var order, list := Fold(rows);
    FoldedIsTally(rows, order, list);
    items := [];
    var i := 0;
    while i < |order|
      invariant 0 <= i <= |order|
      invariant |items| == i
      invariant forall j :: 0 <= j < i ==> items[j] == CartTally(rows)[j]
    {
      items := items + [Item(order[i], list[order[i]].unit, list[order[i]].amount)];
      i := i + 1;
    }
  }

  /** The lines of the list, concatenated into the response body. */
  method DownloadShoppingCart(db: Store.Db, user: Store.UserId) returns (body: string)
    ensures body == Listing.CartDocument(CartTally(CartQuery.CartRows(db, user)))
  {
    var items := FoldCart(CartQuery.CartRows(db, user));
    body := Listing.CartDocument(items);
  }

  /** Every row's name is among the names the list carries. */
  lemma NamesCoverRows(rows: seq<Item>)
    ensures forall i :: 0 <= i < |rows| ==> NameKey(rows[i]) in FirstOccurrences(Names(rows))
  {
    assert forall i :: 0 <= i < |rows| ==> Names(rows)[i] == NameKey(rows[i]);
  }

  /** The list loses and invents nothing: its amounts add up to the amounts of all rows. */
  lemma CartTallyConserves(rows: seq<Item>)
    ensures Sum(CartTally(rows)) == Sum(rows)
  {
    var names := FirstOccurrences(Names(rows));
    var items := CartTally(rows);
    assert |items| == |names| && forall i :: 0 <= i < |items| ==> items[i].amount == Total(rows, NameKey, names[i]);
    NamesCoverRows(rows);
    SumOfListedTotals(items, names, rows, NameKey);
    TotalsPartitionSum(names, rows, NameKey);
  }

  /** Names and units on the list are those of rows, so a readable input gives a readable list. */
  lemma CartTallyReadable(rows: seq<Item>)
    requires Listing.AllReadable(rows)
    ensures Listing.AllReadable(CartTally(rows))
  {
    var items := CartTally(rows);
    forall i | 0 <= i < |items|
      ensures Listing.Readable(items[i])
    {
      var f := FirstIndex(Names(rows), items[i].name);
      assert Listing.Readable(rows[f]);
    }
  }

  /** Reading the response back line by line yields the list, name by name. */
  lemma CartListReadsBack(rows: seq<Item>)
    requires Listing.AllReadable(rows)
    ensures Listing.ParseCartDocument(Listing.CartDocument(CartTally(rows))) == Some(CartTally(rows))
  {
    CartTallyReadable(rows);
    Listing.CartDocumentRoundTrip(CartTally(rows));
  }

  /** An empty cart gives an empty response body. */
  lemma EmptyCartEmptyList(db: Store.Db, user: Store.UserId)
    requires forall r :: (user, r) !in db.cart
    ensures Listing.CartDocument(CartTally(CartQuery.CartRows(db, user))) == ""
  {
    CartQuery.NoContributionNoRows(db, user, db.amounts);
  }

  /**
    Each amount on `user`'s list is the sum, over the whole amount table, of
    the amounts of the contributing rows with that ingredient name.
   */
  lemma CartAmountsFromStore(db: Store.Db, user: Store.UserId)
    ensures forall i :: 0 <= i < |CartTally(CartQuery.CartRows(db, user))| ==>
      CartTally(CartQuery.CartRows(db, user))[i].amount
        == CartQuery.AmountTotal(db, user, db.amounts, NameKey, CartTally(CartQuery.CartRows(db, user))[i].name)
  {
    var items := CartTally(CartQuery.CartRows(db, user));
    forall i | 0 <= i < |items|
      ensures items[i].amount == CartQuery.AmountTotal(db, user, db.amounts, NameKey, items[i].name)
    {
      CartQuery.TotalOfJoin(db, user, db.amounts, NameKey, items[i].name);
    }
  }

  /** In a valid store every amount on the list is at least 1. */
  lemma CartAmountsPositive(db: Store.Db, user: Store.UserId)
    requires Store.Valid(db)
    ensures AllPositive(CartTally(CartQuery.CartRows(db, user)))
  {
    var rows := CartQuery.CartRows(db, user);
    var items := CartTally(rows);
    CartQuery.CartRowsPositive(db, user);
    forall i | 0 <= i < |items|
      ensures items[i].amount >= 1
    {
      TotalPositive(rows, NameKey, items[i].name);
    }
  }
}
