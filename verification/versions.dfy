/**
  How the two shopping lists relate. Where every ingredient name comes
  with a single measurement unit they list the same lines (in different
  orders and formats); where one name comes with two units the
  hand-written fold adds the amounts under the first unit, while the
  grouped query keeps one line per unit.
 */
module Versions {
  import opened Rows
  import CartFold
  import GroupedList

  /** Rows with the same name carry the same unit. */
  predicate OneUnitPerName(rows: seq<Item>) {
    forall i, j :: 0 <= i < |rows| && 0 <= j < |rows| && rows[i].name == rows[j].name ==> rows[i].unit == rows[j].unit
  }

  /** When every row named `n` has unit `u`, the total under the name is the total under the pair. */
  lemma {:induction false} NameTotalIsPairTotal(rows: seq<Item>, n: string, u: string)
    requires forall i :: 0 <= i < |rows| && rows[i].name == n ==> rows[i].unit == u
    ensures Total(rows, NameKey, n) == Total(rows, PairKey, (n, u))
    decreases |rows|
  {
    if |rows| > 0 {
      var m := |rows| - 1;
      assert forall i :: 0 <= i < m ==> rows[..m][i] == rows[i];
      NameTotalIsPairTotal(rows[..m], n, u);
    }
  }

  /** With one unit per name, every line of the fold is a line of the grouped query. */
  lemma CartLineIsGroup(rows: seq<Item>, it: Item)
    requires OneUnitPerName(rows)
    requires it in CartFold.CartTally(rows)
    ensures it in GroupedList.ShoppingGroups(rows)
  {
    var items := CartFold.CartTally(rows);
    var i :| 0 <= i < |items| && items[i] == it;
    var f := FirstIndex(CartFold.Names(rows), it.name);
    assert Keys(rows, PairKey)[f] == PairKey(it);
    NameTotalIsPairTotal(rows, it.name, it.unit);
  }

  /**
    With one unit per name, every line of the grouped query (a (name, unit)
    pair of the rows with that pair's total) is a line of the fold.
   */
  lemma GroupIsCartLine(rows: seq<Item>, it: Item)
    requires OneUnitPerName(rows)
    requires PairKey(it) in Keys(rows, PairKey) && it.amount == Total(rows, PairKey, PairKey(it))
    ensures it in CartFold.CartTally(rows)
  {
    var names := CartFold.Names(rows);
    var m :| 0 <= m < |rows| && Keys(rows, PairKey)[m] == PairKey(it);
    assert rows[m].name == it.name && rows[m].unit == it.unit;
    assert names[m] == it.name;
    var items := CartFold.CartTally(rows);
    assert it.name in CartFold.Names(items);
    var i :| 0 <= i < |items| && CartFold.Names(items)[i] == it.name;
    var f := FirstIndex(names, it.name);
    assert items[i].unit == rows[f].unit == it.unit;
    NameTotalIsPairTotal(rows, it.name, it.unit);
    assert items[i] == it;
  }

  /** With one unit per name both versions list exactly the same (name, unit, amount) lines. */
  lemma VersionsAgreeOnSingleUnits(rows: seq<Item>)
    requires OneUnitPerName(rows)
    ensures forall it :: it in CartFold.CartTally(rows) <==> it in GroupedList.ShoppingGroups(rows)
  {
    forall it | it in CartFold.CartTally(rows)
      ensures it in GroupedList.ShoppingGroups(rows)
    {
      CartLineIsGroup(rows, it);
    }
    forall it | it in GroupedList.ShoppingGroups(rows)
      ensures it in CartFold.CartTally(rows)
    {
      GroupIsCartLine(rows, it);
    }
  }

  /** Two rows of one ingredient name in two units: 5 g of salt, then 1 kg of salt. */
  const MixedRows: seq<Item> := [Item("salt", "g", 5), Item("salt", "kg", 1)]

  /** Both rows are named salt, so the fold keeps one key, first seen at row 0. */
  lemma MixedNames()
    ensures CartFold.Names(MixedRows) == ["salt", "salt"]
    ensures FirstOccurrences(CartFold.Names(MixedRows)) == ["salt"]
    ensures FirstIndex(CartFold.Names(MixedRows), "salt") == 0
  {
    var names := CartFold.Names(MixedRows);
    assert names == ["salt", "salt"];
    assert names[..1] == ["salt"] && names[..1][..0] == [];
    assert FirstOccurrences(names[..1][..0]) == [];
    assert FirstOccurrences(names[..1]) == ["salt"];
  }

  /** Under the name alone the two amounts add up to 6. */
  lemma MixedTotal()
    ensures Total(MixedRows, NameKey, "salt") == 6
  {
    var rows := MixedRows;
    assert rows[..1] == [Item("salt", "g", 5)] && rows[..1][..0] == [];
  }

  /** The fold reports one line under the first unit, the two amounts added: "salt - 6 g". */
  lemma FoldMergesUnits()
    ensures CartFold.CartTally(MixedRows) == [Item("salt", "g", 6)]
  {
    MixedNames();
    MixedTotal();
  }

  /** The grouped query keeps one line per unit: "salt - 5 g" and "salt - 1 kg". */
  lemma GroupsKeepUnits()
    ensures Item("salt", "g", 5) in GroupedList.ShoppingGroups(MixedRows)
    ensures Item("salt", "kg", 1) in GroupedList.ShoppingGroups(MixedRows)
  {
    var rows := MixedRows;
    var keys := Keys(rows, PairKey);
    assert keys[0] == ("salt", "g") && keys[1] == ("salt", "kg");
    assert rows[..1] == [Item("salt", "g", 5)] && rows[..1][..0] == [];
    assert Total(rows, PairKey, ("salt", "g")) == 5;
    assert Total(rows, PairKey, ("salt", "kg")) == 1;
  }
}
