/**
  The ingredient query both shopping lists start from: the amount rows
  whose recipe is in the user's cart, joined with their ingredient and
  projected to (name, unit, amount). Row order is the order of the
  amount table; an amount row without its ingredient drops out of the
  inner join.
 */
module CartQuery {
  import opened Store
  import Rows

  /** An amount row contributes to `user`'s list: its recipe is in their cart and its ingredient exists. */
  predicate Contributes(db: Db, user: UserId, a: Amount) {
    (user, a.recipe) in db.cart && a.ingredient in db.ingredients
  }

  function Join(db: Db, user: UserId, amounts: seq<Amount>): (rows: seq<Rows.Item>)
    ensures |rows| <= |amounts|
    ensures forall it :: it in rows <==> exists a :: a in amounts && Contributes(db, user, a) && it == RowOf(db, a)
    decreases |amounts|
  {
    if |amounts| == 0 then []
    else
      var a := amounts[0];
      var rest := Join(db, user, amounts[1..]);
      assert forall b :: b in amounts <==> b == a || b in amounts[1..];
      if Contributes(db, user, a) then [RowOf(db, a)] + rest else rest
  }

  /** The rows of `user`'s shopping list. */
  function CartRows(db: Db, user: UserId): seq<Rows.Item> {
    Join(db, user, db.amounts)
  }

  /**
    The positions, from `from` on, of the contributing amount rows, in
    table order: exactly the positions whose row contributes, each once,
    ascending.
   */
  function Positions(db: Db, user: UserId, amounts: seq<Amount>, from: nat): (ps: seq<nat>)
    requires from <= |amounts|
    ensures forall i :: 0 <= i < |ps| ==> from <= ps[i] < |amounts| && Contributes(db, user, amounts[ps[i]])
    ensures forall i, j :: 0 <= i < j < |ps| ==> ps[i] < ps[j]
    ensures forall j :: from <= j < |amounts| && Contributes(db, user, amounts[j]) ==> j in ps
    decreases |amounts| - from
  {
    if from == |amounts| then []
    else
      var rest := Positions(db, user, amounts, from + 1);
      if Contributes(db, user, amounts[from]) then [from] + rest else rest
  }

  /**
    The join keeps every contributing amount row once, in table order: its
    `i`-th row is the projection of the `i`-th contributing amount row.
   */
  lemma {:induction false} JoinInTableOrder(db: Db, user: UserId, amounts: seq<Amount>, from: nat)
    requires from <= |amounts|
    ensures |Join(db, user, amounts[from..])| == |Positions(db, user, amounts, from)|
    ensures forall i :: 0 <= i < |Positions(db, user, amounts, from)| ==>
      Join(db, user, amounts[from..])[i] == RowOf(db, amounts[Positions(db, user, amounts, from)[i]])
    decreases |amounts| - from
  {
    if from < |amounts| {
      JoinInTableOrder(db, user, amounts, from + 1);
      assert amounts[from..][0] == amounts[from];
      assert amounts[from..][1..] == amounts[from + 1..];
    }
  }

  /** The rows of `user`'s list are the projections of the contributing amount rows, once each, in table order. */
  lemma CartRowsInTableOrder(db: Db, user: UserId)
    ensures |CartRows(db, user)| == |Positions(db, user, db.amounts, 0)|
    ensures forall i :: 0 <= i < |CartRows(db, user)| ==>
      CartRows(db, user)[i] == RowOf(db, db.amounts[Positions(db, user, db.amounts, 0)[i]])
  {
    JoinInTableOrder(db, user, db.amounts, 0);
    assert db.amounts[0..] == db.amounts;
  }

  /** Sum of the amounts of the contributing amount rows whose projected key is `k`. */
  function AmountTotal<K(==)>(db: Db, user: UserId, amounts: seq<Amount>, key: Rows.Item -> K, k: K): nat
    decreases |amounts|
  {
    if |amounts| == 0 then 0
    else
      var a := amounts[|amounts| - 1];
      AmountTotal(db, user, amounts[..|amounts| - 1], key, k)
        + (if Contributes(db, user, a) && key(RowOf(db, a)) == k then a.amount else 0)
  }

  /** The join of two stretches of the amount table is the join of each, one after the other. */
  lemma {:induction false} JoinAppend(db: Db, user: UserId, a: seq<Amount>, b: seq<Amount>)
    ensures Join(db, user, a + b) == Join(db, user, a) + Join(db, user, b)
    decreases |a|
  {
    if |a| == 0 {
      assert a + b == b;
    } else {
      assert (a + b)[1..] == a[1..] + b;
      JoinAppend(db, user, a[1..], b);
    }
  }

  /**
    Every contributing amount row counts once toward the total of its key:
    the total of a key over the joined rows is the sum over the amount table.
   */
  lemma {:induction false} TotalOfJoin<K>(db: Db, user: UserId, amounts: seq<Amount>, key: Rows.Item -> K, k: K)
    ensures Rows.Total(Join(db, user, amounts), key, k) == AmountTotal(db, user, amounts, key, k)
    decreases |amounts|
  {
    if |amounts| > 0 {
      var n := |amounts| - 1;
      var a := amounts[n];
      TotalOfJoin(db, user, amounts[..n], key, k);
      assert amounts == amounts[..n] + [a];
      JoinAppend(db, user, amounts[..n], [a]);
      var front := Join(db, user, amounts[..n]);
      assert Join(db, user, [a]) == (if Contributes(db, user, a) then [RowOf(db, a)] else []);
      if Contributes(db, user, a) {
        assert (front + [RowOf(db, a)])[..|front|] == front;
      } else {
        assert front + [] == front;
      }
    }
  }

  /** Every row comes from an amount row of a recipe in the user's cart, and every such row appears. */
  lemma CartRowsContents(db: Db, user: UserId, it: Rows.Item)
    ensures it in CartRows(db, user) <==>
      exists a :: a in db.amounts && (user, a.recipe) in db.cart && a.ingredient in db.ingredients && it == RowOf(db, a)
  {
  }

  /** No rows come from amount rows none of which contributes: in particular, none from an empty cart. */
  lemma {:induction false} NoContributionNoRows(db: Db, user: UserId, amounts: seq<Amount>)
    requires forall a :: a in amounts ==> !Contributes(db, user, a)
    ensures Join(db, user, amounts) == []
    decreases |amounts|
  {
    if |amounts| > 0 {
      NoContributionNoRows(db, user, amounts[1..]);
    }
  }

  /** In a valid store every contributing amount is at least 1. */
  lemma CartRowsPositive(db: Db, user: UserId)
    requires Valid(db)
    ensures Rows.AllPositive(CartRows(db, user))
  {
    var rows := CartRows(db, user);
    forall i | 0 <= i < |rows|
      ensures rows[i].amount >= 1
    {
      assert rows[i] in rows;
      var a :| a in db.amounts && Contributes(db, user, a) && rows[i] == RowOf(db, a);
      var k :| 0 <= k < |db.amounts| && db.amounts[k] == a;
      assert AmountValid(db, db.amounts[k]);
    }
  }

  /**
    Another user's cart does not matter: two stores that agree on the
    amount rows, the ingredients and `user`'s own cart entries give `user`
    the same rows, in the same order.
   */
  lemma {:induction false} JoinIsolated(db: Db, db': Db, user: UserId, amounts: seq<Amount>)
    requires db'.ingredients == db.ingredients
    requires forall r :: (user, r) in db.cart <==> (user, r) in db'.cart
    ensures Join(db, user, amounts) == Join(db', user, amounts)
    decreases |amounts|
  {
    if |amounts| > 0 {
      JoinIsolated(db, db', user, amounts[1..]);
    }
  }

  lemma CartRowsIsolated(db: Db, db': Db, user: UserId)
    requires db'.amounts == db.amounts && db'.ingredients == db.ingredients
    requires forall r :: (user, r) in db.cart <==> (user, r) in db'.cart
    ensures CartRows(db, user) == CartRows(db', user)
  {
    JoinIsolated(db, db', user, db.amounts);
  }

  /** Dropping amount rows of a recipe outside the user's cart does not change their rows. */
  lemma {:induction false} JoinWithoutOtherRecipe(db: Db, db': Db, user: UserId, amounts: seq<Amount>, r: RecipeId)
    requires (user, r) !in db.cart
    requires db'.ingredients == db.ingredients
    requires forall p :: p in db'.cart <==> p in db.cart && p.1 != r
    ensures Join(db', user, WithoutRecipes(amounts, {r})) == Join(db, user, amounts)
    decreases |amounts|
  {
    if |amounts| > 0 {
      JoinWithoutOtherRecipe(db, db', user, amounts[1..], r);
      if amounts[0].recipe != r {
        assert WithoutRecipes(amounts, {r}) == [amounts[0]] + WithoutRecipes(amounts[1..], {r});
        assert ([amounts[0]] + WithoutRecipes(amounts[1..], {r}))[1..] == WithoutRecipes(amounts[1..], {r});
      }
    }
  }

  /** Deleting a recipe that is not in `user`'s cart leaves `user`'s rows as they were. */
  lemma DeleteOtherRecipeKeepsRows(db: Db, user: UserId, r: RecipeId)
    requires (user, r) !in db.cart
    ensures CartRows(DeleteRecipe(db, r), user) == CartRows(db, user)
  {
    JoinWithoutOtherRecipe(db, DeleteRecipe(db, r), user, db.amounts, r);
  }
}
