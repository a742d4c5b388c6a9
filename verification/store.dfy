/**
  The tables of the recipes and users applications and the constraints
  their models declare. A table whose rows are pairs under a uniqueness
  constraint (favourites, shopping cart, follows, recipe tags) is a set
  of pairs; the ingredient amounts keep their row order, because the
  hand-written shopping list depends on it.
 */
module Store {
  import opened Wrappers
  import Rows
  import Listing

  type UserId = nat
  type RecipeId = nat
  type IngredientId = nat
  type TagId = nat

  /** Largest value of a PositiveSmallIntegerField column. */
  const MaxSmallInt: nat := 32767

  /** Failures of the operations: a missing object (HTTP 404), a broken uniqueness constraint, a missing email. */
  datatype Error = NotFound | Duplicate | EmailRequired

  datatype User = User(
    username: string,
    firstName: string,
    lastName: string,
    email: string,
    isActive: bool,
    isSubscribed: bool)

  datatype Ingredient = Ingredient(name: string, unit: string)

  datatype Recipe = Recipe(name: string, text: string, author: UserId, cookingTime: nat)

  /** A row of IngredientInRecipe: how much of one ingredient one recipe needs. */
  datatype Amount = Amount(recipe: RecipeId, ingredient: IngredientId, amount: nat)

  datatype Db = Db(
    users: map<UserId, User>,
    ingredients: map<IngredientId, Ingredient>,
    tags: set<TagId>,
    recipes: map<RecipeId, Recipe>,
    amounts: seq<Amount>,
    recipeTags: set<(RecipeId, TagId)>,
    favorites: set<(UserId, RecipeId)>,
    cart: set<(UserId, RecipeId)>,
    follows: set<(UserId, UserId)>)

  /** Usernames are unique and emails are unique. */
  predicate UsersValid(db: Db) {
    forall u, v :: u in db.users && v in db.users && u != v ==>
      db.users[u].username != db.users[v].username && db.users[u].email != db.users[v].email
  }

  /**
    Every author exists, every cooking time lies in 1..32767, and recipe
    names are unique (which makes (name, author) pairs unique as well).
   */
  predicate RecipesValid(db: Db) {
    && (forall r :: r in db.recipes ==>
          db.recipes[r].author in db.users && 1 <= db.recipes[r].cookingTime <= MaxSmallInt)
    && (forall r, s :: r in db.recipes && s in db.recipes && r != s ==>
          db.recipes[r].name != db.recipes[s].name)
  }

  predicate AmountValid(db: Db, a: Amount) {
    a.recipe in db.recipes && a.ingredient in db.ingredients && 1 <= a.amount <= MaxSmallInt
  }

  /** At most one row per (recipe, ingredient). */
  predicate AmountsUnique(amounts: seq<Amount>) {
    forall i, j :: 0 <= i < j < |amounts| ==>
      (amounts[i].recipe, amounts[i].ingredient) != (amounts[j].recipe, amounts[j].ingredient)
  }

  predicate AmountsValid(db: Db) {
    && (forall i :: 0 <= i < |db.amounts| ==> AmountValid(db, db.amounts[i]))
    && AmountsUnique(db.amounts)
  }

  /** Every pair of every relation refers to existing rows. */
  predicate RelationsValid(db: Db) {
    && (forall p :: p in db.recipeTags ==> p.0 in db.recipes && p.1 in db.tags)
    && (forall p :: p in db.favorites ==> p.0 in db.users && p.1 in db.recipes)
    && (forall p :: p in db.cart ==> p.0 in db.users && p.1 in db.recipes)
    && (forall p :: p in db.follows ==> p.0 in db.users && p.1 in db.users)
  }

  predicate Valid(db: Db) {
    UsersValid(db) && RecipesValid(db) && AmountsValid(db) && RelationsValid(db)
  }

  /** Unique recipe names make (name, author) pairs unique. */
  lemma NameAuthorUnique(db: Db, r: RecipeId, s: RecipeId)
    requires RecipesValid(db)
    requires r in db.recipes && s in db.recipes && r != s
    ensures (db.recipes[r].name, db.recipes[r].author) != (db.recipes[s].name, db.recipes[s].author)
  {
  }

  /** The `.values()` projection of an amount row: ingredient name, measurement unit, amount. */
  function RowOf(db: Db, a: Amount): (it: Rows.Item)
    requires a.ingredient in db.ingredients
    ensures it.name == db.ingredients[a.ingredient].name
    ensures it.unit == db.ingredients[a.ingredient].unit
    ensures it.amount == a.amount
  {
    Rows.Item(db.ingredients[a.ingredient].name, db.ingredients[a.ingredient].unit, a.amount)
  }

  /** `IngredientInRecipe.__str__`: `{ingredient name} - {amount} {unit}`. */
  function Describe(db: Db, a: Amount): string
    requires a.ingredient in db.ingredients
  {
    Listing.Entry(RowOf(db, a))
  }

  /** The description of an amount row names its ingredient, amount and unit, and nothing else. */
  lemma DescribeReadsBack(db: Db, a: Amount)
    requires a.ingredient in db.ingredients
    requires Listing.SeparatorFree(db.ingredients[a.ingredient].name)
    ensures Listing.ParseEntry(Describe(db, a))
            == Some(Rows.Item(db.ingredients[a.ingredient].name, db.ingredients[a.ingredient].unit, a.amount))
  {
    Listing.ParseEntryOfEntry(RowOf(db, a));
  }

  /** The amount rows of every recipe outside `rs`, in their original order. */
  function WithoutRecipes(amounts: seq<Amount>, rs: set<RecipeId>): (out: seq<Amount>)
    ensures forall a :: a in out <==> a in amounts && a.recipe !in rs
    ensures AmountsUnique(amounts) ==> AmountsUnique(out)
    decreases |amounts|
  {
    if |amounts| == 0 then []
    else
      var rest := WithoutRecipes(amounts[1..], rs);
      assert forall a :: a in amounts <==> a == amounts[0] || a in amounts[1..];
      if amounts[0].recipe in rs then
        assert AmountsUnique(amounts) ==> AmountsUnique(amounts[1..]);
        rest
      else
        assert AmountsUnique(amounts) ==> AmountsUnique([amounts[0]] + rest) by {
          if AmountsUnique(amounts) {
            assert AmountsUnique(amounts[1..]);
            forall j | 0 <= j < |rest|
              ensures (amounts[0].recipe, amounts[0].ingredient) != (rest[j].recipe, rest[j].ingredient)
            {
              assert rest[j] in amounts[1..];
              var k :| 0 <= k < |amounts[1..]| && amounts[1..][k] == rest[j];
              assert amounts[k + 1] == rest[j];
            }
          }
        }
        [amounts[0]] + rest
  }

  /** No row of any table refers to recipe `r`. */
  predicate NoRecipeReference(db: Db, r: RecipeId) {
    && r !in db.recipes
    && (forall i :: 0 <= i < |db.amounts| ==> db.amounts[i].recipe != r)
    && (forall p :: p in db.recipeTags ==> p.0 != r)
    && (forall p :: p in db.favorites ==> p.1 != r)
    && (forall p :: p in db.cart ==> p.1 != r)
  }

  /**
    Deleting the recipes `rs`: every amount row, tag link, favourite and
    cart entry of those recipes goes with them (the CASCADE of each
    foreign key to a recipe).
   */
  function DeleteRecipes(db: Db, rs: set<RecipeId>): (db': Db)
    ensures forall s :: s in db'.recipes <==> s in db.recipes && s !in rs
    ensures forall s :: s in db'.recipes ==> db'.recipes[s] == db.recipes[s]
    ensures forall a :: a in db'.amounts <==> a in db.amounts && a.recipe !in rs
    ensures forall p :: p in db'.recipeTags <==> p in db.recipeTags && p.0 !in rs
    ensures forall p :: p in db'.favorites <==> p in db.favorites && p.1 !in rs
    ensures forall p :: p in db'.cart <==> p in db.cart && p.1 !in rs
    ensures db'.users == db.users && db'.follows == db.follows
    ensures db'.ingredients == db.ingredients && db'.tags == db.tags
  {
    db.(
      recipes := map s | s in db.recipes && s !in rs :: db.recipes[s],
      amounts := WithoutRecipes(db.amounts, rs),
      recipeTags := (set p | p in db.recipeTags && p.0 !in rs),
      favorites := (set p | p in db.favorites && p.1 !in rs),
      cart := (set p | p in db.cart && p.1 !in rs))
  }

  /** Deleting one recipe: it and every row that refers to it go; nothing else changes. */
  function DeleteRecipe(db: Db, r: RecipeId): (db': Db)
    ensures NoRecipeReference(db', r)
    ensures forall s :: s in db'.recipes <==> s in db.recipes && s != r
    ensures forall s :: s in db'.recipes ==> db'.recipes[s] == db.recipes[s]
    ensures forall a :: a in db'.amounts <==> a in db.amounts && a.recipe != r
    ensures forall p :: p in db'.recipeTags <==> p in db.recipeTags && p.0 != r
    ensures forall p :: p in db'.favorites <==> p in db.favorites && p.1 != r
    ensures forall p :: p in db'.cart <==> p in db.cart && p.1 != r
    ensures db'.users == db.users && db'.follows == db.follows
    ensures db'.ingredients == db.ingredients && db'.tags == db.tags
  {
    var db' := DeleteRecipes(db, {r});
    assert forall i :: 0 <= i < |db'.amounts| ==> db'.amounts[i] in db'.amounts;
    db'
  }

  predicate AuthoredBy(db: Db, r: RecipeId, u: UserId) {
    r in db.recipes && db.recipes[r].author == u
  }

  /** No follow pair mentions user `u`, on either side, and no other table refers to `u`. */
  predicate NoUserReference(db: Db, u: UserId) {
    && u !in db.users
    && (forall r :: r in db.recipes ==> db.recipes[r].author != u)
    && (forall p :: p in db.favorites ==> p.0 != u)
    && (forall p :: p in db.cart ==> p.0 != u)
    && (forall p :: p in db.follows ==> p.0 != u && p.1 != u)
  }

  /**
    Deleting a user: their recipes (with everything that cascades from a
    recipe), their favourites and cart entries, and every follow pair in
    which they are the follower or the author go with them.
   */
  function DeleteUser(db: Db, u: UserId): (db': Db)
    ensures NoUserReference(db', u)
    ensures forall v :: v in db'.users <==> v in db.users && v != u
    ensures forall v :: v in db'.users ==> db'.users[v] == db.users[v]
    ensures forall r :: r in db'.recipes <==> r in db.recipes && !AuthoredBy(db, r, u)
    ensures forall r :: r in db'.recipes ==> db'.recipes[r] == db.recipes[r]
    ensures forall a :: a in db'.amounts <==> a in db.amounts && !AuthoredBy(db, a.recipe, u)
    ensures forall p :: p in db'.recipeTags <==> p in db.recipeTags && !AuthoredBy(db, p.0, u)
    ensures forall p :: p in db'.favorites <==> p in db.favorites && p.0 != u && !AuthoredBy(db, p.1, u)
    ensures forall p :: p in db'.cart <==> p in db.cart && p.0 != u && !AuthoredBy(db, p.1, u)
    ensures forall p :: p in db'.follows <==> p in db.follows && p.0 != u && p.1 != u
    ensures db'.ingredients == db.ingredients && db'.tags == db.tags
  {
    RemoveUser(DeleteRecipes(db, set r | r in db.recipes && db.recipes[r].author == u), u)
  }

  /** The user's own rows once their recipes are gone: the user, their favourites, cart entries and follows. */
  function RemoveUser(db: Db, u: UserId): Db {
    db.(
      users := db.users - {u},
      favorites := (set p | p in db.favorites && p.0 != u),
      cart := (set p | p in db.cart && p.0 != u),
      follows := (set p | p in db.follows && p.0 != u && p.1 != u))
  }

  /** Cascading deletes of recipes keep every constraint. */
  lemma DeleteRecipesPreservesValid(db: Db, rs: set<RecipeId>)
    requires Valid(db)
    ensures Valid(DeleteRecipes(db, rs))
  {
    var db' := DeleteRecipes(db, rs);
    assert forall i :: 0 <= i < |db'.amounts| ==> db'.amounts[i] in db.amounts;
  }

  lemma DeleteRecipePreservesValid(db: Db, r: RecipeId)
    requires Valid(db)
    ensures Valid(DeleteRecipe(db, r))
  {
    DeleteRecipesPreservesValid(db, {r});
  }

  lemma DeleteUserPreservesValid(db: Db, u: UserId)
    requires Valid(db)
    ensures Valid(DeleteUser(db, u))
  {
    var d := DeleteRecipes(db, set r | r in db.recipes && db.recipes[r].author == u);
    DeleteRecipesPreservesValid(db, set r | r in db.recipes && db.recipes[r].author == u);
    RemoveUserPreservesValid(d, u);
  }

  lemma RemoveUserPreservesValid(db: Db, u: UserId)
    requires Valid(db)
    requires forall r :: r in db.recipes ==> db.recipes[r].author != u
    ensures Valid(RemoveUser(db, u))
  {
  }
}
