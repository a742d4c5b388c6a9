/**
  The view actions that add pairs to and remove pairs from the relation
  tables: favourites and cart entries of the recipe view set, follows of
  the user view set. Each relation is a set of pairs, so "nothing else
  changes" is stated pair by pair.
 */
module Actions {
  import opened Wrappers
  import opened Store

  /**
    `favorite` (the action's default method, GET): 404 for a missing
    recipe, then the new row, which the unique (user, recipe) constraint
    refuses when it already exists.
   */
  function AddFavorite(db: Db, user: UserId, recipe: RecipeId): (r: Result<Db, Error>)
    ensures recipe !in db.recipes ==> r == Failure(NotFound)
    ensures recipe in db.recipes && (user, recipe) in db.favorites ==> r == Failure(Duplicate)
    ensures r.Success? <==> recipe in db.recipes && (user, recipe) !in db.favorites
    ensures r.Success? ==> forall p :: p in r.value.favorites <==> p in db.favorites || p == (user, recipe)
    ensures r.Success? ==> r.value.(favorites := db.favorites) == db
  {
    if recipe !in db.recipes then Failure(NotFound)
    else if (user, recipe) in db.favorites then Failure(Duplicate)
    else Success(db.(favorites := db.favorites + {(user, recipe)}))
  }

  /**
    `delete_favorite`: 404 for a missing recipe and 404 for a missing
    favourite; otherwise exactly that one pair is removed.
   */
  function DeleteFavorite(db: Db, user: UserId, recipe: RecipeId): (r: Result<Db, Error>)
    ensures r.Failure? ==> r.error == NotFound
    ensures r.Failure? <==> recipe !in db.recipes || (user, recipe) !in db.favorites
    ensures r.Success? ==> forall p :: p in r.value.favorites <==> p in db.favorites && p != (user, recipe)
    ensures r.Success? ==> r.value.(favorites := db.favorites) == db
  {
    if recipe !in db.recipes then Failure(NotFound)
    else if (user, recipe) !in db.favorites then Failure(NotFound)
    else Success(db.(favorites := db.favorites - {(user, recipe)}))
  }

  /**
    `shopping_cart` (the action's default method, GET): 404 for a missing
    recipe, then the new cart entry, which the unique (user, recipe)
    constraint refuses when it already exists.
   */
  function AddToCart(db: Db, user: UserId, recipe: RecipeId): (r: Result<Db, Error>)
    ensures recipe !in db.recipes ==> r == Failure(NotFound)
    ensures recipe in db.recipes && (user, recipe) in db.cart ==> r == Failure(Duplicate)
    ensures r.Success? <==> recipe in db.recipes && (user, recipe) !in db.cart
    ensures r.Success? ==> forall p :: p in r.value.cart <==> p in db.cart || p == (user, recipe)
    ensures r.Success? ==> r.value.(cart := db.cart) == db
  {
    if recipe !in db.recipes then Failure(NotFound)
    else if (user, recipe) in db.cart then Failure(Duplicate)
    else Success(db.(cart := db.cart + {(user, recipe)}))
  }

  /**
    `subscribe` (POST): 404 for a missing author, then `Follow.objects.create`,
    which the unique (user, author) constraint refuses when the pair exists.
   */
  function Subscribe(db: Db, user: UserId, author: UserId): (r: Result<Db, Error>)
    ensures author !in db.users ==> r == Failure(NotFound)
    ensures author in db.users && (user, author) in db.follows ==> r == Failure(Duplicate)
    ensures r.Success? <==> author in db.users && (user, author) !in db.follows
    ensures r.Success? ==> forall p :: p in r.value.follows <==> p in db.follows || p == (user, author)
    ensures r.Success? ==> r.value.(follows := db.follows) == db
  {
    if author !in db.users then Failure(NotFound)
    else if (user, author) in db.follows then Failure(Duplicate)
    else Success(db.(follows := db.follows + {(user, author)}))
  }

  /**
    `subscribe` (DELETE): 404 for a missing author; otherwise every follow
    pair equal to (user, author) is deleted by filter, and the call
    succeeds whether or not there was one.
   */
  function Unsubscribe(db: Db, user: UserId, author: UserId): (r: Result<Db, Error>)
    ensures r.Failure? <==> author !in db.users
    ensures r.Failure? ==> r.error == NotFound
    ensures r.Success? ==> forall p :: p in r.value.follows <==> p in db.follows && p != (user, author)
    ensures r.Success? ==> r.value.(follows := db.follows) == db
  {
    if author !in db.users then Failure(NotFound)
    else Success(db.(follows := set p | p in db.follows && p != (user, author)))
  }

  /** Adding a favourite and deleting it again restores the store. */
  lemma AddThenDeleteFavorite(db: Db, user: UserId, recipe: RecipeId)
    requires AddFavorite(db, user, recipe).Success?
    ensures DeleteFavorite(AddFavorite(db, user, recipe).value, user, recipe) == Success(db)
  {
    var db' := DeleteFavorite(AddFavorite(db, user, recipe).value, user, recipe).value;
    assert db'.favorites == db.favorites;
  }

  /** Deleting a favourite and adding it again restores the store; deleting it twice fails the second time. */
  lemma DeleteThenAddFavorite(db: Db, user: UserId, recipe: RecipeId)
    requires DeleteFavorite(db, user, recipe).Success?
    ensures AddFavorite(DeleteFavorite(db, user, recipe).value, user, recipe) == Success(db)
    ensures DeleteFavorite(DeleteFavorite(db, user, recipe).value, user, recipe) == Failure(NotFound)
  {
    var db' := AddFavorite(DeleteFavorite(db, user, recipe).value, user, recipe).value;
    assert db'.favorites == db.favorites;
  }

  /** Subscribing and unsubscribing again restores the store. */
  lemma SubscribeThenUnsubscribe(db: Db, user: UserId, author: UserId)
    requires Subscribe(db, user, author).Success?
    ensures Unsubscribe(Subscribe(db, user, author).value, user, author) == Success(db)
  {
    var db' := Unsubscribe(Subscribe(db, user, author).value, user, author).value;
    assert db'.follows == db.follows;
  }

  /** Unsubscribing twice is unsubscribing once; without a follow pair it changes nothing. */
  lemma UnsubscribeIdempotent(db: Db, user: UserId, author: UserId)
    requires author in db.users
    ensures Unsubscribe(Unsubscribe(db, user, author).value, user, author) == Unsubscribe(db, user, author)
    ensures (user, author) !in db.follows ==> Unsubscribe(db, user, author) == Success(db)
  {
    var once := Unsubscribe(db, user, author).value;
    var twice := Unsubscribe(once, user, author).value;
    assert twice.follows == once.follows;
    if (user, author) !in db.follows {
      assert once.follows == db.follows;
    }
  }

  /** With an authenticated (existing) user, a new favourite keeps the store valid. */
  lemma AddFavoritePreservesValid(db: Db, user: UserId, recipe: RecipeId)
    requires Valid(db) && user in db.users
    requires AddFavorite(db, user, recipe).Success?
    ensures Valid(AddFavorite(db, user, recipe).value)
  {
  }

  lemma DeleteFavoritePreservesValid(db: Db, user: UserId, recipe: RecipeId)
    requires Valid(db)
    requires DeleteFavorite(db, user, recipe).Success?
    ensures Valid(DeleteFavorite(db, user, recipe).value)
  {
  }

  /** With an authenticated (existing) user, a new cart entry keeps the store valid. */
  lemma AddToCartPreservesValid(db: Db, user: UserId, recipe: RecipeId)
    requires Valid(db) && user in db.users
    requires AddToCart(db, user, recipe).Success?
    ensures Valid(AddToCart(db, user, recipe).value)
  {
  }

  /** With an authenticated (existing) user, a new follow keeps the store valid. */
  lemma SubscribePreservesValid(db: Db, user: UserId, author: UserId)
    requires Valid(db) && user in db.users
    requires Subscribe(db, user, author).Success?
    ensures Valid(Subscribe(db, user, author).value)
  {
  }

  lemma UnsubscribePreservesValid(db: Db, user: UserId, author: UserId)
    requires Valid(db)
    requires Unsubscribe(db, user, author).Success?
    ensures Valid(Unsubscribe(db, user, author).value)
  {
  }
}
