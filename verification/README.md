# Foodgram shopping lists, modelled in Dafny

Foodgram is a recipe site. A user keeps favourite recipes, puts recipes in
a shopping cart and follows authors. From the cart the site produces a
plain-text shopping list that adds up the ingredient amounts of every
recipe in it. The backend has two versions of this list:

- `download_shopping_cart` in the recipe view set folds the rows into a
  dictionary keyed by ingredient name alone. The first row seen for a name
  fixes its unit, and later rows with that name add to its amount. It
  writes one `{name} - {amount} {unit} \n` line per name, in the order the
  names first occur, with no header.
- `get_ingredients_for_shopping` groups the rows by the (name, measurement
  unit) pair, sums each group, orders the groups by name, and writes a
  header followed by one `- {name} - {value} {unit}\n` line per group.

Around the lists sits a small relation store: users, ingredients, tags,
recipes, the ingredient amounts of each recipe, and the favourites, cart
and follow relations. The model covers:

- the constraints the Django models declare and the cascades of their
  foreign keys;
- the view actions that add favourites, cart entries and follows, and
  delete favourites and follows;
- the account manager's `create_user` and the small `User` methods.

Modules, one per file:

| module | file | what it holds |
|---|---|---|
| `Wrappers` | wrappers.dfy | `Option` and `Result` |
| `Decimal` | decimal.dfy | decimal rendering of a natural number, as `str()` prints it, and its reader |
| `Collation` | collation.dfy | the string order the grouped query sorts by: a total order on code points |
| `Text` | text.dfy | searching a string for a character; splitting it into newline-terminated lines |
| `Rows` | rows.dfy | a query row `(name, unit, amount)`, grouping keys, per-key totals, first occurrences |
| `Listing` | listing.dfy | the line and document formats of both lists, with readers and round-trip lemmas |
| `Store` | store.dfy | the tables, their constraints (`Valid`) and the cascading deletes |
| `Accounts` | accounts.dfy | `create_user`, `has_perm`, `get_full_name`, `get_short_name` |
| `Actions` | actions.dfy | favourite, cart and subscribe actions of the views |
| `CartQuery` | cart_query.dfy | the rows both lists start from: amount rows of recipes in the user's cart, joined with their ingredient |
| `CartFold` | cart_fold.dfy | the dictionary fold of `download_shopping_cart` and its specification `CartTally` |
| `GroupedList` | grouped_list.dfy | grouping, summing and ordering of `get_ingredients_for_shopping` |
| `Versions` | versions.dfy | how the two lists relate |

How the model represents the system:

- A relation table under a uniqueness constraint on its two foreign keys is a
  `set` of pairs.
- The amount table is a `seq`, because the order of the query rows decides
  the unit and the line order of the hand-written list.
- A list's meaning is stated by reading it back: every document has a
  parser, and the lemmas prove that parsing a rendered list gives back
  exactly its items. This holds whenever no name contains the separator
  ` - ` or ends in ` -`, and no name or unit holds a newline. A plain dash,
  as in `агар-агар`, is fine. A name holding ` - ` makes the text
  ambiguous (`Listing.SeparatorInNameIsAmbiguous`).

## Model

| member | source | states |
|---|---|---|
| CartFold.CartTally | backend/api/views.py:125-138 | one item per distinct ingredient name, in the order the names first occur; its unit is the unit of the first row with that name; its amount is the sum of every row with that name; no rows give no items |
| CartFold.AddRow | backend/api/views.py:126-135 | one loop pass keeps the fold invariant: a new name is added with the row's unit and amount and appended to the key order; a known name keeps its unit and its amount grows by the row's amount |
| CartFold.Fold | backend/api/views.py:117-135 | after the loop, the dictionary's keys are exactly the names of the rows, in insertion order, each with its first unit and its total amount |
| CartFold.FoldedIsTally | backend/api/views.py:129-138 | the dictionary read in key order is the list `CartTally` describes |
| CartFold.FoldCart | backend/api/views.py:117-138 | the dictionary fold followed by the per-key line list yields exactly `CartTally` of the rows |
| CartFold.DownloadShoppingCart | backend/api/views.py:115-146 | the response body is the cart lines of `CartTally` of the user's cart rows, concatenated |
| CartFold.CartTallyConserves | backend/api/views.py:125-135 | the amounts on the list add up to the amounts of all rows: nothing is lost or counted twice |
| CartFold.CartTallyReadable | backend/api/views.py:126-133 | names and units on the list are taken from the rows, so rows a reader can take apart give a list a reader can take apart |
| CartFold.CartListReadsBack | backend/api/views.py:136-140 | when no name holds ` - ` or ends in ` -` and no name or unit holds a newline, reading the body back line by line yields the list, item by item, in order |
| CartFold.EmptyCartEmptyList | backend/api/views.py:117-138 | an empty cart gives an empty body |
| CartFold.CartAmountsFromStore | backend/api/views.py:118-135 | each amount on the user's hand-written list is the sum of the amounts of every amount row of a recipe in their cart with that ingredient name |
| CartFold.CartAmountsPositive | backend/recipes/models.py:88-95 | in a valid store every amount on the list is at least 1 |
| GroupedList.Groups | backend/api/services.py:11-15 | one item per distinct (name, unit) pair of the rows, no pair twice, each carrying the sum of its group's amounts |
| GroupedList.Insert | backend/api/services.py:16 | inserting into a name-ordered list keeps it ordered, and the result is the old items plus the new one, as a multiset |
| GroupedList.SortByName | backend/api/services.py:16 | the result is ordered by name and is a permutation of the input |
| GroupedList.SortKeepsDistinct | backend/api/services.py:11-16 | ordering keeps the (name, unit) pairs distinct |
| GroupedList.SortSum | backend/api/services.py:16 | ordering does not change the sum of the amounts |
| GroupedList.ShoppingGroups | backend/api/services.py:9-16 | the groups are ordered by name, no (name, unit) pair appears twice, and an item is listed exactly when its pair occurs among the rows and its value is that pair's total |
| GroupedList.GetIngredientsForShopping | backend/api/services.py:24 | the response always starts with the header line |
| GroupedList.ShoppingGroupsConserve | backend/api/services.py:14-15 | the group values add up to the amounts of all rows |
| GroupedList.ShoppingListReadsBack | backend/api/services.py:24-30 | when no name holds ` - ` or ends in ` -` and no name or unit holds a newline, reading the response back yields the header and then exactly the groups, one line each, in order |
| GroupedList.NoRowsHeaderOnly | backend/api/services.py:24-25 | a cart none of whose recipes contributes an ingredient row, including an empty cart, gives the header alone |
| GroupedList.ShoppingValuesFromStore | backend/api/services.py:9-15 | each value on the user's grouped list is the sum of the amounts of every amount row of a recipe in their cart with that (name, unit) pair |
| GroupedList.ShoppingValuesPositive | backend/api/services.py:14-15 | in a valid store every value on the list is at least 1 |
| CartQuery.Join | backend/api/services.py:9-13 | a row appears exactly when it is the (name, unit, amount) projection of an amount row whose recipe is in the user's cart and whose ingredient exists; there are no more rows than amount rows |
| CartQuery.Positions | backend/api/services.py:9-10 | the positions of the contributing amount rows: each contributing position once, ascending |
| CartQuery.JoinInTableOrder | backend/api/services.py:9-13 | the join keeps each contributing amount row once, in table order: its `i`-th row is the projection of the `i`-th contributing amount row |
| CartQuery.CartRowsInTableOrder | backend/api/views.py:118-124 | the user's rows are the projections of the contributing amount rows, once each, in table order |
| CartQuery.CartRows | backend/api/views.py:118-124 | the rows both lists start from: the join over the whole amount table for the user; pinned down by `CartRowsInTableOrder` |
| CartQuery.TotalOfJoin | backend/api/services.py:9-15 | every contributing amount row counts once toward its key: a key's total over the joined rows is the sum of the contributing amounts with that key over the amount table |
| CartQuery.CartRowsContents | backend/api/services.py:9-10 | a row appears exactly when some amount row of a recipe in the user's cart produces it |
| CartQuery.NoContributionNoRows | backend/api/services.py:9-10 | amount rows of which none belongs to the user's cart give no rows |
| CartQuery.CartRowsPositive | backend/recipes/models.py:88-92 | in a valid store every row's amount is at least 1 |
| CartQuery.JoinIsolated | backend/api/services.py:9-10 | other users' cart entries do not change a user's rows or their order |
| CartQuery.CartRowsIsolated | backend/api/services.py:9-10 | two stores that agree on the amounts, the ingredients and the user's own cart give the user the same rows |
| CartQuery.DeleteOtherRecipeKeepsRows | backend/recipes/models.py:74-80 | deleting a recipe that is not in the user's cart leaves the user's rows unchanged |
| Listing.ParseQuantityOfRendering | backend/api/services.py:28-29 | a rendered `{value} {unit}` reads back as that value and unit |
| Listing.RenderingOfParseQuantity | backend/api/services.py:28-29 | whatever reads as a quantity is exactly that quantity's rendering |
| Listing.ParseEntryOfEntry | backend/recipes/models.py:108-110 | an entry `{name} - {amount} {unit}` whose name neither holds ` - ` nor ends in ` -` reads back as its item; dashes elsewhere in the name are fine |
| Listing.EntryOfParseEntry | backend/recipes/models.py:108-110 | whatever reads as an entry is exactly that entry's rendering, and its name neither holds ` - ` nor ends in ` -` |
| Listing.SeparatorInNameIsAmbiguous | backend/recipes/models.py:108-110 | two different items, one with ` - ` in its name, render the same entry, so no reader recovers names holding ` - ` |
| Listing.HyphenatedNameReadsBack | backend/recipes/models.py:108-110 | a name with a plain dash, `agar-agar`, reads back |
| Listing.Entry | backend/recipes/models.py:108-110 | the text `{name} - {amount} {unit}`; what it says is stated by `ParseEntryOfEntry` and `EntryOfParseEntry` |
| Listing.CartLine | backend/api/views.py:136-137 | the line `{name} - {amount} {unit} \n` of the hand-written list; its meaning is stated by `CartLineReadsBack` |
| Listing.CartDocument | backend/api/views.py:136-140 | the hand-written body: its lines concatenated, with no header; its meaning is stated by `CartDocumentRoundTrip` |
| Listing.ShoppingLine | backend/api/services.py:26-30 | the line `- {name} - {value} {unit}\n` of the grouped list; its meaning is stated by `ShoppingLineReadsBack` |
| Listing.ShoppingBody | backend/api/services.py:25-30 | the grouped list's lines concatenated; its meaning is stated by `ShoppingBodyRoundTrip` |
| Listing.ShoppingDocument | backend/api/services.py:24-30 | the header `Список продуктов к покупке:\n` (`Listing.Header`) followed by the body; its meaning is stated by `ShoppingDocumentRoundTrip` |
| Listing.CartLineReadsBack | backend/api/views.py:136-137 | for an item whose name neither holds ` - ` nor ends in ` -`, and whose name and unit hold no newline, the line (entry and a space) holds no newline and reads back as its item |
| Listing.ShoppingLineReadsBack | backend/api/services.py:26-30 | for an item whose name neither holds ` - ` nor ends in ` -`, and whose name and unit hold no newline, the line (`- ` and the entry) holds no newline and reads back as its item |
| Listing.CartDocumentRoundTrip | backend/api/views.py:136-140 | when no name holds ` - ` or ends in ` -` and no name or unit holds a newline, the hand-written list reads back as exactly its items, one line each, in order |
| Listing.ShoppingBodyRoundTrip | backend/api/services.py:25-30 | under the same condition on names and units, the lines after the header read back as exactly the items, one line each, in order |
| Listing.ShoppingDocumentRoundTrip | backend/api/services.py:24-30 | under the same condition on names and units, the grouped list reads back as the header and exactly its items, in order |
| Decimal.NatToString | backend/api/services.py:28 | a rendered number is a canonical digit string, starting with `0` only for zero |
| Decimal.ValueOfNatToString | backend/api/services.py:28 | the digits of a rendered number denote that number |
| Decimal.NatToStringOfValue | backend/api/services.py:28 | every canonical digit string is the rendering of the number it denotes |
| Decimal.NatToStringInjective | backend/api/views.py:136 | two numbers with the same rendering are equal |
| Collation.LeReflexive | backend/api/services.py:16 | every name sorts at or before itself |
| Collation.LeTotal | backend/api/services.py:16 | any two names are comparable |
| Collation.LeTransitive | backend/api/services.py:16 | the order on names is transitive |
| Collation.LeAntisymmetric | backend/api/services.py:16 | two names that sort at or before each other are equal |
| Store.NameAuthorUnique | backend/recipes/models.py:58-64 | in a store with unique recipe names, (name, author) pairs are unique too |
| Store.DescribeReadsBack | backend/recipes/models.py:108-110 | when the ingredient name neither holds ` - ` nor ends in ` -`, the description of an amount row reads back as its ingredient's name and unit and its amount |
| Store.Describe | backend/recipes/models.py:108-110 | `IngredientInRecipe.__str__`: the entry of the row's ingredient name, amount and unit |
| Store.Valid | backend/recipes/models.py:11-194 | the declared constraints: unique usernames and emails (backend/users/models.py:37-59); existing authors, cooking times in 1..32767 and unique recipe names; amounts in 1..32767 with existing recipe and ingredient, at most one per (recipe, ingredient); every favourite, cart, follow and tag pair refers to existing rows |
| Store.WithoutRecipes | backend/recipes/models.py:74-80 | an amount row survives exactly when its recipe is not deleted, and uniqueness per (recipe, ingredient) is kept |
| Store.DeleteRecipes | backend/recipes/models.py:74-186 | deleting recipes removes exactly their amount rows, tag links, favourites and cart entries; users, follows, ingredients, tags and the other recipes are unchanged |
| Store.DeleteRecipe | backend/recipes/models.py:74-186 | after deleting one recipe no row refers to it, and everything not referring to it is unchanged |
| Store.DeleteUser | backend/users/models.py:104-117 | after deleting a user no row refers to them: their follows on both sides, their favourites and cart entries, their recipes and everything cascading from those go; nothing else does, and the remaining users and recipes keep their records |
| Store.DeleteRecipesPreservesValid | backend/recipes/models.py:74-194 | cascading recipe deletes keep every constraint of the store |
| Store.DeleteRecipePreservesValid | backend/recipes/models.py:74-194 | deleting one recipe keeps every constraint of the store |
| Store.DeleteUserPreservesValid | backend/users/models.py:104-125 | deleting a user keeps every constraint of the store |
| Store.RemoveUserPreservesValid | backend/users/models.py:104-125 | removing a user who authors no recipe, with their relation rows, keeps every constraint |
| Accounts.CreateUser | backend/users/models.py:20-33 | a falsy email is refused before anything is stored; a username or email already in use is refused; otherwise exactly one active, unsubscribed user with the given fields is added and nothing else changes |
| Accounts.CreateUserPreservesValid | backend/users/models.py:37-59 | a created user keeps usernames and emails unique and the rest of the store valid |
| Accounts.HasPerm | backend/users/models.py:79-80 | every user holds every permission on every object |
| Accounts.FullName | backend/users/models.py:89-90 | `get_full_name`: the first name; stated by `FullNameIsShortName` |
| Accounts.ShortName | backend/users/models.py:92-93 | `get_short_name`: the first name; stated by `FullNameIsShortName` |
| Accounts.FullNameIsShortName | backend/users/models.py:89-93 | full and short name are both the first name, whatever the last name |
| Actions.AddFavorite | backend/api/views.py:53-70 | a missing recipe gives 404, an existing favourite is refused, otherwise exactly that pair is added and nothing else changes |
| Actions.DeleteFavorite | backend/api/views.py:72-82 | a missing recipe or a missing favourite gives 404; otherwise exactly that pair is removed and nothing else changes |
| Actions.AddToCart | backend/api/views.py:84-101 | a missing recipe gives 404, an existing cart entry is refused, otherwise exactly that pair is added and nothing else changes |
| Actions.Subscribe | backend/api/views.py:182-195 | a missing author gives 404, an existing follow is refused, otherwise exactly that pair is added and nothing else changes |
| Actions.Unsubscribe | backend/api/views.py:182-200 | a missing author gives 404; otherwise every follow pair equal to (user, author) is removed, the others stay, and the call succeeds whether or not one existed |
| Actions.AddThenDeleteFavorite | backend/api/views.py:53-82 | adding a favourite and deleting it again restores the store |
| Actions.DeleteThenAddFavorite | backend/api/views.py:53-82 | deleting a favourite and adding it back restores the store; a second delete gives 404 |
| Actions.SubscribeThenUnsubscribe | backend/api/views.py:182-200 | subscribing and unsubscribing again restores the store |
| Actions.UnsubscribeIdempotent | backend/api/views.py:196-200 | unsubscribing twice is unsubscribing once; without a follow pair it changes nothing |
| Actions.AddFavoritePreservesValid | backend/recipes/models.py:142-164 | a new favourite of an existing user keeps the store valid |
| Actions.DeleteFavoritePreservesValid | backend/api/views.py:76-81 | deleting a favourite keeps the store valid |
| Actions.AddToCartPreservesValid | backend/recipes/models.py:172-194 | a new cart entry of an existing user keeps the store valid |
| Actions.SubscribePreservesValid | backend/users/models.py:103-125 | a new follow of an existing user keeps the store valid |
| Actions.UnsubscribePreservesValid | backend/api/views.py:196-199 | deleting follows keeps the store valid |
| Versions.NameTotalIsPairTotal | backend/api/views.py:129-135 | when every row with a name has one unit, the name's total equals the (name, unit) group's total |
| Versions.CartLineIsGroup | backend/api/views.py:129-135 | with one unit per name, every item of the hand-written list is an item of the grouped list |
| Versions.GroupIsCartLine | backend/api/services.py:11-15 | with one unit per name, every (name, unit) group of the rows, carrying its total, is an item of the hand-written list |
| Versions.VersionsAgreeOnSingleUnits | backend/api/services.py:11-16 | with one unit per name, both versions list exactly the same items, in different orders and formats |
| Versions.FoldMergesUnits | backend/api/views.py:129-135 | 5 g of salt followed by 1 kg of salt gives one item under the first unit: 6 g |
| Versions.GroupsKeepUnits | backend/api/services.py:11-15 | the same rows give two items in the grouped list: 5 g and 1 kg |

## Left out

- Query execution and database collation. The join of the amount rows with
  the cart and the ingredient is a filter over the amount table
  (`CartQuery`). The order of `order_by('ingredient__name')` is code-point
  order on strings (`Collation`). The database's collation cannot be seen
  from the code.
- Order of groups with the same name. The order of two groups with the same
  name and different units is not fixed by the query. The model keeps one
  order and states only that the list is ordered by name.
- The default ordering `-ingredient` of the amount table
  (backend/recipes/models.py:104), which the query of
  `download_shopping_cart` inherits. The model does not sort the rows by
  `-ingredient`: the amount table's sequence stands for the order the
  query returns. Rows of one ingredient id come in an order the database
  does not fix. Every property of `CartFold` holds for every row order.
- The lookup path at backend/api/views.py:119. It names `ShoppingList`,
  while the reverse name of the cart's recipe key is `recipe_shoppinglist`
  (backend/recipes/models.py:183). The model uses the intended filter,
  "recipe in the user's cart", and not the failing lookup.
- `delete_shopping_cart` (backend/api/views.py:103-113). It passes a
  serializer class to `get_object_or_404`, so it cannot remove a cart entry
  as written.
- Create paths through the REST serializers (backend/api/views.py:53-70,
  84-101, 184-195). The model keeps the 404 and the uniqueness refusal. The
  serializers' other validation and their response data are framework code.
- HTTP plumbing: response objects, content type, the attachment file name,
  routing, pagination and permission classes.
- The authenticated user. The model takes the acting user as a parameter.
  The lemmas that preserve validity require that user to exist.
- `normalize_email` and `set_password` (backend/users/models.py:24, 31).
  These are library code, so the model stores the email as given and no
  password.
- The `is_staff` method and `is_admin` property
  (backend/users/models.py:82-87). They read attributes that do not exist.
- `validate_username`, and the `max_length` limits of the character
  columns.
- Images, publication dates, the `-pub_date` ordering of recipes, and the
  string forms of the models other than `IngredientInRecipe.__str__`.
- Deleting an ingredient or a tag. No modelled operation does it. An amount
  row whose ingredient is missing drops out of the join.
- The CSV import commands, admin registrations and migrations.
- CartListReadsBack: stated for names that neither hold ` - ` nor end in ` -`, and names and units without a newline; other text is ambiguous (`Listing.SeparatorInNameIsAmbiguous`).
- ShoppingListReadsBack: stated under the same condition on names and units, for the same reason.
- CartLineReadsBack: stated under the same condition on the item's name and unit, for the same reason.
- ShoppingLineReadsBack: stated under the same condition on the item's name and unit, for the same reason.
- CartDocumentRoundTrip: stated under the same condition on every item, for the same reason.
- ShoppingBodyRoundTrip: stated under the same condition on every item, for the same reason.
- ShoppingDocumentRoundTrip: stated under the same condition on every item, for the same reason.
- DescribeReadsBack: stated for ingredient names that neither hold ` - ` nor end in ` -`, for the same reason.
- Integer widths. Amounts and cooking times are bounded by 32767 in `Valid`
  only. Sums are unbounded, like the integers Python and the database
  return.

## Findings

| source | as written | input that shows it | evidently intended | confidence | as-written member | corrected member |
|---|---|---|---|---|---|---|
| backend/api/views.py:129-135 | rows are grouped by ingredient name alone, so amounts in different units are added under the first row's unit | rows (salt, g, 5) then (salt, kg, 1) give one line `salt - 6 g` | one line per (name, unit) pair, `salt - 5 g` and `salt - 1 kg`, as the grouped query in backend/api/services.py:11-15 produces | medium, not executed | Versions.FoldMergesUnits | Versions.GroupsKeepUnits |

The corrected behaviour is `GroupedList.ShoppingGroups`, which
`GroupedList.GetIngredientsForShopping` uses. `Versions.VersionsAgreeOnSingleUnits`
proves that the two versions list the same items whenever no name has two
units.
