# Foodgram recipe backend: a verified model

Foodgram is a recipe-sharing service. Its Django REST backend stores the following:

- users, who sign in with their e-mail address;
- tags and ingredients;
- recipes, each with an author, a cooking time, a tag set and an ingredient list with amounts;
- three relations between a user and a recipe or an author: the shopping cart, the favourites and the subscriptions.

This project models that backend as an in-memory store and proves properties about it. It covers:

- the schema and its constraints (`Models`);
- the user role properties (`Users`);
- the recipe serializer, with its field validation, `create`, partial `update`, the read-side flags and the `recipes_limit` truncation (`Serializers`);
- the object permission (`Permissions`);
- the ingredient name search and the recipe filter set (`Filters`);
- the views (`Views`):
  - the add/remove endpoints of the three pair relations;
  - recipe creation, partial update and deletion with its cascades;
  - the shopping-list aggregation;
  - the subscriptions list.

The database is a `Db` value that holds one sequence per table, in primary-key order. `Models.Store` is the object whose tables the write operations replace in place. `Models.Integrity` is the conjunction of the unique constraints, check constraints and foreign keys of the modelled tables. These include the unique `email` and `username` of the user table. Every endpoint method that takes a valid store (`CreateRecipe`, `UpdateRecipe`, `Add`, `Remove`, `RecipeCreate`, `RecipePartialUpdate`, `RecipeDestroy`) leaves it valid. The two table-writing helpers `Views.SetTable` and `Views.DeleteCascade` only state the new tables; their callers prove that integrity is kept. Each write method is also specified by a function over `Db` (`Created`, `Updated`, `DeleteRecipe`, `WithPair`, `WithoutPair`), and lemmas state what that function does to each table. Read-side endpoints are pure functions over `Db`.

HTTP outcomes are modelled as follows:

- **Pair endpoints.** An add or remove answers `Added` (201) or `Deleted` (204), or an `Error`. The errors are `NotAuthenticated` (answered 403 under session authentication), `NotFound` (404), `PermissionDenied` (403), `Invalid` with the set of failing fields (400), `Conflict` with the unique validator's message (400), or `ServerError` (500).
- **Anonymous requests to the pair endpoints.** These endpoints declare no permission class, and the settings leave the default (`AllowAny`). So an anonymous add fails validation on the null `user` field. An anonymous remove filters the pair table by an anonymous user, which raises an exception in the ORM; that is a server error.
- **Field validation.** It yields the set of fields that fail, as the serializer collects every field error before answering. The set covers the following:
  - a missing required field;
  - the range of a positive small-integer column (0 to 32767);
  - `validate_amount` and `validate_cooking_time` (value > 0);
  - an ingredient or tag key that does not exist;
  - an empty tag list.

## Model

| member | source | states |
|---|---|---|
| Users.FindByLogin | backend/users/models.py:5-9 | Looking up a login returns a stored user whose login identifier (the e-mail) is that login; `None` only when no user has that e-mail |
| Users.LoginFindsOwner | backend/users/models.py:6-9 | With e-mails unique, logging in with a user's e-mail finds exactly that user |
| Users.IsModerator | backend/users/models.py:18-20 | Defines `is_moderator` as the staff flag; `Permissions.UnsafeNeedsEditor` states its effect |
| Users.IsAdmin | backend/users/models.py:22-24 | Defines `is_admin` as the superuser flag; `Permissions.UnsafeNeedsEditor` states its effect |
| Users.LoginId | backend/users/models.py:6 | Defines the login identifier as the e-mail field; `Users.FindByLogin` and `Users.LoginFindsOwner` state its use |
| Users.UniqueEmails | backend/users/models.py:9 | Defines the unique constraint on `email`, a part of `Models.Integrity` |
| Users.UniqueUsernames | backend/users/models.py:5 | Defines the unique constraint `AbstractUser` puts on `username`, a part of `Models.Integrity` |
| Models.FindRecipe | backend/recipes/models.py:39-67 | The lookup by primary key returns the position of the recipe with that key, or `None` exactly when no stored recipe has it |
| Models.Integrity | backend/recipes/models.py:7-180 | Defines the schema's unique constraints, check constraints and foreign keys; every endpoint method keeps it |
| Models.Listing | backend/recipes/models.py:61 | Defines the default listing order; `Models.ListingNewestFirst` states it |
| Models.DeleteRecipe | backend/recipes/models.py:73-140 | Defines recipe deletion with its cascades; `Models.DeleteRecipeCascades` states what it does |
| Models.ListingNewestFirst | backend/recipes/models.py:61 | The listing holds exactly the stored recipes, ordered newest publication first |
| Models.DeleteRecipeCascades | backend/recipes/models.py:73-140 | Deleting a recipe removes it, its ingredient rows, its cart rows and its favourite rows, keeps every other row of those tables, leaves users, tags, ingredients, subscriptions and counters unchanged, and keeps every schema constraint |
| Models.DeletedKeepsIntegrity | backend/recipes/models.py:73-140 | The cascade leaves no dangling foreign key and breaks no unique or check constraint |
| Models.DeletedRecipesFit | backend/recipes/models.py:39-67 | Recipes that remain after a deletion still satisfy `cooking_time > 0` and their foreign keys |
| Models.DeletedRowsFit | backend/recipes/models.py:73-98 | Ingredient rows that remain after the cascade still point at existing recipes and keep `amount > 0` |
| Models.DeletedPairsFit | backend/recipes/models.py:106-180 | Cart, favourite and subscription rows that remain after the cascade point at existing users and recipes, and no subscription follows its own user |
| Models.PairsFitCarriesOver | backend/recipes/models.py:106-180 | The foreign keys and the `user != author` check of the pair tables survive any change that keeps the users and pair tables and does not remove recipes |
| Models.RowsFitCarriesOver | backend/recipes/models.py:73-98 | The foreign keys and the `amount > 0` check of the ingredient rows survive any change that keeps the rows and ingredients and does not remove recipes |
| Models.Store.constructor | backend/recipes/models.py:7-33 | A new store holds only the seeded users, tags and ingredients, and satisfies every schema constraint |
| Permissions.SafeMethodsAlwaysAllowed | backend/api/permissions.py:9 | Read methods are allowed on every recipe for every requester |
| Permissions.UnsafeNeedsEditor | backend/api/permissions.py:4-13 | An unsafe method on a recipe is allowed if and only if the requester is signed in and is its author, a moderator (`is_staff`) or an admin (`is_superuser`) |
| Permissions.EditorsOnly | backend/api/permissions.py:7-13 | PATCH and DELETE are refused to anonymous requesters and to signed-in users who are neither author, moderator nor admin, and granted to the other signed-in users |
| Permissions.WritesNeedLogin | backend/api/permissions.py:4 | The `IsAuthenticatedOrReadOnly` base refuses every unsafe method to anonymous requesters |
| Permissions.HasPermission | backend/api/permissions.py:4 | Defines `has_permission` of `IsAuthenticatedOrReadOnly`; `Permissions.WritesNeedLogin` states it |
| Permissions.HasObjectPermission | backend/api/permissions.py:7-13 | Defines `has_object_permission`; `Permissions.UnsafeNeedsEditor` states it |
| Permissions.MayAccess | backend/api/permissions.py:4-13 | Defines both checks in the order the framework runs them; `Permissions.SafeMethodsAlwaysAllowed`, `Permissions.UnsafeNeedsEditor` and `Permissions.EditorsOnly` state it |
| Serializers.AcceptedDataFitsSchema | backend/api/serializers.py:46-88 | Data that passes validation is complete when it must be, and has a positive small cooking time, existing tags, and existing ingredients with positive small amounts |
| Serializers.CookingTimeBoundary | backend/api/serializers.py:83-88 | A cooking time `<= 0` makes `cooking_time` fail, and a cooking time of 1 never does |
| Serializers.IngredientItemBoundary | backend/api/serializers.py:47-64 | An item with amount `<= 0` or with an unknown ingredient key makes `ingredients` fail, and a list of existing ingredients with amount 1 never does |
| Serializers.FieldErrors | backend/api/serializers.py:46-88 | Defines the set of failing fields; `Serializers.AcceptedDataFitsSchema` and the two boundary lemmas state it |
| Serializers.RowsFor | backend/api/serializers.py:116-124 | The loop builds one row per submitted item, in order, each pointing at the recipe with the item's ingredient and amount |
| Serializers.BuildRows | backend/api/serializers.py:116-124 | The imperative loop that appends one row per item produces exactly those rows |
| Serializers.RowsForHasKey | backend/api/serializers.py:116-124 | The built rows hold a key `(recipe, ingredient)` if and only if the ingredient was submitted |
| Serializers.FirstOccurrencesKeepsFirst | backend/api/serializers.py:125-127 | Dropping duplicates keeps only submitted items, at most one per ingredient, and keeps the first occurrence of each |
| Serializers.BulkCreatedHasKey | backend/api/serializers.py:125-127 | After `bulk_create(ignore_conflicts=True)` a key is stored if and only if it was stored before or is in the batch |
| Serializers.BulkCreatedKeepsKeysUnique | backend/api/serializers.py:125-127 | The conflict-ignoring bulk insert never stores a second row for a `(recipe, ingredient)` key and adds only rows of the batch |
| Serializers.BulkCreatedKeepsOtherRecipes | backend/api/serializers.py:125-127 | The bulk insert leaves the rows of every recipe outside the batch unchanged |
| Serializers.BulkCreatedFreshRecipe | backend/api/serializers.py:116-127 | For a recipe with no rows yet, the bulk insert stores one row per submitted ingredient, first occurrence kept, and raises no error for duplicates |
| Serializers.FirstOccurrences | backend/api/serializers.py:125-127 | Defines the submitted items that survive the conflict-ignoring insert; `Serializers.FirstOccurrencesKeepsFirst` states it |
| Serializers.BulkCreated | backend/api/serializers.py:125-127 | Defines `bulk_create(ignore_conflicts=True)`; the `BulkCreated*` lemmas state it |
| Serializers.Created | backend/api/serializers.py:107-129 | Defines the database after `create`; `Serializers.CreatedRecipe` and `Serializers.CreatedKeepsIntegrity` state it |
| Serializers.CreateRecipe | backend/api/serializers.py:107-129 | `create` takes the next key, replaces the store's state by `Created` and keeps every schema constraint |
| Serializers.NoRowsForNextKey | backend/recipes/models.py:73-77 | No ingredient row refers to the key the next recipe will get |
| Serializers.CreatedKeepsIntegrity | backend/api/serializers.py:107-129 | Creating a recipe from validated data by a stored user keeps every schema constraint |
| Serializers.CreatedRecipesFit | backend/api/serializers.py:107-114 | The new recipe satisfies its check and foreign keys, is published after every other recipe and adds exactly its key |
| Serializers.CreatedRowsFit | backend/api/serializers.py:116-127 | The new ingredient rows keep `amount > 0`, valid foreign keys and the `(recipe, ingredient)` unique constraint |
| Serializers.CreatedRecipe | backend/api/serializers.py:107-129 | After `create` the new recipe is appended under a fresh key, its author is the requester, its tags are exactly the submitted tags, its fields are the submitted values, its rows are the submitted items with per-ingredient duplicates dropped, other recipes' rows and all other tables are unchanged |
| Serializers.UpdateRecipe | backend/api/serializers.py:131-162 | `update` replaces the store's state by `Updated` and keeps every schema constraint |
| Serializers.Patched | backend/api/serializers.py:132-142 | Defines the recipe after its plain fields and tags are patched; `Serializers.UpdatedFields` states it |
| Serializers.Updated | backend/api/serializers.py:131-162 | Defines the database after `update`; `Serializers.UpdatedFields`, `Serializers.UpdatedReplacesIngredients` and `Serializers.UpdatedKeepsIntegrity` state it |
| Serializers.UpdatedKeepsIntegrity | backend/api/serializers.py:131-162 | A partial update with validated data keeps every schema constraint |
| Serializers.UpdatedRecipesFit | backend/api/serializers.py:131-142 | The updated recipe keeps its check and foreign keys, its key and its place in the publication order |
| Serializers.UpdatedRowsFit | backend/api/serializers.py:144-159 | Replacing a recipe's ingredient rows keeps `amount > 0`, valid foreign keys and the unique key |
| Serializers.ReplacedRowsFit | backend/api/serializers.py:146-159 | Deleting a recipe's rows and bulk-inserting validated items keeps the row constraints |
| Serializers.UpdatedFields | backend/api/serializers.py:131-162 | An empty payload changes nothing; a present field overwrites, an absent one keeps its value; tags change only when given and then equal the submitted set; rows change only when `ingredients` is given; every other recipe and table is unchanged |
| Serializers.UpdatedReplacesIngredients | backend/api/serializers.py:144-159 | With `ingredients` present, none of the old rows survives: the recipe's rows equal the submitted items with duplicates dropped, and other recipes' rows are unchanged |
| Serializers.Summaries | backend/api/serializers.py:165-169 | The short representation has one entry per recipe, in the same order, showing exactly the recipe's `id`, `name`, `image` and `cooking_time` |
| Serializers.RecipesLimitTruncates | backend/api/serializers.py:211-222 | `recipes_count` counts every stored recipe of the author; those recipes are listed newest first, and `recipes` shows them in that order, cut to the first n only when `recipes_limit` is a non-empty digit string n |
| Serializers.RecipesLimitExamples | backend/api/serializers.py:211-219 | "2" keeps two recipes and "0" none; "10", the empty string, "-1", "two" and an absent parameter keep all |
| Serializers.PairFlag | backend/api/serializers.py:90-100 | Defines a read-side flag as the requester's pair in one table, false for an anonymous requester; `Views.TogglesDriveFlags` states how it follows the toggles |
| Serializers.IsFavorited | backend/api/serializers.py:90-94 | Defines `is_favorited`; `Filters.FilteredMeaning` and `Views.TogglesDriveFlags` use it |
| Serializers.IsInShoppingCart | backend/api/serializers.py:96-100 | Defines `is_in_shopping_cart`; `Views.ShoppingListContents` and `Filters.FilteredMeaning` use it |
| Serializers.IsSubscribed | backend/api/serializers.py:23-27 | Defines `is_subscribed`; `Views.SubscriptionsShowFollowedAuthors` states it holds for every listed author |
| Serializers.AuthorRecipes | backend/api/serializers.py:212 | Defines the author's recipes; `Serializers.RecipesLimitTruncates` states them |
| Serializers.LimitRecipes | backend/api/serializers.py:213-217 | Defines the `recipes_limit` cut; `Serializers.RecipesLimitTruncates` and `Serializers.RecipesLimitExamples` state it |
| Serializers.SubscriptionRepr | backend/api/serializers.py:200-222 | Defines the representation of a followed author; `Serializers.RecipesLimitTruncates` states it |
| Serializers.PairValidation | backend/api/serializers.py:172-244 | Defines the verdict of the three toggle serializers; `Views.ToggleRefusals` and `Views.AddTwiceConflicts` state it |
| Filters.LowerString | backend/api/filters.py:7 | Lower-casing keeps the length, leaves no upper-case ASCII letter, turns each upper-case letter into its lower-case letter and keeps every other character |
| Filters.IStartsWith | backend/api/filters.py:7 | Defines the `istartswith` lookup; `Filters.IngredientSearchExample` shows it |
| Filters.IngredientsByName | backend/api/filters.py:6-11 | Defines the ingredient name filter; `Filters.IngredientSearchMatches` states it |
| Filters.IngredientSearchMatches | backend/api/filters.py:6-11 | The name filter keeps exactly the ingredients whose name starts with the query ignoring case, in key order, and an absent or empty query keeps all |
| Filters.LowerIdempotent | backend/api/filters.py:7 | Lower-casing twice is lower-casing once |
| Filters.IngredientSearchIgnoresCase | backend/api/filters.py:7 | Searching with a query or with its lower-case form gives the same ingredients |
| Filters.IngredientSearchExample | backend/api/filters.py:7 | "sug" matches "Sugar" and "SUGAR syrup" but not "Brown sugar" |
| Filters.FilterRecipes | backend/api/filters.py:25-38 | The loop over the query parameters computes the filter set's result |
| Filters.Declared | backend/api/filters.py:14-23 | Defines the declared author and tag filters; `Filters.DeclaredMeaning` states them |
| Filters.Narrowed | backend/api/filters.py:30-36 | Defines the favourite and cart narrowing; `Filters.NarrowedMeaning` states it |
| Filters.Filtered | backend/api/filters.py:25-38 | Defines the filter set's result; `Filters.FilteredMeaning` states it |
| Filters.RequestedStep | backend/api/filters.py:30-36 | A parameter is requested after one more step exactly when it was before, or the step is that parameter with value "1" |
| Filters.KeepIdsTwice | backend/api/filters.py:33-36 | Restricting twice is restricting once to both sets |
| Filters.NarrowFavorites | backend/api/filters.py:31-33 | Restricting again to the user's favourites is the same as requesting the favourites filter |
| Filters.NarrowCart | backend/api/filters.py:34-36 | Restricting again to the user's cart is the same as requesting the cart filter |
| Filters.DeclaredMeaning | backend/api/filters.py:14-23 | With a valid form, the declared filters keep, newest first, exactly the stored recipes of the given author that have at least one of the given tag slugs, each once |
| Filters.NarrowedMeaning | backend/api/filters.py:30-36 | The favourite and cart narrowing keep the order and keep exactly the recipes with the requester's pair in the requested tables |
| Filters.FilteredMeaning | backend/api/filters.py:14-38 | An unknown author or tag slug is a 400; otherwise the result is newest first and contains exactly the stored recipes that satisfy the author, tag, and (for a signed-in requester who asked with "1") favourite and cart filters |
| Filters.TagFilterExample | backend/api/filters.py:15-19 | Filtering by two tags returns a recipe carrying both once, and the recipe with one of them, newest first |
| Views.SetTable | backend/api/views.py:109 | Writing a pair table replaces that table and nothing else |
| Views.StatusCode | backend/api/views.py:100-128 | A successful add is answered 201, a successful remove 204, and every failure with a code of 400 or more |
| Views.AddOutcome | backend/api/views.py:100-116 | Defines how `create` answers; `Views.ToggleRefusals`, `Views.AddTwiceConflicts` and `Views.AddThenRemoveRestores` state it |
| Views.RemoveOutcome | backend/api/views.py:118-128 | Defines how `destroy` answers; `Views.ToggleRefusals` and `Views.RemoveTwiceNotFound` state it |
| Views.Add | backend/api/views.py:100-116 | The add endpoint answers as `AddOutcome` says; on success it inserts exactly the pair (requester, target), otherwise changes nothing; constraints are kept |
| Views.Remove | backend/api/views.py:118-128 | The remove endpoint answers as `RemoveOutcome` says; on success it deletes exactly the pair (requester, target), otherwise changes nothing; constraints are kept |
| Views.AddedKeepsIntegrity | backend/recipes/models.py:106-180 | An accepted add comes from a signed-in user and keeps the unique and `user != author` constraints and the foreign keys |
| Views.StoredPairFits | backend/recipes/models.py:106-180 | Every stored pair satisfies its table's foreign keys and checks |
| Views.TableReplaced | backend/recipes/models.py:106-180 | Replacing a pair table by distinct, fitting pairs keeps every schema constraint |
| Views.WithoutStoredPair | backend/api/views.py:125-126 | Deleting a pair that occurs once removes just that position |
| Views.DropOne | backend/api/views.py:125-126 | Removing one position removes one copy of that row from the table's multiset |
| Views.RemovedExactlyOne | backend/api/views.py:125-128 | Deleting a stored pair removes exactly that one row and keeps all other rows and every constraint |
| Views.TableShrinks | backend/recipes/models.py:106-180 | Keeping a subset of a pair table keeps every schema constraint |
| Views.WithoutKeepsIntegrity | backend/api/views.py:125-126 | Deleting any pair keeps every schema constraint |
| Views.AddThenRemoveRestores | backend/api/views.py:100-128 | After a successful add, a remove succeeds and restores the previous database |
| Views.AddTwiceConflicts | backend/api/serializers.py:172-236 | Adding the same pair twice fails with that relation's "already exists" message |
| Views.RemoveTwiceNotFound | backend/api/views.py:118-125 | Removing the same pair a second time fails with 404 |
| Views.ToggleRefusals | backend/api/views.py:100-128 | A missing target is a 404 for add and remove; an anonymous add fails on `user` and an anonymous remove is a server error; following yourself fails on `author`; removing a pair that is not stored is a 404 |
| Views.TogglesDriveFlags | backend/api/serializers.py:90-100 | After an add the requester's flag for that target is true, after a remove it is false, and every other flag is unchanged |
| Views.RecipeCreate | backend/api/views.py:61-67 | POST on recipes: anonymous is refused, invalid data answers 400 with the failing fields, otherwise the requester's recipe is created with the next key |
| Views.RecipePartialUpdate | backend/api/views.py:61-67 | PATCH on a recipe: anonymous is refused, an unknown key is a 404, a requester who is not author, moderator or admin gets 403, invalid data a 400, and otherwise the recipe is updated; failures change nothing |
| Views.DeleteCascade | backend/recipes/models.py:73-140 | Deleting a recipe replaces the tables by the cascade `DeleteRecipe` |
| Views.RecipeDestroy | backend/api/views.py:61-67 | DELETE on a recipe: anonymous is refused, an unknown key is a 404, a requester who is not author, moderator or admin gets 403, otherwise the cascade runs; failures change nothing |
| Views.Total | backend/api/views.py:74-78 | Defines `Sum('recipes_set__amount')` of one ingredient; the `Total*` lemmas state it |
| Views.Lines | backend/api/views.py:74-78 | Defines the annotated ingredient query; `Views.LinesMeaning` and `Views.LinesAddUp` state it |
| Views.CartRecipes | backend/api/views.py:73 | Defines the cart's recipes; `Views.CartRecipesMeaning` states it |
| Views.DownloadShoppingCart | backend/api/views.py:69-89 | Defines the shopping-list endpoint; `Views.ShoppingListContents` and `Views.EmptyCartEmptyList` state it |
| Views.TotalUnused | backend/api/views.py:74-78 | An ingredient used by no cart recipe totals zero |
| Views.TotalPositive | backend/api/views.py:74-78 | An ingredient used by a cart recipe totals more than zero |
| Views.TotalNonNegative | backend/api/views.py:74-78 | Totals are never negative |
| Views.TotalSplits | backend/api/views.py:74-78 | The total over two disjoint sets of recipes is the sum of the two totals |
| Views.TotalOfRow | backend/api/views.py:74-78 | The total over one recipe is that recipe's amount of the ingredient |
| Views.TotalIsSumPerRecipe | backend/api/views.py:74-78 | The total over the cart's recipes is the sum, recipe by recipe, of each recipe's amount of the ingredient |
| Views.LinesMeaning | backend/api/views.py:74-78 | The shopping lines hold exactly the used ingredients, grouped by ingredient key, each once, in key order, with their totals |
| Views.CartRecipesMeaning | backend/api/views.py:73 | The cart's recipes are exactly the stored recipes in the user's cart, newest first |
| Views.ShoppingListContents | backend/api/views.py:69-89 | The downloaded list holds exactly the cart's recipes and, for each ingredient that one of them uses and for no other, one line whose total is the positive sum of its amounts over those recipes |
| Views.LinesAddUp | backend/api/views.py:74-78 | Each shopping line's total is the sum of the ingredient's amount over the distinct cart recipes, and is positive |
| Views.DistinctRecipeKeys | backend/recipes/models.py:61 | Recipes listed newest first have distinct keys |
| Views.IngredientAddsUp | backend/api/views.py:74-78 | For one used ingredient, the aggregate equals the per-recipe sum and is positive |
| Views.EmptyCartEmptyList | backend/api/views.py:73-78 | An empty cart gives an empty list, not an error |
| Views.ShoppingListExample | backend/api/views.py:73-78 | Two recipes that use X (3 and 5) and Y (2) give the lines X 8 and Y 2 |
| Views.FollowedAuthors | backend/api/views.py:38 | Defines the followed authors; `Views.FollowedAuthorsMeaning` states it |
| Views.Subscriptions | backend/api/views.py:35-43 | Defines the subscriptions endpoint; `Views.SubscriptionsShowFollowedAuthors` states it |
| Views.SubscriptionsShowFollowedAuthors | backend/api/views.py:35-43 | The subscriptions endpoint lists exactly the authors the requester follows, in key order, never the requester, each with `is_subscribed` true |
| Views.FollowedAuthorsMeaning | backend/api/views.py:38 | `followers__user=request.user` selects exactly the users followed by the requester, in key order |

## Left out

- PDF and template rendering of the shopping list (`render_to_string`, `pdfkit.from_string`). The model returns the recipes and ingredient lines the template is given.
- Images are opaque strings. Base64 decoding and file storage are not modelled.
- Registration, passwords, tokens and the `me` endpoint belong to the authentication library and are not modelled. A requester is either anonymous or a stored user.
- Routing and pagination are not modelled. The subscriptions list and the recipe filter return whole sequences, not pages. `Views.Subscriptions` stands for the `get_paginated_response` abstraction. With the settings as shipped, where the `REST_FRAMEWORK` block is commented out, no paginator is configured; the source endpoint then does not page at all and fails in `get_paginated_response`. That failure is not modelled.
- Transactions, and races between concurrent duplicate adds, rely on database isolation. Every operation is modelled as atomic.
- Database indexes and query planning do not affect results and are not modelled.
- `pub_date` is a counter that grows with each created recipe. Wall-clock time is not modelled.
- `recipes_limit` recognises ASCII digits only. Other Unicode digits accepted by Python's `isdigit` are not modelled.
- Case-insensitive matching folds ASCII letters only. Other Unicode case folding is not modelled.
- Query values that are not integers are not modelled: a recipe filter's `author` is an integer or absent, and a path `pk` is an integer.
- Max-length and blank checks on strings, and the exact text of field error messages, are not modelled. Validation yields the set of failing field names.
- The tag and ingredient list and retrieve endpoints are plain reads of their tables and are not modelled. `Filters.IngredientsByName` covers the name filter of the ingredient list.
- The `to_representation` of a recipe is not modelled, beyond the flags, the short summary and the subscription representation.
- User deletion and its cascades are not modelled: no operation in the modelled views deletes users.
- The settings module, the CSV import command and the admin classes are not modelled.
- Serializers.UpdateRecipe, Serializers.FieldErrors and Views.RecipePartialUpdate do not model a PATCH whose ingredient item lacks `id` or `amount`. Under a partial update the framework skips missing fields of nested items, so such an item passes validation. `update` then deletes the recipe's rows (backend/api/serializers.py:146) before it fails on the missing key or on the NOT NULL `amount` (lines 149-159). The client gets a server error, and without atomic requests the old rows stay deleted. In the model a submitted item always carries both fields, so this input cannot be expressed.
- Django's own user fields beyond those listed in `Users.User` (password, groups, permissions, dates) and the token table are not modelled.
- Write operations replace whole tables of the store. Django's row-level writes and model-instance identity are not modelled.
