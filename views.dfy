/** The endpoints: the toggle view sets (shopping cart, favourites, subscriptions),
    the writes of the recipe view set, its shopping-list download and the listing
    of followed authors. */
module Views {
  import opened Results
  import opened Users
  import opened Models
  import opened Serializers
  import opened Permissions
  import Seqs

  // ---------------------------------------------------------------------------
  // Relation toggles: `BaseViewSet.create` and `BaseViewSet.destroy`

  /** What a toggle request ends in: the pair was added (201), removed (204), or
      the request failed. */
  datatype Outcome = Added | Deleted | Failed(error: Error)

  /** The status code the framework answers with. With the default authentication
      classes (session first) a missing login is answered with 403. */
  function StatusCode(o: Outcome): (code: int)
    ensures o == Added <==> code == 201
    ensures o == Deleted <==> code == 204
    ensures o.Failed? <==> 400 <= code
  {
    match o
    case Added => 201
    case Deleted => 204
    case Failed(e) =>
      match e
      case NotAuthenticated => 403
      case PermissionDenied => 403
      case NotFound => 404
      case Invalid(_) => 400
      case Conflict(_) => 400
      case ServerError => 500
  }

  /** `get_object_or_404(self.related_class, pk=pk)`: a recipe for the cart and the
      favourites, a user for subscriptions. */
  predicate TargetExists(db: Db, rel: Relation, pk: int) {
    if rel == Subscription then pk in UserIds(db) else pk in RecipeIds(db)
  }

  /** A logged-in requester is a stored user. */
  predicate KnownRequester(db: Db, requester: Requester) {
    requester.Authenticated? ==> requester.user in db.users
  }

  /** The database with `p` appended to a pair table. */
  function WithPair(db: Db, rel: Relation, p: Pair): Db {
    WithTable(db, rel, Table(db, rel) + [p])
  }

  function Other(p: Pair): Pair -> bool {
    (q: Pair) => q != p
  }

  function Without(t: seq<Pair>, p: Pair): seq<Pair> {
    Seqs.Filter(t, Other(p))
  }

  /** The database with `p` deleted from a pair table. */
  function WithoutPair(db: Db, rel: Relation, p: Pair): Db {
    WithTable(db, rel, Without(Table(db, rel), p))
  }

  /** How `create` answers: 404 for a missing target, then the serializer's verdict. */
  function AddOutcome(db: Db, rel: Relation, requester: Requester, pk: int): Outcome {
    if !TargetExists(db, rel, pk) then Failed(NotFound)
    else
      match PairValidation(db, rel, requester, pk)
      case Some(e) => Failed(e)
      case None => Added
  }

  /** How `destroy` answers: 404 for a missing target; an anonymous requester makes
      the lookup of the pair fail inside the ORM; 404 for a missing pair. */
  function RemoveOutcome(db: Db, rel: Relation, requester: Requester, pk: int): Outcome {
    if !TargetExists(db, rel, pk) then Failed(NotFound)
    else if requester.Anonymous? then Failed(ServerError)
    else if Pair(requester.user.id, pk) !in Table(db, rel) then Failed(NotFound)
    else Deleted
  }

  method SetTable(store: Store, rel: Relation, t: seq<Pair>)
    modifies store
    ensures store.State() == WithTable(old(store.State()), rel, t)
  {
    match rel
    case ShoppingCart => store.carts := t;
    case Favorite => store.favorites := t;
    case Subscription => store.subscriptions := t;
  }

  /** POST on a toggle route: adds exactly the pair `(requester, pk)` or changes
      nothing. */
  method Add(store: Store, rel: Relation, requester: Requester, pk: int) returns (outcome: Outcome)
    requires store.Valid()
    requires KnownRequester(store.State(), requester)
    modifies store
    ensures outcome == AddOutcome(old(store.State()), rel, requester, pk)
    ensures outcome == Added ==>
      requester.Authenticated? && store.State() == WithPair(old(store.State()), rel, Pair(requester.user.id, pk))
    ensures outcome != Added ==> store.State() == old(store.State())
    ensures store.Valid()
  {
    if !TargetExists(store.State(), rel, pk) {
      return Failed(NotFound);
    }
    var invalid := PairValidation(store.State(), rel, requester, pk);
    if invalid.Some? {
      return Failed(invalid.value);
    }
    AddedKeepsIntegrity(store.State(), rel, requester, pk);
    // perform_create
    SetTable(store, rel, Table(store.State(), rel) + [Pair(requester.user.id, pk)]);
    outcome := Added;
  }

  /** DELETE on a toggle route: deletes the pair `(requester, pk)` or changes
      nothing. */
  method Remove(store: Store, rel: Relation, requester: Requester, pk: int) returns (outcome: Outcome)
    requires store.Valid()
    modifies store
    ensures outcome == RemoveOutcome(old(store.State()), rel, requester, pk)
    ensures outcome == Deleted ==>
      requester.Authenticated? && store.State() == WithoutPair(old(store.State()), rel, Pair(requester.user.id, pk))
    ensures outcome != Deleted ==> store.State() == old(store.State())
    ensures store.Valid()
  {
    if !TargetExists(store.State(), rel, pk) {
      return Failed(NotFound);
    }
    if requester.Anonymous? {
      return Failed(ServerError);
    }
    var p := Pair(requester.user.id, pk);
    if p !in Table(store.State(), rel) {
      return Failed(NotFound);
    }
    RemovedExactlyOne(store.State(), rel, p);
    // perform_destroy
    SetTable(store, rel, Without(Table(store.State(), rel), p));
    outcome := Deleted;
  }

  /** A successful add keeps every constraint of the schema: the new pair is not
      yet stored, its user and target exist, and it is not a self-subscription. */
  lemma AddedKeepsIntegrity(db: Db, rel: Relation, requester: Requester, pk: int)
    requires Integrity(db)
    requires KnownRequester(db, requester)
    requires AddOutcome(db, rel, requester, pk) == Added
    ensures requester.Authenticated?
    ensures Integrity(WithPair(db, rel, Pair(requester.user.id, pk)))
  {
    var p := Pair(requester.user.id, pk);
    var t := Table(db, rel);
    assert p.user in UserIds(db);
    assert PairFits(db, rel, p);
    forall k | 0 <= k < |t| ensures DistinctPairs(t[k], p) {
      assert t[k] in t;
    }
    Seqs.PairwiseAppend(t, p, DistinctPairs);
    forall k | 0 <= k < |t + [p]| ensures PairFits(db, rel, (t + [p])[k]) {
      if k < |t| {
        StoredPairFits(db, rel, k);
      }
    }
    TableReplaced(db, rel, t + [p]);
  }

  /** The constraint a row of the pair table `rel` must meet. */
  ghost predicate PairFits(db: Db, rel: Relation, p: Pair) {
    if rel == Subscription then SubscriptionFits(db, p) else RecipePairFits(db, p)
  }

  lemma StoredPairFits(db: Db, rel: Relation, k: int)
    requires PairsFit(db)
    requires 0 <= k < |Table(db, rel)|
    ensures PairFits(db, rel, Table(db, rel)[k])
  {
  }

  /** Replacing a pair table by distinct rows that each fit keeps every constraint of
      the schema. */
  lemma TableReplaced(db: Db, rel: Relation, t': seq<Pair>)
    requires Integrity(db)
    requires Seqs.Pairwise(t', DistinctPairs)
    requires forall k :: 0 <= k < |t'| ==> PairFits(db, rel, t'[k])
    ensures Integrity(WithTable(db, rel, t'))
  {
    var db' := WithTable(db, rel, t');
    assert UserIds(db') == UserIds(db) && RecipeIds(db') == RecipeIds(db);
    forall k | 0 <= k < |t'| ensures PairFits(db', rel, t'[k]) {
      assert PairFits(db, rel, t'[k]);
    }
  }

  /** Deleting the pair at position `i` of a table that holds it only there removes
      exactly that row and keeps the others in order. */
  lemma WithoutStoredPair(t: seq<Pair>, i: int)
    requires 0 <= i < |t|
    requires forall k :: 0 <= k < |t| && k != i ==> t[k] != t[i]
    ensures Without(t, t[i]) == t[..i] + t[i + 1..]
  {
    Seqs.FilterDropsOne(t, i, Other(t[i]));
  }

  lemma DropOne(t: seq<Pair>, i: int)
    requires 0 <= i < |t|
    ensures multiset(t[..i] + t[i + 1..]) == multiset(t) - multiset{t[i]}
  {
    assert t == t[..i] + [t[i]] + t[i + 1..];
  }

  /** Deleting a stored pair removes exactly one row of its table and keeps every
      constraint of the schema. */
  lemma RemovedExactlyOne(db: Db, rel: Relation, p: Pair)
    requires Integrity(db)
    requires p in Table(db, rel)
    ensures multiset(Table(WithoutPair(db, rel, p), rel)) == multiset(Table(db, rel)) - multiset{p}
    ensures |Table(WithoutPair(db, rel, p), rel)| == |Table(db, rel)| - 1
    ensures Integrity(WithoutPair(db, rel, p))
  {
    var t := Table(db, rel);
    var i :| 0 <= i < |t| && t[i] == p;
    assert Table(WithoutPair(db, rel, p), rel) == Without(t, p);
    forall k | 0 <= k < |t| && k != i ensures t[k] != t[i] {
      if k < i { assert DistinctPairs(t[k], t[i]); } else { assert DistinctPairs(t[i], t[k]); }
    }
    WithoutStoredPair(t, i);
    DropOne(t, i);
    WithoutKeepsIntegrity(db, rel, p);
  }

  /** Keeping some of the rows of a pair table, still distinct, keeps every
      constraint of the schema. */
  lemma TableShrinks(db: Db, rel: Relation, t': seq<Pair>)
    requires Integrity(db)
    requires Seqs.Pairwise(t', DistinctPairs)
    requires forall k :: 0 <= k < |t'| ==> t'[k] in Table(db, rel)
    ensures Integrity(WithTable(db, rel, t'))
  {
    var t := Table(db, rel);
    forall k | 0 <= k < |t'| ensures PairFits(db, rel, t'[k]) {
      var j :| 0 <= j < |t| && t[j] == t'[k];
      StoredPairFits(db, rel, j);
    }
    TableReplaced(db, rel, t');
  }

  /** Deleting any pair from a pair table keeps every constraint of the schema. */
  lemma WithoutKeepsIntegrity(db: Db, rel: Relation, p: Pair)
    requires Integrity(db)
    ensures Integrity(WithoutPair(db, rel, p))
  {
    var t := Table(db, rel);
    Seqs.FilterPairwise(t, Other(p), DistinctPairs);
    Seqs.FilterMembers(t, Other(p));
    TableShrinks(db, rel, Without(t, p));
  }

  /** Adding and then removing the same pair gives back the database as it was. */
  lemma AddThenRemoveRestores(db: Db, rel: Relation, requester: Requester, pk: int)
    requires AddOutcome(db, rel, requester, pk) == Added
    ensures requester.Authenticated?
    ensures var db' := WithPair(db, rel, Pair(requester.user.id, pk));
      && RemoveOutcome(db', rel, requester, pk) == Deleted
      && WithoutPair(db', rel, Pair(requester.user.id, pk)) == db
  {
    var p := Pair(requester.user.id, pk);
    var t := Table(db, rel);
    var keep := Other(p);
    var db' := WithPair(db, rel, p);
    assert UserIds(db') == UserIds(db) && RecipeIds(db') == RecipeIds(db);
    assert Table(db', rel) == t + [p];
    Seqs.FilterConcat(t, [p], keep);
    assert Seqs.Filter([p], keep) == [];
    forall k | 0 <= k < |t| ensures keep(t[k]) {
      assert t[k] in t;
    }
    Seqs.FilterAll(t, keep);
    assert Without(t + [p], p) == t;
  }

  /** Adding a pair that is already stored is refused with the relation's
      "already exists" message (and, by `Add`, changes nothing). */
  lemma AddTwiceConflicts(db: Db, rel: Relation, requester: Requester, pk: int)
    requires AddOutcome(db, rel, requester, pk) == Added
    ensures AddOutcome(WithPair(db, rel, Pair(requester.user.id, pk)), rel, requester, pk)
            == Failed(Conflict(ExistsMessage(rel)))
  {
    var db' := WithPair(db, rel, Pair(requester.user.id, pk));
    assert UserIds(db') == UserIds(db) && RecipeIds(db') == RecipeIds(db);
    assert Table(db', rel)[|Table(db, rel)|] == Pair(requester.user.id, pk);
  }

  /** Removing a pair a second time is answered with 404 (and, by `Remove`, changes
      nothing). */
  lemma RemoveTwiceNotFound(db: Db, rel: Relation, requester: Requester, pk: int)
    requires RemoveOutcome(db, rel, requester, pk) == Deleted
    ensures RemoveOutcome(WithoutPair(db, rel, Pair(requester.user.id, pk)), rel, requester, pk)
            == Failed(NotFound)
  {
    var db' := WithoutPair(db, rel, Pair(requester.user.id, pk));
    Seqs.FilterMembers(Table(db, rel), Other(Pair(requester.user.id, pk)));
    assert UserIds(db') == UserIds(db) && RecipeIds(db') == RecipeIds(db);
  }

  /** The refusals of a toggle: a missing target is 404 either way; an anonymous
      add fails on the null `user` field and an anonymous remove fails in the ORM;
      following oneself fails on the `author` field; removing a pair never added is
      404. */
  lemma ToggleRefusals(db: Db, rel: Relation, requester: Requester, pk: int)
    ensures !TargetExists(db, rel, pk) ==>
      AddOutcome(db, rel, requester, pk) == Failed(NotFound) &&
      RemoveOutcome(db, rel, requester, pk) == Failed(NotFound)
    ensures TargetExists(db, rel, pk) && requester.Anonymous? ==>
      AddOutcome(db, rel, requester, pk) == Failed(Invalid({"user"})) &&
      RemoveOutcome(db, rel, requester, pk) == Failed(ServerError)
    ensures TargetExists(db, rel, pk) && requester.Authenticated? && rel == Subscription
            && requester.user.id == pk ==>
      AddOutcome(db, rel, requester, pk) == Failed(Invalid({"author"}))
    ensures TargetExists(db, rel, pk) && requester.Authenticated?
            && Pair(requester.user.id, pk) !in Table(db, rel) ==>
      RemoveOutcome(db, rel, requester, pk) == Failed(NotFound)
  {
  }

  /** After an add the requester's flag for the target is set, after a remove it is
      cleared, and no other flag of any user changes. */
  lemma TogglesDriveFlags(db: Db, rel: Relation, requester: Requester, pk: int,
                          rel': Relation, other: Requester, pk': int)
    requires requester.Authenticated?
    ensures PairFlag(WithPair(db, rel, Pair(requester.user.id, pk)), rel, requester, pk)
    ensures !PairFlag(WithoutPair(db, rel, Pair(requester.user.id, pk)), rel, requester, pk)
    ensures rel' != rel || other.Anonymous? || other.user.id != requester.user.id || pk' != pk ==>
      && PairFlag(WithPair(db, rel, Pair(requester.user.id, pk)), rel', other, pk') == PairFlag(db, rel', other, pk')
      && PairFlag(WithoutPair(db, rel, Pair(requester.user.id, pk)), rel', other, pk') == PairFlag(db, rel', other, pk')
  {
    var p := Pair(requester.user.id, pk);
    var t := Table(db, rel);
    Seqs.FilterMembers(t, Other(p));
    assert (t + [p])[|t|] == p;
    if rel' == rel && other.Authenticated? {
      var q := Pair(other.user.id, pk');
      if q != p {
        assert q in t + [p] <==> q in t;
        if q in t {
          var k :| 0 <= k < |t| && t[k] == q;
        }
      }
    }
  }

  // ---------------------------------------------------------------------------
  // Recipe writes: `RecipeViewSet` (a `ModelViewSet` guarded by
  // `IsAdminModeratorOwnerOrReadOnly`)

  /** POST /recipes/: the permission check, then validation, then
      `RecipeSerializer.create` with the requester as author. */
  method RecipeCreate(store: Store, requester: Requester, data: RecipeData) returns (r: Result<int>)
    requires store.Valid()
    requires KnownRequester(store.State(), requester)
    modifies store
    ensures requester.Anonymous? ==> r == Failure(NotAuthenticated)
    ensures requester.Authenticated? && FieldErrors(old(store.State()), data, false) != {} ==>
      r == Failure(Invalid(FieldErrors(old(store.State()), data, false)))
    ensures r.Failure? ==> store.State() == old(store.State())
    ensures r.Success? ==>
      && requester.Authenticated? && FieldErrors(old(store.State()), data, false) == {}
      && r.value == old(store.nextRecipeId)
      && store.State() == Created(old(store.State()), requester.user.id, data)
    ensures store.Valid()
  {
    if !HasPermission("POST", requester) {
      return Failure(NotAuthenticated);
    }
    var errors := FieldErrors(store.State(), data, false);
    if errors != {} {
      return Failure(Invalid(errors));
    }
    assert requester.user.id in UserIds(store.State());
    var id := CreateRecipe(store, requester.user.id, data);
    r := Success(id);
  }

  /** PATCH /recipes/{id}/: the permission check, the lookup (404), the object
      permission check (403), validation of the partial data (400), then
      `RecipeSerializer.update`. */
  method RecipePartialUpdate(store: Store, requester: Requester, id: int, data: RecipeData)
    returns (r: Result<int>)
    requires store.Valid()
    modifies store
    ensures requester.Anonymous? ==> r == Failure(NotAuthenticated)
    ensures requester.Authenticated? && FindRecipe(old(store.recipes), id).None? ==> r == Failure(NotFound)
    ensures FindRecipe(old(store.recipes), id).Some? ==>
      var recipe := old(store.recipes)[FindRecipe(old(store.recipes), id).value];
      && (requester.Authenticated? && !MayAccess("PATCH", requester, recipe) ==> r == Failure(PermissionDenied))
      && (MayAccess("PATCH", requester, recipe) && FieldErrors(old(store.State()), data, true) != {} ==>
            r == Failure(Invalid(FieldErrors(old(store.State()), data, true))))
      && (r.Success? <==> MayAccess("PATCH", requester, recipe) && FieldErrors(old(store.State()), data, true) == {})
    ensures r.Failure? ==> store.State() == old(store.State())
    ensures r.Success? ==>
      && FindRecipe(old(store.recipes), id).Some? && r.value == id
      && store.State() == Updated(old(store.State()), id, data)
    ensures store.Valid()
  {
    if !HasPermission("PATCH", requester) {
      return Failure(NotAuthenticated);
    }
    var found := FindRecipe(store.recipes, id);
    if found.None? {
      return Failure(NotFound);
    }
    if !HasObjectPermission("PATCH", requester, store.recipes[found.value]) {
      return Failure(PermissionDenied);
    }
    var errors := FieldErrors(store.State(), data, true);
    if errors != {} {
      return Failure(Invalid(errors));
    }
    UpdateRecipe(store, id, data);
    r := Success(id);
  }

  /** `instance.delete()`: the recipe's row and, by `on_delete=CASCADE`, its
      ingredient rows, cart rows and favourite rows. */
  method DeleteCascade(store: Store, id: int)
    modifies store
    ensures store.State() == DeleteRecipe(old(store.State()), id)
  {
    store.recipes := Seqs.Filter(store.recipes, (r: Recipe) => r.id != id);
    store.recipeIngredients := Seqs.Filter(store.recipeIngredients, (row: RecipeIngredient) => row.recipe != id);
    store.carts := Seqs.Filter(store.carts, (p: Pair) => p.target != id);
    store.favorites := Seqs.Filter(store.favorites, (p: Pair) => p.target != id);
  }

  /** DELETE /recipes/{id}/: the permission check, the lookup (404), the object
      permission check (403), then the cascading delete. */
  method RecipeDestroy(store: Store, requester: Requester, id: int) returns (r: Result<int>)
    requires store.Valid()
    modifies store
    ensures requester.Anonymous? ==> r == Failure(NotAuthenticated)
    ensures requester.Authenticated? && FindRecipe(old(store.recipes), id).None? ==> r == Failure(NotFound)
    ensures FindRecipe(old(store.recipes), id).Some? ==>
      var recipe := old(store.recipes)[FindRecipe(old(store.recipes), id).value];
      && (requester.Authenticated? && !MayAccess("DELETE", requester, recipe) ==> r == Failure(PermissionDenied))
      && (r.Success? <==> MayAccess("DELETE", requester, recipe))
    ensures r.Failure? ==> store.State() == old(store.State())
    ensures r.Success? ==> r.value == id && store.State() == DeleteRecipe(old(store.State()), id)
    ensures store.Valid()
  {
    if !HasPermission("DELETE", requester) {
      return Failure(NotAuthenticated);
    }
    var found := FindRecipe(store.recipes, id);
    if found.None? {
      return Failure(NotFound);
    }
    if !HasObjectPermission("DELETE", requester, store.recipes[found.value]) {
      return Failure(PermissionDenied);
    }
    DeleteRecipeCascades(store.State(), id);
    DeleteCascade(store, id);
    r := Success(id);
  }

  // ---------------------------------------------------------------------------
  // Shopping list: `download_shopping_cart`

  /** `Sum('recipes_set__amount')` of one ingredient over the rows of the given
      recipes. */
  function Total(rows: seq<RecipeIngredient>, recipes: set<int>, ingredient: int): int {
    if rows == [] then 0
    else (if rows[0].ingredient == ingredient && rows[0].recipe in recipes then rows[0].amount else 0)
         + Total(rows[1..], recipes, ingredient)
  }

  /** Some row of one of the recipes uses the ingredient: the join the ingredient
      query filters on. */
  predicate Used(rows: seq<RecipeIngredient>, recipes: set<int>, ingredient: int) {
    exists k :: 0 <= k < |rows| && rows[k].ingredient == ingredient && rows[k].recipe in recipes
  }

  /** One line of the shopping list: an ingredient and its `total_amount`. */
  datatype Line = Line(ingredient: Ingredient, totalAmount: int)

  predicate LineBefore(a: Line, b: Line) {
    a.ingredient.id < b.ingredient.id
  }

  /** The annotated ingredient query: every ingredient some row of the recipes uses,
      in the ingredient table's key order, with its total. */
  function Lines(ingredients: seq<Ingredient>, rows: seq<RecipeIngredient>, recipes: set<int>): seq<Line> {
    var used := Seqs.Filter(ingredients, (i: Ingredient) => Used(rows, recipes, i.id));
    seq(|used|, k requires 0 <= k < |used| => Line(used[k], Total(rows, recipes, used[k].id)))
  }

  /** What the shopping-list template is rendered from. */
  datatype ShoppingList = ShoppingList(recipes: seq<Recipe>, lines: seq<Line>)

  /** `Recipe.objects.filter(shopping_cart__user=user)`, newest first. */
  function CartRecipes(db: Db, user: int): seq<Recipe> {
    Seqs.Filter(Listing(db), (r: Recipe) => r.id in TargetsOf(db.carts, user))
  }

  /** GET /recipes/download_shopping_cart/, guarded by `IsAuthenticated`. */
  function DownloadShoppingCart(db: Db, requester: Requester): Result<ShoppingList> {
    if requester.Anonymous? then Failure(NotAuthenticated)
    else
      var user := requester.user.id;
      Success(ShoppingList(CartRecipes(db, user),
                           Lines(db.ingredients, db.recipeIngredients, TargetsOf(db.carts, user))))
  }

  function IdsOf(recipes: seq<Recipe>): set<int> {
    set r | r in recipes :: r.id
  }

  /** The amount of an ingredient added up recipe by recipe. */
  function SumPerRecipe(rows: seq<RecipeIngredient>, recipes: seq<Recipe>, ingredient: int): int {
    if recipes == [] then 0
    else Total(rows, {recipes[0].id}, ingredient) + SumPerRecipe(rows, recipes[1..], ingredient)
  }

  /** No row of the recipes uses the ingredient: its total is zero. */
  lemma {:induction false} TotalUnused(rows: seq<RecipeIngredient>, recipes: set<int>, ingredient: int)
    requires !Used(rows, recipes, ingredient)
    ensures Total(rows, recipes, ingredient) == 0
  {
    if rows != [] {
      assert !Used(rows[1..], recipes, ingredient) by {
        forall k | 0 <= k < |rows[1..]|
          ensures !(rows[1..][k].ingredient == ingredient && rows[1..][k].recipe in recipes)
        {
          assert rows[1..][k] == rows[k + 1];
        }
      }
      TotalUnused(rows[1..], recipes, ingredient);
    }
  }

  /** With positive amounts, a used ingredient has a positive total. */
  lemma {:induction false} TotalPositive(rows: seq<RecipeIngredient>, recipes: set<int>, ingredient: int)
    requires forall k :: 0 <= k < |rows| ==> rows[k].amount > 0
    requires Used(rows, recipes, ingredient)
    ensures Total(rows, recipes, ingredient) > 0
  {
    var k :| 0 <= k < |rows| && rows[k].ingredient == ingredient && rows[k].recipe in recipes;
    assert Total(rows[1..], recipes, ingredient) >= 0 by {
      TotalNonNegative(rows[1..], recipes, ingredient);
    }
    if k > 0 {
      assert rows[1..][k - 1] == rows[k];
      TotalPositive(rows[1..], recipes, ingredient);
    }
  }

  lemma {:induction false} TotalNonNegative(rows: seq<RecipeIngredient>, recipes: set<int>, ingredient: int)
    requires forall k :: 0 <= k < |rows| ==> rows[k].amount > 0
    ensures Total(rows, recipes, ingredient) >= 0
  {
    if rows != [] {
      TotalNonNegative(rows[1..], recipes, ingredient);
    }
  }

  /** The total over two disjoint sets of recipes is the sum of their totals. */
  lemma {:induction false} TotalSplits(rows: seq<RecipeIngredient>, a: set<int>, b: set<int>, ingredient: int)
    requires a !! b
    ensures Total(rows, a + b, ingredient) == Total(rows, a, ingredient) + Total(rows, b, ingredient)
  {
    if rows != [] {
      TotalSplits(rows[1..], a, b, ingredient);
    }
  }

  /** The total over one recipe is the amount of its row for the ingredient, since
      a recipe has at most one row per ingredient. */
  lemma {:induction false} TotalOfRow(rows: seq<RecipeIngredient>, k: int)
    requires Seqs.Pairwise(rows, DistinctKeys)
    requires 0 <= k < |rows|
    ensures Total(rows, {rows[k].recipe}, rows[k].ingredient) == rows[k].amount
  {
    var row := rows[k];
    var tail := rows[1..];
    assert Seqs.Pairwise(tail, DistinctKeys) by {
      forall i, j | 0 <= i < j < |tail| ensures DistinctKeys(tail[i], tail[j]) {
        assert tail[i] == rows[i + 1] && tail[j] == rows[j + 1];
      }
    }
    if k == 0 {
      assert !Used(tail, {row.recipe}, row.ingredient) by {
        forall j | 0 <= j < |tail|
          ensures !(tail[j].ingredient == row.ingredient && tail[j].recipe in {row.recipe})
        {
          assert tail[j] == rows[j + 1] && DistinctKeys(rows[0], rows[j + 1]);
        }
      }
      TotalUnused(tail, {row.recipe}, row.ingredient);
    } else {
      assert DistinctKeys(rows[0], rows[k]);
      assert tail[k - 1] == row;
      TotalOfRow(tail, k - 1);
    }
  }

  /** Summing by ingredient over the whole set of recipes equals adding up, recipe by
      recipe, what each recipe uses. */
  lemma {:induction false} TotalIsSumPerRecipe(rows: seq<RecipeIngredient>, recipes: seq<Recipe>, ingredient: int)
    requires forall i, j :: 0 <= i < j < |recipes| ==> recipes[i].id != recipes[j].id
    ensures Total(rows, IdsOf(recipes), ingredient) == SumPerRecipe(rows, recipes, ingredient)
  {
    if recipes == [] {
      assert !Used(rows, IdsOf(recipes), ingredient);
      TotalUnused(rows, IdsOf(recipes), ingredient);
    } else {
      var tail := recipes[1..];
      assert IdsOf(recipes) == {recipes[0].id} + IdsOf(tail) by {
        assert recipes == [recipes[0]] + tail;
      }
      assert recipes[0].id !in IdsOf(tail) by {
        forall r | r in tail ensures r.id != recipes[0].id {
          var j :| 0 <= j < |tail| && tail[j] == r;
          assert r == recipes[j + 1];
        }
      }
      TotalSplits(rows, {recipes[0].id}, IdsOf(tail), ingredient);
      TotalIsSumPerRecipe(rows, tail, ingredient);
    }
  }

  /** The lines hold exactly the used ingredients, each once and in key order, with
      their totals. */
  lemma LinesMeaning(ingredients: seq<Ingredient>, rows: seq<RecipeIngredient>, recipes: set<int>)
    ensures var ls := Lines(ingredients, rows, recipes);
      && (forall k :: 0 <= k < |ls| ==>
            && ls[k].ingredient in ingredients
            && Used(rows, recipes, ls[k].ingredient.id)
            && ls[k].totalAmount == Total(rows, recipes, ls[k].ingredient.id))
      && (forall i :: i in ingredients && Used(rows, recipes, i.id) ==>
            exists k :: 0 <= k < |ls| && ls[k].ingredient == i)
      && (Seqs.Pairwise(ingredients, IngredientBefore) ==> Seqs.Pairwise(ls, LineBefore))
  {
    var keep := (i: Ingredient) => Used(rows, recipes, i.id);
    var used := Seqs.Filter(ingredients, keep);
    Seqs.FilterMembers(ingredients, keep);
    var ls := Lines(ingredients, rows, recipes);
    forall i | i in ingredients && Used(rows, recipes, i.id)
      ensures exists k :: 0 <= k < |ls| && ls[k].ingredient == i
    {
      var j :| 0 <= j < |ingredients| && ingredients[j] == i;
      var k :| 0 <= k < |used| && used[k] == i;
      assert ls[k].ingredient == i;
    }
    if Seqs.Pairwise(ingredients, IngredientBefore) {
      Seqs.FilterPairwise(ingredients, keep, IngredientBefore);
      forall i, j | 0 <= i < j < |ls| ensures LineBefore(ls[i], ls[j]) {
        assert IngredientBefore(used[i], used[j]);
      }
    }
  }

  /** The cart's recipes are the stored recipes the user put in the cart, each once,
      newest first; their keys are exactly the cart's targets. */
  lemma CartRecipesMeaning(db: Db, user: int)
    requires Integrity(db)
    ensures var rs := CartRecipes(db, user);
      && (forall r :: r in rs <==> r in db.recipes && Pair(user, r.id) in db.carts)
      && Seqs.Pairwise(rs, PublishedAfter)
      && IdsOf(rs) == TargetsOf(db.carts, user)
  {
    var rs := CartRecipes(db, user);
    ListingNewestFirst(db);
    Seqs.FilterPairwise(Listing(db), (r: Recipe) => r.id in TargetsOf(db.carts, user), PublishedAfter);
    Seqs.FilterMembers(Listing(db), (r: Recipe) => r.id in TargetsOf(db.carts, user));
    forall r | r in db.recipes && Pair(user, r.id) in db.carts ensures r in rs {
      assert r.id in TargetsOf(db.carts, user);
      var j :| 0 <= j < |Listing(db)| && Listing(db)[j] == r;
    }
    forall r | r in rs ensures Pair(user, r.id) in db.carts {
      var p :| p in db.carts && p.user == user && p.target == r.id;
    }
    forall id | id in TargetsOf(db.carts, user) ensures id in IdsOf(rs) {
      var p :| p in db.carts && p.user == user && p.target == id;
      var k :| 0 <= k < |db.carts| && db.carts[k] == p;
      assert RecipePairFits(db, p);
      var r :| r in db.recipes && r.id == id;
      assert r in rs;
    }
  }

  /** The shopping list of a logged-in user: the recipes in their cart, newest first,
      and one line per ingredient those recipes use, in ingredient key order, whose
      total is the sum over the cart's recipes of the amount each one uses. */
  lemma ShoppingListContents(db: Db, user: User)
    requires Integrity(db)
    ensures DownloadShoppingCart(db, Authenticated(user)).Success?
    ensures var list := DownloadShoppingCart(db, Authenticated(user)).value;
      && (forall r :: r in list.recipes <==> r in db.recipes && IsInShoppingCart(db, Authenticated(user), r.id))
      && Seqs.Pairwise(list.recipes, PublishedAfter)
      && (forall k :: 0 <= k < |list.lines| ==>
            && list.lines[k].ingredient in db.ingredients
            && Used(db.recipeIngredients, IdsOf(list.recipes), list.lines[k].ingredient.id)
            && list.lines[k].totalAmount
               == SumPerRecipe(db.recipeIngredients, list.recipes, list.lines[k].ingredient.id)
            && list.lines[k].totalAmount > 0)
      && (forall i :: i in db.ingredients && Used(db.recipeIngredients, IdsOf(list.recipes), i.id) ==>
            exists k :: 0 <= k < |list.lines| && list.lines[k].ingredient == i)
      && Seqs.Pairwise(list.lines, LineBefore)
  {
    var list := DownloadShoppingCart(db, Authenticated(user)).value;
    var rows := db.recipeIngredients;
    CartRecipesMeaning(db, user.id);
    LinesMeaning(db.ingredients, rows, TargetsOf(db.carts, user.id));
    assert forall k :: 0 <= k < |rows| ==> rows[k].amount > 0 by {
      forall k | 0 <= k < |rows| ensures rows[k].amount > 0 {
        assert RowFits(db, rows[k]);
      }
    }
    DistinctRecipeKeys(list.recipes);
    LinesAddUp(db.ingredients, rows, list.recipes);
  }

  /** Over recipes listed once each, every line's total is the sum of the per-recipe
      amounts, and positive. */
  lemma LinesAddUp(ingredients: seq<Ingredient>, rows: seq<RecipeIngredient>, recipes: seq<Recipe>)
    requires forall k :: 0 <= k < |rows| ==> rows[k].amount > 0
    requires forall i, j :: 0 <= i < j < |recipes| ==> recipes[i].id != recipes[j].id
    ensures var ls := Lines(ingredients, rows, IdsOf(recipes));
      forall k :: 0 <= k < |ls| ==>
        && ls[k].totalAmount == SumPerRecipe(rows, recipes, ls[k].ingredient.id)
        && ls[k].totalAmount > 0
  {
    var ls := Lines(ingredients, rows, IdsOf(recipes));
    LinesMeaning(ingredients, rows, IdsOf(recipes));
    forall k | 0 <= k < |ls|
      ensures ls[k].totalAmount == SumPerRecipe(rows, recipes, ls[k].ingredient.id)
      ensures ls[k].totalAmount > 0
    {
      IngredientAddsUp(rows, recipes, ls[k].ingredient.id);
    }
  }

  /** Recipes listed newest first are listed once each. */
  lemma DistinctRecipeKeys(recipes: seq<Recipe>)
    requires Seqs.Pairwise(recipes, PublishedAfter)
    ensures forall i, j :: 0 <= i < j < |recipes| ==> recipes[i].id != recipes[j].id
  {
    forall i, j | 0 <= i < j < |recipes| ensures recipes[i].id != recipes[j].id {
      assert PublishedAfter(recipes[i], recipes[j]);
    }
  }

  /** Over recipes listed once each, an ingredient's total is the sum of the
      per-recipe amounts, and it is positive when some recipe uses it, since every
      stored amount is. */
  lemma IngredientAddsUp(rows: seq<RecipeIngredient>, recipes: seq<Recipe>, ingredient: int)
    requires forall k :: 0 <= k < |rows| ==> rows[k].amount > 0
    requires forall i, j :: 0 <= i < j < |recipes| ==> recipes[i].id != recipes[j].id
    requires Used(rows, IdsOf(recipes), ingredient)
    ensures Total(rows, IdsOf(recipes), ingredient) == SumPerRecipe(rows, recipes, ingredient)
    ensures Total(rows, IdsOf(recipes), ingredient) > 0
  {
    TotalPositive(rows, IdsOf(recipes), ingredient);
    TotalIsSumPerRecipe(rows, recipes, ingredient);
  }

  /** An empty cart gives an empty shopping list. */
  lemma EmptyCartEmptyList(db: Db, user: User)
    requires TargetsOf(db.carts, user.id) == {}
    ensures DownloadShoppingCart(db, Authenticated(user)) == Success(ShoppingList([], []))
  {
    var cart := TargetsOf(db.carts, user.id);
    Seqs.FilterNone(Listing(db), (r: Recipe) => r.id in TargetsOf(db.carts, user.id));
    Seqs.FilterNone(db.ingredients, (i: Ingredient) => Used(db.recipeIngredients, cart, i.id));
    assert CartRecipes(db, user.id) == [];
    assert Lines(db.ingredients, db.recipeIngredients, cart) == [];
  }

  /** A cart holding recipe A (3 of X) and recipe B (5 of X, 2 of Y) gives the lines
      X: 8 and Y: 2. */
  lemma ShoppingListExample()
    ensures
      var u := User(1, "cook@example.com", "cook", "Ann", "Cook", false, false);
      var x := Ingredient(1, "X", "g");
      var y := Ingredient(2, "Y", "g");
      var a := Recipe(1, 0, 1, "A", "a.png", "", 10, {});
      var b := Recipe(2, 1, 1, "B", "b.png", "", 20, {});
      var db := Db([u], [], [x, y], [a, b],
                   [RecipeIngredient(1, 1, 3), RecipeIngredient(2, 1, 5), RecipeIngredient(2, 2, 2)],
                   [Pair(1, 1), Pair(1, 2)], [], [], 3, 2);
      DownloadShoppingCart(db, Authenticated(u)) == Success(ShoppingList([b, a], [Line(x, 8), Line(y, 2)]))
  {
    var u := User(1, "cook@example.com", "cook", "Ann", "Cook", false, false);
    var x := Ingredient(1, "X", "g");
    var y := Ingredient(2, "Y", "g");
    var a := Recipe(1, 0, 1, "A", "a.png", "", 10, {});
    var b := Recipe(2, 1, 1, "B", "b.png", "", 20, {});
    var rows := [RecipeIngredient(1, 1, 3), RecipeIngredient(2, 1, 5), RecipeIngredient(2, 2, 2)];
    var carts := [Pair(1, 1), Pair(1, 2)];
    var db := Db([u], [], [x, y], [a, b], rows, carts, [], [], 3, 2);
    var cart := TargetsOf(carts, 1);
    assert cart == {1, 2} by {
      assert carts[0] in carts && carts[1] in carts;
    }
    assert Listing(db) == [b, a];
    assert Used(rows, cart, 1) by { assert rows[0].ingredient == 1; }
    assert Used(rows, cart, 2) by { assert rows[2].ingredient == 2; }
    assert rows[1..] == [rows[1], rows[2]] && rows[1..][1..] == [rows[2]];
    var last := [rows[2]];
    assert last[1..] == [] && last[0].recipe in cart;
    assert Total(last, cart, 2) == 2 + Total(last[1..], cart, 2);
    assert Total(last, cart, 1) == 0 && Total(last, cart, 2) == 2;
    assert Total(rows, cart, 1) == 8;
    assert Total(rows, cart, 2) == 2;
    var keep := (i: Ingredient) => Used(rows, cart, i.id);
    assert Seqs.Filter([x, y], keep) == [x, y] by {
      Seqs.FilterAll([x, y], keep);
    }
    assert Lines([x, y], rows, cart) == [Line(x, 8), Line(y, 2)];
    assert CartRecipes(db, 1) == [b, a] by {
      Seqs.FilterAll([b, a], (r: Recipe) => r.id in cart);
    }
  }

  // ---------------------------------------------------------------------------
  // Followed authors: `CustomUserViewSet.subscriptions`

  /** `User.objects.filter(followers__user=request.user)`, in key order. */
  function FollowedAuthors(db: Db, user: int): seq<User> {
    Seqs.Filter(db.users, (u: User) => u.id in TargetsOf(db.subscriptions, user))
  }

  /** GET /users/subscriptions/, guarded by `IsAuthenticated`: each followed author
      shown by `SubscriptionSerializer`. */
  function Subscriptions(db: Db, requester: Requester, limit: Option<string>): Result<seq<SubscriptionView>> {
    if requester.Anonymous? then Failure(NotAuthenticated)
    else
      var authors := FollowedAuthors(db, requester.user.id);
      Success(seq(|authors|, k requires 0 <= k < |authors| => SubscriptionRepr(db, requester, authors[k], limit)))
  }

  predicate UserBefore(a: User, b: User) {
    a.id < b.id
  }

  /** The listing shows exactly the stored users the requester follows, each once
      and in key order, never the requester, each marked as followed. */
  lemma SubscriptionsShowFollowedAuthors(db: Db, me: User, limit: Option<string>)
    requires Integrity(db)
    ensures Subscriptions(db, Authenticated(me), limit).Success?
    ensures var authors := FollowedAuthors(db, me.id);
      var views := Subscriptions(db, Authenticated(me), limit).value;
      && (forall u :: u in authors <==> u in db.users && IsSubscribed(db, Authenticated(me), u.id))
      && (forall p :: p in db.subscriptions && p.user == me.id ==> exists u :: u in authors && u.id == p.target)
      && Seqs.Pairwise(authors, UserBefore)
      && (forall u :: u in authors ==> u.id != me.id)
      && |views| == |authors|
      && (forall k :: 0 <= k < |views| ==> views[k].author == authors[k] && views[k].isSubscribed)
  {
    FollowedAuthorsMeaning(db, me.id);
  }

  /** The followed authors are exactly the stored users `user` follows, each once, in
      key order, and never `user`. */
  lemma FollowedAuthorsMeaning(db: Db, user: int)
    requires IdsIncreasing(db.users)
    requires forall k :: 0 <= k < |db.subscriptions| ==> SubscriptionFits(db, db.subscriptions[k])
    ensures var authors := FollowedAuthors(db, user);
      && (forall u :: u in authors <==> u in db.users && Pair(user, u.id) in db.subscriptions)
      && (forall p :: p in db.subscriptions && p.user == user ==> exists u :: u in authors && u.id == p.target)
      && Seqs.Pairwise(authors, UserBefore)
      && (forall u :: u in authors ==> u.id != user)
  {
    var authors := FollowedAuthors(db, user);
    var keep := (u: User) => u.id in TargetsOf(db.subscriptions, user);
    assert Seqs.Pairwise(db.users, UserBefore);
    Seqs.FilterPairwise(db.users, keep, UserBefore);
    Seqs.FilterMembers(db.users, keep);
    forall u | u in db.users && Pair(user, u.id) in db.subscriptions ensures u in authors {
      assert u.id in TargetsOf(db.subscriptions, user);
    }
    forall u | u in authors ensures Pair(user, u.id) in db.subscriptions && u.id != user {
      var p :| p in db.subscriptions && p.user == user && p.target == u.id;
      var k :| 0 <= k < |db.subscriptions| && db.subscriptions[k] == p;
      assert SubscriptionFits(db, p);
    }
    forall p | p in db.subscriptions && p.user == user ensures exists u :: u in authors && u.id == p.target {
      var k :| 0 <= k < |db.subscriptions| && db.subscriptions[k] == p;
      assert SubscriptionFits(db, p);
      var u :| u in db.users && u.id == p.target;
      assert u.id in TargetsOf(db.subscriptions, user);
      assert u in authors;
    }
  }
}
