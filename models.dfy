/** The relational schema: one datatype per table row, the whole database as a
    value, the constraints of the schema as an integrity predicate, and the store
    object whose tables the views and serializers update in place. */
module Models {
  import opened Results
  import opened Users
  import Seqs

  /** Upper bound of a `PositiveSmallIntegerField` on PostgreSQL. */
  const MaxSmallInt: int := 32767

  /** Uploaded pictures are kept as opaque values. */
  type Image = string

  datatype Tag = Tag(id: int, name: string, color: string, slug: string)

  datatype Ingredient = Ingredient(id: int, name: string, measurementUnit: string)

  /** `pubDate` is a publication counter rather than a wall-clock time. */
  datatype Recipe = Recipe(
    id: int,
    pubDate: int,
    author: int,
    name: string,
    image: Image,
    text: string,
    cookingTime: int,
    tags: set<int>)

  datatype RecipeIngredient = RecipeIngredient(recipe: int, ingredient: int, amount: int)

  /** A row of `ShoppingCart` or `Favorite` (the target is a recipe) or of
      `Subscription` (the user follows the target author). */
  datatype Pair = Pair(user: int, target: int)

  /** The three unique-pair tables the toggle endpoints act on. */
  datatype Relation = ShoppingCart | Favorite | Subscription

  /** Every table in primary-key order, plus the next recipe key and the
      publication counter. */
  datatype Db = Db(
    users: seq<User>,
    tags: seq<Tag>,
    ingredients: seq<Ingredient>,
    recipes: seq<Recipe>,
    recipeIngredients: seq<RecipeIngredient>,
    carts: seq<Pair>,
    favorites: seq<Pair>,
    subscriptions: seq<Pair>,
    nextRecipeId: int,
    clock: int)

  function Table(db: Db, rel: Relation): seq<Pair> {
    match rel
    case ShoppingCart => db.carts
    case Favorite => db.favorites
    case Subscription => db.subscriptions
  }

  function WithTable(db: Db, rel: Relation, t: seq<Pair>): Db {
    match rel
    case ShoppingCart => db.(carts := t)
    case Favorite => db.(favorites := t)
    case Subscription => db.(subscriptions := t)
  }

  function UserIds(db: Db): set<int> {
    set u | u in db.users :: u.id
  }

  function TagIds(db: Db): set<int> {
    set t | t in db.tags :: t.id
  }

  function IngredientIds(db: Db): set<int> {
    set i | i in db.ingredients :: i.id
  }

  function RecipeIds(db: Db): set<int> {
    set r | r in db.recipes :: r.id
  }

  predicate SmallPositive(n: int) {
    0 < n <= MaxSmallInt
  }

  /** Tag name, colour and slug are each unique; keys grow. */
  predicate TagsDistinct(a: Tag, b: Tag) {
    a.id < b.id && a.name != b.name && a.color != b.color && a.slug != b.slug
  }

  predicate IngredientBefore(a: Ingredient, b: Ingredient) {
    a.id < b.id
  }

  /** Recipes are stored in insertion order: keys and publication times grow. */
  predicate PublishedBefore(a: Recipe, b: Recipe) {
    a.id < b.id && a.pubDate < b.pubDate
  }

  /** The order recipes are listed in: newer key and publication time first. */
  predicate PublishedAfter(a: Recipe, b: Recipe) {
    a.id > b.id && a.pubDate > b.pubDate
  }

  /** The unique constraint on `(recipe, ingredient)`. */
  predicate DistinctKeys(a: RecipeIngredient, b: RecipeIngredient) {
    a.recipe != b.recipe || a.ingredient != b.ingredient
  }

  /** The unique constraints on `(user, recipe)` and `(user, author)`. */
  predicate DistinctPairs(a: Pair, b: Pair) {
    a != b
  }

  /** The check constraint on `cooking_time` and the foreign keys of a recipe. */
  ghost predicate RecipeFits(db: Db, r: Recipe) {
    && SmallPositive(r.cookingTime)
    && r.author in UserIds(db)
    && r.tags <= TagIds(db)
    && r.id < db.nextRecipeId
    && r.pubDate < db.clock
  }

  /** The check constraint on `amount` and the foreign keys of a recipe row. */
  ghost predicate RowFits(db: Db, row: RecipeIngredient) {
    && SmallPositive(row.amount)
    && row.recipe in RecipeIds(db)
    && row.ingredient in IngredientIds(db)
  }

  ghost predicate RecipePairFits(db: Db, p: Pair) {
    p.user in UserIds(db) && p.target in RecipeIds(db)
  }

  /** Foreign keys of a subscription and the `user != author` check constraint. */
  ghost predicate SubscriptionFits(db: Db, p: Pair) {
    p.user in UserIds(db) && p.target in UserIds(db) && p.user != p.target
  }

  /** The unique constraints, and keys growing along each table. */
  ghost predicate Unique(db: Db) {
    && IdsIncreasing(db.users)
    && UniqueEmails(db.users)
    && UniqueUsernames(db.users)
    && Seqs.Pairwise(db.tags, TagsDistinct)
    && Seqs.Pairwise(db.ingredients, IngredientBefore)
    && Seqs.Pairwise(db.recipes, PublishedBefore)
    && Seqs.Pairwise(db.recipeIngredients, DistinctKeys)
    && Seqs.Pairwise(db.carts, DistinctPairs)
    && Seqs.Pairwise(db.favorites, DistinctPairs)
    && Seqs.Pairwise(db.subscriptions, DistinctPairs)
  }

  ghost predicate RecipesFit(db: Db) {
    forall k :: 0 <= k < |db.recipes| ==> RecipeFits(db, db.recipes[k])
  }

  ghost predicate RowsFit(db: Db) {
    forall k :: 0 <= k < |db.recipeIngredients| ==> RowFits(db, db.recipeIngredients[k])
  }

  /** The foreign keys and checks of the three pair tables. */
  ghost predicate PairsFit(db: Db) {
    && (forall k :: 0 <= k < |db.carts| ==> RecipePairFits(db, db.carts[k]))
    && (forall k :: 0 <= k < |db.favorites| ==> RecipePairFits(db, db.favorites[k]))
    && (forall k :: 0 <= k < |db.subscriptions| ==> SubscriptionFits(db, db.subscriptions[k]))
  }

  /** Every constraint the schema declares. */
  ghost predicate Integrity(db: Db) {
    Unique(db) && RecipesFit(db) && RowsFit(db) && PairsFit(db)
  }

  /** A fresh database holding only the seeded reference data. */
  function Seeded(users: seq<User>, tags: seq<Tag>, ingredients: seq<Ingredient>): Db {
    Db(users, tags, ingredients, [], [], [], [], [], 1, 0)
  }

  /** The position of the recipe with key `id`. */
  function FindRecipe(recipes: seq<Recipe>, id: int): (r: Option<nat>)
    ensures r.Some? ==> r.value < |recipes| && recipes[r.value].id == id
    ensures r.None? ==> forall k :: 0 <= k < |recipes| ==> recipes[k].id != id
  {
    if recipes == [] then None
    else if recipes[|recipes| - 1].id == id then Some(|recipes| - 1)
    else FindRecipe(recipes[..|recipes| - 1], id)
  }

  /** `ordering = ('-pub_date',)`: the recipe table as it is listed. */
  function Listing(db: Db): seq<Recipe> {
    Seqs.Reverse(db.recipes)
  }

  /** The listing holds exactly the stored recipes, newest first. */
  lemma ListingNewestFirst(db: Db)
    requires Integrity(db)
    ensures forall r :: r in Listing(db) <==> r in db.recipes
    ensures Seqs.Pairwise(Listing(db), PublishedAfter)
  {
    var l := Listing(db);
    var n := |db.recipes|;
    forall i, j | 0 <= i < j < |l| ensures PublishedAfter(l[i], l[j]) {
      assert l[i] == db.recipes[n - 1 - i] && l[j] == db.recipes[n - 1 - j];
      assert PublishedBefore(db.recipes[n - 1 - j], db.recipes[n - 1 - i]);
    }
    forall r | r in db.recipes ensures r in l {
      var k :| 0 <= k < n && db.recipes[k] == r;
      assert l[n - 1 - k] == r;
    }
  }

  /** The targets `user` holds in a pair table (recipes in a cart or among the
      favourites, authors followed). */
  function TargetsOf(t: seq<Pair>, user: int): set<int> {
    set p | p in t && p.user == user :: p.target
  }

  /** Recipe deletion with the `on_delete=CASCADE` foreign keys of the recipe rows,
      cart rows and favourite rows. */
  function DeleteRecipe(db: Db, id: int): Db {
    db.(recipes := Seqs.Filter(db.recipes, (r: Recipe) => r.id != id),
        recipeIngredients := Seqs.Filter(db.recipeIngredients, (row: RecipeIngredient) => row.recipe != id),
        carts := Seqs.Filter(db.carts, (p: Pair) => p.target != id),
        favorites := Seqs.Filter(db.favorites, (p: Pair) => p.target != id))
  }

  /** Deleting a recipe removes it with its ingredient rows, cart rows and favourite
      rows, keeps every other row of those tables, leaves the other tables alone and
      keeps the schema's constraints. */
  lemma DeleteRecipeCascades(db: Db, id: int)
    requires Integrity(db)
    ensures var db' := DeleteRecipe(db, id);
      && Integrity(db')
      && RecipeIds(db') == RecipeIds(db) - {id}
      && (forall r :: r in db'.recipes <==> r in db.recipes && r.id != id)
      && (forall row :: row in db'.recipeIngredients <==> row in db.recipeIngredients && row.recipe != id)
      && (forall p :: p in db'.carts <==> p in db.carts && p.target != id)
      && (forall p :: p in db'.favorites <==> p in db.favorites && p.target != id)
      && db'.users == db.users && db'.tags == db.tags && db'.ingredients == db.ingredients
      && db'.subscriptions == db.subscriptions
      && db'.nextRecipeId == db.nextRecipeId && db'.clock == db.clock
  {
    var db' := DeleteRecipe(db, id);
    Seqs.FilterMembers(db.recipes, (r: Recipe) => r.id != id);
    Seqs.FilterMembers(db.recipeIngredients, (row: RecipeIngredient) => row.recipe != id);
    Seqs.FilterMembers(db.carts, (p: Pair) => p.target != id);
    Seqs.FilterMembers(db.favorites, (p: Pair) => p.target != id);
    assert RecipeIds(db') == RecipeIds(db) - {id};
    DeletedKeepsIntegrity(db, id);
  }

  lemma DeletedKeepsIntegrity(db: Db, id: int)
    requires Integrity(db)
    requires RecipeIds(DeleteRecipe(db, id)) == RecipeIds(db) - {id}
    ensures Integrity(DeleteRecipe(db, id))
  {
    var db' := DeleteRecipe(db, id);
    Seqs.FilterPairwise(db.recipes, (r: Recipe) => r.id != id, PublishedBefore);
    Seqs.FilterPairwise(db.recipeIngredients, (row: RecipeIngredient) => row.recipe != id, DistinctKeys);
    Seqs.FilterPairwise(db.carts, (p: Pair) => p.target != id, DistinctPairs);
    Seqs.FilterPairwise(db.favorites, (p: Pair) => p.target != id, DistinctPairs);
    DeletedRecipesFit(db, id);
    DeletedRowsFit(db, id);
    DeletedPairsFit(db, id);
  }

  lemma DeletedRecipesFit(db: Db, id: int)
    requires RecipesFit(db)
    ensures RecipesFit(DeleteRecipe(db, id))
  {
    var db' := DeleteRecipe(db, id);
    assert UserIds(db') == UserIds(db) && TagIds(db') == TagIds(db);
    Seqs.FilterMembers(db.recipes, (r: Recipe) => r.id != id);
    forall k | 0 <= k < |db'.recipes| ensures RecipeFits(db', db'.recipes[k]) {
      var j :| 0 <= j < |db.recipes| && db.recipes[j] == db'.recipes[k];
    }
  }

  lemma DeletedRowsFit(db: Db, id: int)
    requires RowsFit(db)
    requires RecipeIds(DeleteRecipe(db, id)) == RecipeIds(db) - {id}
    ensures RowsFit(DeleteRecipe(db, id))
  {
    var db' := DeleteRecipe(db, id);
    assert IngredientIds(db') == IngredientIds(db);
    Seqs.FilterMembers(db.recipeIngredients, (row: RecipeIngredient) => row.recipe != id);
    forall k | 0 <= k < |db'.recipeIngredients| ensures RowFits(db', db'.recipeIngredients[k]) {
      var j :| 0 <= j < |db.recipeIngredients| && db.recipeIngredients[j] == db'.recipeIngredients[k];
    }
  }

  lemma DeletedPairsFit(db: Db, id: int)
    requires PairsFit(db)
    requires RecipeIds(DeleteRecipe(db, id)) == RecipeIds(db) - {id}
    ensures PairsFit(DeleteRecipe(db, id))
  {
    var db' := DeleteRecipe(db, id);
    assert UserIds(db') == UserIds(db);
    Seqs.FilterMembers(db.carts, (p: Pair) => p.target != id);
    Seqs.FilterMembers(db.favorites, (p: Pair) => p.target != id);
    forall k | 0 <= k < |db'.carts| ensures RecipePairFits(db', db'.carts[k]) {
      var j :| 0 <= j < |db.carts| && db.carts[j] == db'.carts[k];
    }
    forall k | 0 <= k < |db'.favorites| ensures RecipePairFits(db', db'.favorites[k]) {
      var j :| 0 <= j < |db.favorites| && db.favorites[j] == db'.favorites[k];
    }
  }

  /** The pair tables' constraints depend only on which users and recipes exist. */
  lemma PairsFitCarriesOver(db: Db, db': Db)
    requires PairsFit(db)
    requires db'.carts == db.carts && db'.favorites == db.favorites && db'.subscriptions == db.subscriptions
    requires db'.users == db.users && RecipeIds(db) <= RecipeIds(db')
    ensures PairsFit(db')
  {
    forall k | 0 <= k < |db.carts| ensures RecipePairFits(db', db.carts[k]) {
      assert RecipePairFits(db, db.carts[k]);
    }
    forall k | 0 <= k < |db.favorites| ensures RecipePairFits(db', db.favorites[k]) {
      assert RecipePairFits(db, db.favorites[k]);
    }
    forall k | 0 <= k < |db.subscriptions| ensures SubscriptionFits(db', db.subscriptions[k]) {
      assert SubscriptionFits(db, db.subscriptions[k]);
    }
  }

  /** The ingredient rows' constraints depend only on which recipes and ingredients exist. */
  lemma RowsFitCarriesOver(db: Db, db': Db)
    requires RowsFit(db)
    requires db'.recipeIngredients == db.recipeIngredients && db'.ingredients == db.ingredients
    requires RecipeIds(db) <= RecipeIds(db')
    ensures RowsFit(db')
  {
    forall k | 0 <= k < |db.recipeIngredients| ensures RowFits(db', db.recipeIngredients[k]) {
      assert RowFits(db, db.recipeIngredients[k]);
    }
  }

  /** The store: the tables as mutable fields. Views and serializers change them in
      place; `State` is their current content as one value. */
  class Store {
    var users: seq<User>
    var tags: seq<Tag>
    var ingredients: seq<Ingredient>
    var recipes: seq<Recipe>
    var recipeIngredients: seq<RecipeIngredient>
    var carts: seq<Pair>
    var favorites: seq<Pair>
    var subscriptions: seq<Pair>
    var nextRecipeId: int
    var clock: int

    function State(): Db
      reads this
    {
      Db(users, tags, ingredients, recipes, recipeIngredients, carts, favorites,
         subscriptions, nextRecipeId, clock)
    }

    ghost predicate Valid()
      reads this
    {
      Integrity(State())
    }

    constructor (users: seq<User>, tags: seq<Tag>, ingredients: seq<Ingredient>)
      requires Integrity(Seeded(users, tags, ingredients))
      ensures State() == Seeded(users, tags, ingredients)
      ensures Valid()
    {
      this.users := users;
      this.tags := tags;
      this.ingredients := ingredients;
      this.recipes := [];
      this.recipeIngredients := [];
      this.carts := [];
      this.favorites := [];
      this.subscriptions := [];
      this.nextRecipeId := 1;
      this.clock := 0;
    }
  }
}
