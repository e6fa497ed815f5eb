/** The recipe serializer (field validation, `create`, partial `update`), the
    read-side flags and the subscription representation, and the validators of the
    three toggle serializers. */
module Serializers {
  import opened Results
  import opened Users
  import opened Models
  import Seqs

  /** One `{id, amount}` item of a submitted `ingredients` list. */
  datatype IngredientAmount = IngredientAmount(id: int, amount: int)

  /** A submitted recipe; an absent field is `None`. */
  datatype RecipeData = RecipeData(
    name: Option<string>,
    image: Option<Image>,
    text: Option<string>,
    cookingTime: Option<int>,
    tags: Option<seq<int>>,
    ingredients: Option<seq<IngredientAmount>>)

  // ---------------------------------------------------------------------------
  // Field validation

  /** The range the small-integer model field accepts; checked before the
      serializer's own validator. */
  predicate InSmallIntRange(value: int) {
    0 <= value <= MaxSmallInt
  }

  /** The field range, then `validate_amount`, which refuses `value <= 0`. */
  predicate AmountAccepted(value: int) {
    InSmallIntRange(value) && !(value <= 0)
  }

  /** The field range, then `validate_cooking_time`, which refuses `value <= 0`. */
  predicate CookingTimeAccepted(value: int) {
    InSmallIntRange(value) && !(value <= 0)
  }

  /** One ingredient item: its `id` must name an existing ingredient and its
      amount must be accepted. */
  predicate ItemAccepted(db: Db, item: IngredientAmount) {
    item.id in IngredientIds(db) && AmountAccepted(item.amount)
  }

  /** The tag list: a to-many field that may not be empty, of existing keys. */
  predicate TagsAccepted(db: Db, tags: seq<int>) {
    tags != [] && forall k :: 0 <= k < |tags| ==> tags[k] in TagIds(db)
  }

  predicate Missing<T>(field: Option<T>, partial: bool) {
    field.None? && !partial
  }

  /** The fields a payload fails on. A full write (`partial` false) requires every
      field; a partial one validates only the fields present. */
  function FieldErrors(db: Db, data: RecipeData, partial: bool): set<string> {
    (if Missing(data.name, partial) then {"name"} else {})
    + (if Missing(data.image, partial) then {"image"} else {})
    + (if Missing(data.text, partial) then {"text"} else {})
    + (if Missing(data.cookingTime, partial)
         || (data.cookingTime.Some? && !CookingTimeAccepted(data.cookingTime.value))
       then {"cooking_time"} else {})
    + (if Missing(data.tags, partial)
         || (data.tags.Some? && !TagsAccepted(db, data.tags.value))
       then {"tags"} else {})
    + (if Missing(data.ingredients, partial)
         || (data.ingredients.Some?
             && exists k :: 0 <= k < |data.ingredients.value| && !ItemAccepted(db, data.ingredients.value[k]))
       then {"ingredients"} else {})
  }

  /** A payload the serializer accepts satisfies the schema's check constraints and
      foreign keys, and a full write carries every field. */
  lemma AcceptedDataFitsSchema(db: Db, data: RecipeData, partial: bool)
    requires FieldErrors(db, data, partial) == {}
    ensures !partial ==> Complete(data)
    ensures data.cookingTime.Some? ==> SmallPositive(data.cookingTime.value)
    ensures data.tags.Some? ==> TagSet(data.tags.value) <= TagIds(db)
    ensures data.ingredients.Some? ==> forall k :: 0 <= k < |data.ingredients.value| ==>
      && SmallPositive(data.ingredients.value[k].amount)
      && data.ingredients.value[k].id in IngredientIds(db)
  {
    if data.cookingTime.Some? {
      assert "cooking_time" !in FieldErrors(db, data, partial);
    }
    if data.tags.Some? {
      assert "tags" !in FieldErrors(db, data, partial);
    }
    if data.ingredients.Some? {
      assert "ingredients" !in FieldErrors(db, data, partial);
      forall k | 0 <= k < |data.ingredients.value|
        ensures SmallPositive(data.ingredients.value[k].amount)
      {
        assert ItemAccepted(db, data.ingredients.value[k]);
      }
    }
  }

  /** A cooking time of zero or less is refused; a cooking time of one is not. */
  lemma CookingTimeBoundary(db: Db, data: RecipeData, partial: bool)
    ensures data.cookingTime.Some? && data.cookingTime.value <= 0 ==>
      "cooking_time" in FieldErrors(db, data, partial)
    ensures data.cookingTime == Some(1) ==> "cooking_time" !in FieldErrors(db, data, partial)
  {
  }

  /** An amount of zero or less, or an id naming no ingredient, is refused; a list of
      existing ingredients each with amount one is accepted. */
  lemma IngredientItemBoundary(db: Db, data: RecipeData, partial: bool, k: int)
    requires data.ingredients.Some? && 0 <= k < |data.ingredients.value|
    ensures data.ingredients.value[k].amount <= 0 ==> "ingredients" in FieldErrors(db, data, partial)
    ensures data.ingredients.value[k].id !in IngredientIds(db) ==> "ingredients" in FieldErrors(db, data, partial)
    ensures (forall j :: 0 <= j < |data.ingredients.value| ==>
               data.ingredients.value[j].amount == 1 && data.ingredients.value[j].id in IngredientIds(db))
            ==> "ingredients" !in FieldErrors(db, data, partial)
  {
    if data.ingredients.value[k].amount <= 0 || data.ingredients.value[k].id !in IngredientIds(db) {
      assert !ItemAccepted(db, data.ingredients.value[k]);
    }
  }

  predicate Complete(data: RecipeData) {
    && data.name.Some? && data.image.Some? && data.text.Some?
    && data.cookingTime.Some? && data.tags.Some? && data.ingredients.Some?
  }

  /** A partial update that carries no field at all. */
  predicate IsEmpty(data: RecipeData) {
    && data.name.None? && data.image.None? && data.text.None?
    && data.cookingTime.None? && data.tags.None? && data.ingredients.None?
  }

  /** `tags.set(tags)`: the tag set of a submitted tag list. */
  function TagSet(tags: seq<int>): set<int> {
    set t | t in tags
  }

  // ---------------------------------------------------------------------------
  // Ingredient rows

  function Row(recipe: int, item: IngredientAmount): RecipeIngredient {
    RecipeIngredient(recipe, item.id, item.amount)
  }

  /** The rows built for `recipe` from the submitted items: one per item, in order. */
  function RowsFor(recipe: int, items: seq<IngredientAmount>): (rows: seq<RecipeIngredient>)
    ensures |rows| == |items|
    ensures forall k :: 0 <= k < |items| ==> rows[k] == Row(recipe, items[k])
  {
    if items == [] then []
    else RowsFor(recipe, items[..|items| - 1]) + [Row(recipe, items[|items| - 1])]
  }

  /** The loop of `create` and `update` that fills `recipe_ingredient_set`. */
  method BuildRows(recipe: int, items: seq<IngredientAmount>) returns (rows: seq<RecipeIngredient>)
    ensures rows == RowsFor(recipe, items)
  {
    rows := [];
    for i := 0 to |items|
      invariant rows == RowsFor(recipe, items[..i])
    {
      assert items[..i + 1][..i] == items[..i];
      rows := rows + [RecipeIngredient(recipe, items[i].id, items[i].amount)];
    }
    assert items[..|items|] == items;
  }

  /** Some row of `rows` has the key `(recipe, ingredient)`. */
  predicate HasKey(rows: seq<RecipeIngredient>, recipe: int, ingredient: int) {
    exists k :: 0 <= k < |rows| && rows[k].recipe == recipe && rows[k].ingredient == ingredient
  }

  /** `bulk_create(batch, ignore_conflicts=True)`: the rows are inserted in order and a
      row whose key is already present (stored before, or inserted earlier in the same
      batch) is skipped without an error. */
  function BulkCreated(rows: seq<RecipeIngredient>, batch: seq<RecipeIngredient>): seq<RecipeIngredient> {
    if batch == [] then rows
    else
      var before := BulkCreated(rows, batch[..|batch| - 1]);
      var row := batch[|batch| - 1];
      if HasKey(before, row.recipe, row.ingredient) then before else before + [row]
  }

  /** The rows of one recipe, in key order. */
  function RowsOf(rows: seq<RecipeIngredient>, recipe: int): seq<RecipeIngredient> {
    Seqs.Filter(rows, (row: RecipeIngredient) => row.recipe == recipe)
  }

  /** `ingredients_set.all().delete()`: every row except those of `recipe`. */
  function WithoutRowsOf(rows: seq<RecipeIngredient>, recipe: int): seq<RecipeIngredient> {
    Seqs.Filter(rows, (row: RecipeIngredient) => row.recipe != recipe)
  }

  /** The submitted items with every item whose ingredient already occurred earlier
      in the list dropped. */
  function FirstOccurrences(items: seq<IngredientAmount>): seq<IngredientAmount> {
    if items == [] then []
    else
      var init := items[..|items| - 1];
      var last := items[|items| - 1];
      if Mentions(init, last.id) then FirstOccurrences(init)
      else FirstOccurrences(init) + [last]
  }

  /** Some item of `items` names ingredient `id`. */
  predicate Mentions(items: seq<IngredientAmount>, id: int) {
    exists k :: 0 <= k < |items| && items[k].id == id
  }

  lemma RowsForHasKey(recipe: int, items: seq<IngredientAmount>, id: int)
    ensures HasKey(RowsFor(recipe, items), recipe, id) <==> Mentions(items, id)
  {
    var rows := RowsFor(recipe, items);
    if Mentions(items, id) {
      var k :| 0 <= k < |items| && items[k].id == id;
      assert rows[k] == Row(recipe, items[k]);
    }
  }

  /** No earlier item names the same ingredient as item `k`. */
  predicate FirstOf(items: seq<IngredientAmount>, k: int)
    requires 0 <= k < |items|
  {
    forall j :: 0 <= j < k ==> items[j].id != items[k].id
  }

  predicate DistinctIds(a: IngredientAmount, b: IngredientAmount) {
    a.id != b.id
  }

  /** `FirstOccurrences` keeps exactly the first item of every submitted ingredient:
      each kept item was submitted, no ingredient is kept twice, and the first item of
      every ingredient is kept. */
  lemma {:induction false} FirstOccurrencesKeepsFirst(items: seq<IngredientAmount>)
    ensures forall x :: x in FirstOccurrences(items) ==> x in items
    ensures Seqs.Pairwise(FirstOccurrences(items), DistinctIds)
    ensures forall k :: 0 <= k < |items| && FirstOf(items, k) ==> items[k] in FirstOccurrences(items)
  {
    if items != [] {
      var init := items[..|items| - 1];
      var last := items[|items| - 1];
      FirstOccurrencesKeepsFirst(init);
      var fo := FirstOccurrences(init);
      if !Mentions(init, last.id) {
        forall j | 0 <= j < |fo| ensures DistinctIds(fo[j], last) {
          assert fo[j] in init;
        }
        Seqs.PairwiseAppend(fo, last, DistinctIds);
      }
      forall k | 0 <= k < |items| && FirstOf(items, k)
        ensures items[k] in FirstOccurrences(items)
      {
        if k < |init| {
          assert init[k] == items[k];
          assert FirstOf(init, k);
        } else {
          assert !Mentions(init, last.id);
        }
      }
    }
  }

  lemma {:induction false} BulkCreatedHasKey(rows: seq<RecipeIngredient>, batch: seq<RecipeIngredient>, recipe: int, ingredient: int)
    ensures HasKey(BulkCreated(rows, batch), recipe, ingredient) <==>
      HasKey(rows, recipe, ingredient) || HasKey(batch, recipe, ingredient)
  {
    if batch != [] {
      var init := batch[..|batch| - 1];
      var row := batch[|batch| - 1];
      BulkCreatedHasKey(rows, init, recipe, ingredient);
      var before := BulkCreated(rows, init);
      if HasKey(batch, recipe, ingredient) {
        var k :| 0 <= k < |batch| && batch[k].recipe == recipe && batch[k].ingredient == ingredient;
        if k < |init| {
          assert init[k] == batch[k];
        } else if !HasKey(before, row.recipe, row.ingredient) {
          assert (before + [row])[|before|] == row;
        }
      }
      if HasKey(init, recipe, ingredient) {
        var k :| 0 <= k < |init| && init[k].recipe == recipe && init[k].ingredient == ingredient;
        assert batch[k] == init[k];
      }
      if !HasKey(before, row.recipe, row.ingredient) && HasKey(before + [row], recipe, ingredient) {
        var k :| 0 <= k < |before + [row]| && (before + [row])[k].recipe == recipe && (before + [row])[k].ingredient == ingredient;
        if k < |before| {
          assert before[k] == (before + [row])[k];
        }
      }
      if HasKey(before, recipe, ingredient) && !HasKey(before, row.recipe, row.ingredient) {
        var k :| 0 <= k < |before| && before[k].recipe == recipe && before[k].ingredient == ingredient;
        assert (before + [row])[k] == before[k];
      }
    }
  }

  /** Bulk insertion never breaks the unique key and only ever adds rows taken from
      the batch. */
  lemma {:induction false} BulkCreatedKeepsKeysUnique(rows: seq<RecipeIngredient>, batch: seq<RecipeIngredient>)
    requires Seqs.Pairwise(rows, DistinctKeys)
    ensures Seqs.Pairwise(BulkCreated(rows, batch), DistinctKeys)
    ensures forall x :: x in BulkCreated(rows, batch) ==> x in rows || x in batch
  {
    if batch != [] {
      var init := batch[..|batch| - 1];
      var row := batch[|batch| - 1];
      BulkCreatedKeepsKeysUnique(rows, init);
      var before := BulkCreated(rows, init);
      if !HasKey(before, row.recipe, row.ingredient) {
        Seqs.PairwiseAppend(before, row, DistinctKeys);
      }
      forall x | x in BulkCreated(rows, batch) ensures x in rows || x in batch {
        if x in before && x in init {
          var k :| 0 <= k < |init| && init[k] == x;
          assert batch[k] == x;
        }
      }
    }
  }

  /** Rows of a recipe the batch does not touch are left as they were. */
  lemma {:induction false} BulkCreatedKeepsOtherRecipes(rows: seq<RecipeIngredient>, batch: seq<RecipeIngredient>, other: int)
    requires forall k :: 0 <= k < |batch| ==> batch[k].recipe != other
    ensures RowsOf(BulkCreated(rows, batch), other) == RowsOf(rows, other)
  {
    if batch != [] {
      var init := batch[..|batch| - 1];
      var row := batch[|batch| - 1];
      BulkCreatedKeepsOtherRecipes(rows, init, other);
      var before := BulkCreated(rows, init);
      if !HasKey(before, row.recipe, row.ingredient) {
        Seqs.FilterConcat(before, [row], (r: RecipeIngredient) => r.recipe == other);
        assert Seqs.Filter([row], (r: RecipeIngredient) => r.recipe == other) == [];
      }
    }
  }

  /** Inserting the rows built for a recipe that has no rows yet leaves that recipe
      with exactly one row per submitted ingredient, carrying the amount of the
      ingredient's first occurrence in the submission. */
  lemma {:induction false} BulkCreatedFreshRecipe(rows: seq<RecipeIngredient>, recipe: int, items: seq<IngredientAmount>)
    requires forall k :: 0 <= k < |rows| ==> rows[k].recipe != recipe
    ensures RowsOf(BulkCreated(rows, RowsFor(recipe, items)), recipe) == RowsFor(recipe, FirstOccurrences(items))
  {
    if items == [] {
      Seqs.FilterNone(rows, (r: RecipeIngredient) => r.recipe == recipe);
    } else {
      var init := items[..|items| - 1];
      var last := items[|items| - 1];
      var batch := RowsFor(recipe, items);
      assert batch[..|batch| - 1] == RowsFor(recipe, init);
      assert batch[|batch| - 1] == Row(recipe, last);
      BulkCreatedFreshRecipe(rows, recipe, init);
      var before := BulkCreated(rows, RowsFor(recipe, init));
      BulkCreatedHasKey(rows, RowsFor(recipe, init), recipe, last.id);
      RowsForHasKey(recipe, init, last.id);
      assert !HasKey(rows, recipe, last.id);
      if !Mentions(init, last.id) {
        Seqs.FilterConcat(before, [Row(recipe, last)], (r: RecipeIngredient) => r.recipe == recipe);
        var fo := FirstOccurrences(init);
        assert (fo + [last])[..|fo|] == fo;
      }
    }
  }

  // ---------------------------------------------------------------------------
  // `create`

  /** `validated_data.get(key, default)`. */
  function Get<T>(field: Option<T>, default: T): T {
    if field.Some? then field.value else default
  }

  /** The recipe `create` stores: authored by the requesting user, with the submitted
      fields and tag set, the next key and the next publication time. */
  function NewRecipe(db: Db, author: int, data: RecipeData): Recipe
    requires Complete(data)
  {
    Recipe(db.nextRecipeId, db.clock, author, data.name.value, data.image.value,
           data.text.value, data.cookingTime.value, TagSet(data.tags.value))
  }

  /** The database after `create`. */
  function Created(db: Db, author: int, data: RecipeData): Db
    requires Complete(data)
  {
    db.(recipes := db.recipes + [NewRecipe(db, author, data)],
        recipeIngredients := BulkCreated(db.recipeIngredients, RowsFor(db.nextRecipeId, data.ingredients.value)),
        nextRecipeId := db.nextRecipeId + 1,
        clock := db.clock + 1)
  }

  /** `RecipeSerializer.create`, called by the framework with validated data. */
  method CreateRecipe(store: Store, author: int, data: RecipeData) returns (id: int)
    requires store.Valid()
    requires author in UserIds(store.State())
    requires FieldErrors(store.State(), data, false) == {}
    modifies store
    ensures store.State() == Created(old(store.State()), author, data)
    ensures id == old(store.nextRecipeId)
    ensures store.Valid()
  {
    ghost var db := store.State();
    AcceptedDataFitsSchema(db, data, false);
    CreatedKeepsIntegrity(db, author, data);
    var recipe := Recipe(store.nextRecipeId, store.clock, author, data.name.value,
                         data.image.value, data.text.value, data.cookingTime.value, {});
    store.recipes := store.recipes + [recipe];
    store.nextRecipeId := store.nextRecipeId + 1;
    store.clock := store.clock + 1;
    // recipe.tags.set(tags)
    recipe := recipe.(tags := TagSet(data.tags.value));
    store.recipes := store.recipes[|store.recipes| - 1 := recipe];
    var batch := BuildRows(recipe.id, data.ingredients.value);
    store.recipeIngredients := BulkCreated(store.recipeIngredients, batch);
    id := recipe.id;
  }

  /** Every stored row of a consistent database belongs to a recipe key below the next one. */
  lemma NoRowsForNextKey(db: Db)
    requires Integrity(db)
    ensures forall k :: 0 <= k < |db.recipeIngredients| ==> db.recipeIngredients[k].recipe != db.nextRecipeId
  {
    forall k | 0 <= k < |db.recipeIngredients|
      ensures db.recipeIngredients[k].recipe != db.nextRecipeId
    {
      assert RowFits(db, db.recipeIngredients[k]);
      var j :| 0 <= j < |db.recipes| && db.recipes[j].id == db.recipeIngredients[k].recipe;
      assert RecipeFits(db, db.recipes[j]);
    }
  }

  /** `create` keeps every constraint of the schema. */
  lemma CreatedKeepsIntegrity(db: Db, author: int, data: RecipeData)
    requires Integrity(db)
    requires author in UserIds(db)
    requires FieldErrors(db, data, false) == {}
    ensures Complete(data) && Integrity(Created(db, author, data))
  {
    AcceptedDataFitsSchema(db, data, false);
    var db' := Created(db, author, data);
    CreatedRecipesFit(db, author, data);
    CreatedRowsFit(db, author, data);
    PairsFitCarriesOver(db, db');
  }

  /** The recipe `create` appends is the newest one and fits the schema. */
  lemma CreatedRecipesFit(db: Db, author: int, data: RecipeData)
    requires RecipesFit(db) && Seqs.Pairwise(db.recipes, PublishedBefore)
    requires author in UserIds(db)
    requires Complete(data) && SmallPositive(data.cookingTime.value) && TagSet(data.tags.value) <= TagIds(db)
    ensures var db' := Created(db, author, data);
      && RecipesFit(db') && Seqs.Pairwise(db'.recipes, PublishedBefore)
      && RecipeIds(db') == RecipeIds(db) + {db.nextRecipeId}
  {
    var db' := Created(db, author, data);
    var r := NewRecipe(db, author, data);
    forall k | 0 <= k < |db.recipes| ensures PublishedBefore(db.recipes[k], r) {
      assert RecipeFits(db, db.recipes[k]);
    }
    Seqs.PairwiseAppend(db.recipes, r, PublishedBefore);
    assert RecipeIds(db') == RecipeIds(db) + {r.id};
    forall k | 0 <= k < |db'.recipes| ensures RecipeFits(db', db'.recipes[k]) {
      if k < |db.recipes| {
        assert db'.recipes[k] == db.recipes[k];
        assert RecipeFits(db, db.recipes[k]);
      }
    }
  }

  /** The rows `create` adds belong to the new recipe, name existing ingredients and
      keep the key `(recipe, ingredient)` unique. */
  lemma CreatedRowsFit(db: Db, author: int, data: RecipeData)
    requires RowsFit(db) && Seqs.Pairwise(db.recipeIngredients, DistinctKeys)
    requires Complete(data)
    requires forall k :: 0 <= k < |data.ingredients.value| ==>
      && SmallPositive(data.ingredients.value[k].amount)
      && data.ingredients.value[k].id in IngredientIds(db)
    ensures var db' := Created(db, author, data);
      RowsFit(db') && Seqs.Pairwise(db'.recipeIngredients, DistinctKeys)
  {
    var db' := Created(db, author, data);
    var id := db.nextRecipeId;
    assert id in RecipeIds(db') by {
      assert db'.recipes[|db.recipes|].id == id;
    }
    assert RecipeIds(db) <= RecipeIds(db') by {
      forall x | x in RecipeIds(db) ensures x in RecipeIds(db') {
        var j :| 0 <= j < |db.recipes| && db.recipes[j].id == x;
        assert db'.recipes[j].id == x;
      }
    }
    var batch := RowsFor(id, data.ingredients.value);
    BulkCreatedKeepsKeysUnique(db.recipeIngredients, batch);
    forall k | 0 <= k < |db'.recipeIngredients| ensures RowFits(db', db'.recipeIngredients[k]) {
      var x := db'.recipeIngredients[k];
      if x in db.recipeIngredients {
        var j :| 0 <= j < |db.recipeIngredients| && db.recipeIngredients[j] == x;
        assert RowFits(db, db.recipeIngredients[j]);
      } else {
        var j :| 0 <= j < |batch| && batch[j] == x;
        assert x == Row(id, data.ingredients.value[j]);
      }
    }
  }

  /** After `create` the new recipe is authored by the requesting user, carries the
      submitted fields and exactly the submitted tags, and has exactly one row per
      submitted ingredient (a repeated ingredient keeps its first amount, without an
      error); rows of other recipes and the other tables are untouched. */
  lemma CreatedRecipe(db: Db, author: int, data: RecipeData)
    requires Integrity(db)
    requires FieldErrors(db, data, false) == {}
    ensures Complete(data)
    ensures var db' := Created(db, author, data);
      var id := db.nextRecipeId;
      && id !in RecipeIds(db)
      && |db'.recipes| == |db.recipes| + 1
      && db'.recipes[..|db.recipes|] == db.recipes
      && FindRecipe(db'.recipes, id) == Some(|db.recipes|)
      && db'.recipes[|db.recipes|].author == author
      && (forall t :: t in db'.recipes[|db.recipes|].tags <==> t in data.tags.value)
      && db'.recipes[|db.recipes|].name == data.name.value
      && db'.recipes[|db.recipes|].text == data.text.value
      && db'.recipes[|db.recipes|].image == data.image.value
      && db'.recipes[|db.recipes|].cookingTime == data.cookingTime.value
      && RowsOf(db'.recipeIngredients, id) == RowsFor(id, FirstOccurrences(data.ingredients.value))
      && (forall other :: other != id ==> RowsOf(db'.recipeIngredients, other) == RowsOf(db.recipeIngredients, other))
      && db'.users == db.users && db'.tags == db.tags && db'.ingredients == db.ingredients
      && db'.carts == db.carts && db'.favorites == db.favorites && db'.subscriptions == db.subscriptions
  {
    AcceptedDataFitsSchema(db, data, false);
    var id := db.nextRecipeId;
    var db' := Created(db, author, data);
    forall k | 0 <= k < |db.recipes| ensures db.recipes[k].id != id {
      assert RecipeFits(db, db.recipes[k]);
    }
    NoRowsForNextKey(db);
    BulkCreatedFreshRecipe(db.recipeIngredients, id, data.ingredients.value);
    forall other | other != id
      ensures RowsOf(db'.recipeIngredients, other) == RowsOf(db.recipeIngredients, other)
    {
      BulkCreatedKeepsOtherRecipes(db.recipeIngredients, RowsFor(id, data.ingredients.value), other);
    }
  }

  // ---------------------------------------------------------------------------
  // partial `update`

  /** The recipe row after `update` sets every submitted field on the instance. */
  function Patched(r: Recipe, data: RecipeData): Recipe {
    r.(name := Get(data.name, r.name),
       image := Get(data.image, r.image),
       text := Get(data.text, r.text),
       cookingTime := Get(data.cookingTime, r.cookingTime),
       tags := if data.tags.Some? then TagSet(data.tags.value) else r.tags)
  }

  /** The database after a partial `update` of the recipe with key `id`. */
  function Updated(db: Db, id: int, data: RecipeData): Db
    requires FindRecipe(db.recipes, id).Some?
  {
    if IsEmpty(data) then db
    else
      var k := FindRecipe(db.recipes, id).value;
      db.(recipes := db.recipes[k := Patched(db.recipes[k], data)],
          recipeIngredients :=
            if data.ingredients.Some?
            then BulkCreated(WithoutRowsOf(db.recipeIngredients, id), RowsFor(id, data.ingredients.value))
            else db.recipeIngredients)
  }

  /** `RecipeSerializer.update`, called by the framework with the recipe it looked up
      and the validated (partial) data. */
  method UpdateRecipe(store: Store, id: int, data: RecipeData)
    requires store.Valid()
    requires FindRecipe(store.recipes, id).Some?
    requires FieldErrors(store.State(), data, true) == {}
    modifies store
    ensures store.State() == Updated(old(store.State()), id, data)
    ensures store.Valid()
  {
    UpdatedKeepsIntegrity(store.State(), id, data);
    ghost var before := store.State();
    var k := FindRecipe(store.recipes, id).value;
    if !IsEmpty(data) {
      var instance := store.recipes[k];
      instance := instance.(name := Get(data.name, instance.name));
      instance := instance.(image := Get(data.image, instance.image));
      instance := instance.(text := Get(data.text, instance.text));
      instance := instance.(cookingTime := Get(data.cookingTime, instance.cookingTime));
      if data.tags.Some? {
        instance := instance.(tags := TagSet(data.tags.value));
      }
      assert instance == Patched(before.recipes[k], data);
      if data.ingredients.Some? {
        store.recipeIngredients := WithoutRowsOf(store.recipeIngredients, id);
        var batch := BuildRows(id, data.ingredients.value);
        store.recipeIngredients := BulkCreated(store.recipeIngredients, batch);
      }
      // instance.save()
      store.recipes := store.recipes[k := instance];
      assert store.State() == Updated(before, id, data);
    }
  }

  /** A partial `update` keeps every constraint of the schema. */
  lemma UpdatedKeepsIntegrity(db: Db, id: int, data: RecipeData)
    requires Integrity(db)
    requires FindRecipe(db.recipes, id).Some?
    requires FieldErrors(db, data, true) == {}
    ensures Integrity(Updated(db, id, data))
  {
    if !IsEmpty(data) {
      AcceptedDataFitsSchema(db, data, true);
      var db' := Updated(db, id, data);
      UpdatedRecipesFit(db, id, data);
      UpdatedRowsFit(db, id, data);
      PairsFitCarriesOver(db, db');
    }
  }

  /** `update` keeps the recipe's key, author and publication time, so the recipe
      table keeps its keys, its order and its constraints. */
  lemma UpdatedRecipesFit(db: Db, id: int, data: RecipeData)
    requires RecipesFit(db) && Seqs.Pairwise(db.recipes, PublishedBefore)
    requires FindRecipe(db.recipes, id).Some?
    requires data.cookingTime.Some? ==> SmallPositive(data.cookingTime.value)
    requires data.tags.Some? ==> TagSet(data.tags.value) <= TagIds(db)
    ensures var db' := Updated(db, id, data);
      && RecipesFit(db') && Seqs.Pairwise(db'.recipes, PublishedBefore)
      && RecipeIds(db') == RecipeIds(db)
  {
    var db' := Updated(db, id, data);
    var k := FindRecipe(db.recipes, id).value;
    assert db'.recipes[k].id == db.recipes[k].id && db'.recipes[k].pubDate == db.recipes[k].pubDate;
    forall i, j | 0 <= i < j < |db'.recipes| ensures PublishedBefore(db'.recipes[i], db'.recipes[j]) {
      assert PublishedBefore(db.recipes[i], db.recipes[j]);
    }
    assert RecipeIds(db') == RecipeIds(db) by {
      forall x | x in RecipeIds(db) ensures x in RecipeIds(db') {
        var j :| 0 <= j < |db.recipes| && db.recipes[j].id == x;
        assert db'.recipes[j].id == x;
      }
    }
    forall i | 0 <= i < |db'.recipes| ensures RecipeFits(db', db'.recipes[i]) {
      assert RecipeFits(db, db.recipes[i]);
    }
  }

  /** Replacing a recipe's rows keeps the key `(recipe, ingredient)` unique and every
      row pointing at an existing recipe and ingredient. */
  lemma UpdatedRowsFit(db: Db, id: int, data: RecipeData)
    requires RowsFit(db) && Seqs.Pairwise(db.recipeIngredients, DistinctKeys)
    requires FindRecipe(db.recipes, id).Some?
    requires data.ingredients.Some? ==> forall k :: 0 <= k < |data.ingredients.value| ==>
      && SmallPositive(data.ingredients.value[k].amount)
      && data.ingredients.value[k].id in IngredientIds(db)
    ensures var db' := Updated(db, id, data);
      RowsFit(db') && Seqs.Pairwise(db'.recipeIngredients, DistinctKeys)
  {
    var db' := Updated(db, id, data);
    var k := FindRecipe(db.recipes, id).value;
    assert RecipeIds(db) <= RecipeIds(db') by {
      forall x | x in RecipeIds(db) ensures x in RecipeIds(db') {
        var j :| 0 <= j < |db.recipes| && db.recipes[j].id == x;
        assert db'.recipes[j].id == x;
      }
    }
    if data.ingredients.None? {
      RowsFitCarriesOver(db, db');
    } else {
      assert id in RecipeIds(db') by {
        assert db'.recipes[k].id == id;
      }
      ReplacedRowsFit(db, db', id, data.ingredients.value);
    }
  }

  /** The rows after the rows of `id` are replaced by a batch built from `items`. */
  lemma ReplacedRowsFit(db: Db, db': Db, id: int, items: seq<IngredientAmount>)
    requires RowsFit(db) && Seqs.Pairwise(db.recipeIngredients, DistinctKeys)
    requires RecipeIds(db) <= RecipeIds(db') && id in RecipeIds(db') && db'.ingredients == db.ingredients
    requires forall k :: 0 <= k < |items| ==> SmallPositive(items[k].amount) && items[k].id in IngredientIds(db)
    requires db'.recipeIngredients == BulkCreated(WithoutRowsOf(db.recipeIngredients, id), RowsFor(id, items))
    ensures RowsFit(db') && Seqs.Pairwise(db'.recipeIngredients, DistinctKeys)
  {
    var kept := WithoutRowsOf(db.recipeIngredients, id);
    var batch := RowsFor(id, items);
    var keep := (row: RecipeIngredient) => row.recipe != id;
    Seqs.FilterPairwise(db.recipeIngredients, keep, DistinctKeys);
    Seqs.FilterMembers(db.recipeIngredients, keep);
    BulkCreatedKeepsKeysUnique(kept, batch);
    forall i | 0 <= i < |db'.recipeIngredients| ensures RowFits(db', db'.recipeIngredients[i]) {
      var x := db'.recipeIngredients[i];
      if x in kept {
        var j :| 0 <= j < |db.recipeIngredients| && db.recipeIngredients[j] == x;
        assert RowFits(db, db.recipeIngredients[j]);
      } else {
        var j :| 0 <= j < |batch| && batch[j] == x;
        assert x == Row(id, items[j]);
      }
    }
  }

  /** Partial-update semantics: a field absent from the payload keeps its value, a
      present one takes the submitted value, tags change only when `tags` is present,
      ingredient rows only when `ingredients` is present, key, author and publication
      time never change, other recipes and tables are untouched, and an empty payload
      changes nothing. */
  lemma UpdatedFields(db: Db, id: int, data: RecipeData)
    requires FindRecipe(db.recipes, id).Some?
    ensures var db' := Updated(db, id, data);
      var k := FindRecipe(db.recipes, id).value;
      var r := db.recipes[k];
      var r' := db'.recipes[k];
      && (IsEmpty(data) ==> db' == db)
      && |db'.recipes| == |db.recipes|
      && (forall j :: 0 <= j < |db.recipes| && j != k ==> db'.recipes[j] == db.recipes[j])
      && r'.id == r.id && r'.author == r.author && r'.pubDate == r.pubDate
      && r'.name == (if data.name.Some? then data.name.value else r.name)
      && r'.image == (if data.image.Some? then data.image.value else r.image)
      && r'.text == (if data.text.Some? then data.text.value else r.text)
      && r'.cookingTime == (if data.cookingTime.Some? then data.cookingTime.value else r.cookingTime)
      && (data.tags.None? ==> r'.tags == r.tags)
      && (data.tags.Some? ==> forall t :: t in r'.tags <==> t in data.tags.value)
      && (data.ingredients.None? ==> db'.recipeIngredients == db.recipeIngredients)
      && db'.users == db.users && db'.tags == db.tags && db'.ingredients == db.ingredients
      && db'.carts == db.carts && db'.favorites == db.favorites && db'.subscriptions == db.subscriptions
      && db'.nextRecipeId == db.nextRecipeId && db'.clock == db.clock
  {
  }

  /** An update carrying `ingredients` replaces the recipe's rows wholesale: afterwards
      they are exactly one row per submitted ingredient (first occurrence wins), none of
      the previous rows is kept unless resubmitted, and rows of every other recipe are
      unchanged. */
  lemma UpdatedReplacesIngredients(db: Db, id: int, data: RecipeData)
    requires FindRecipe(db.recipes, id).Some?
    requires data.ingredients.Some?
    ensures var db' := Updated(db, id, data);
      && RowsOf(db'.recipeIngredients, id) == RowsFor(id, FirstOccurrences(data.ingredients.value))
      && (forall other :: other != id ==> RowsOf(db'.recipeIngredients, other) == RowsOf(db.recipeIngredients, other))
  {
    var kept := WithoutRowsOf(db.recipeIngredients, id);
    var batch := RowsFor(id, data.ingredients.value);
    Seqs.FilterMembers(db.recipeIngredients, (row: RecipeIngredient) => row.recipe != id);
    assert forall k :: 0 <= k < |kept| ==> kept[k].recipe != id;
    BulkCreatedFreshRecipe(kept, id, data.ingredients.value);
    forall other | other != id
      ensures RowsOf(Updated(db, id, data).recipeIngredients, other) == RowsOf(db.recipeIngredients, other)
    {
      BulkCreatedKeepsOtherRecipes(kept, batch, other);
      Seqs.FilterImplied(db.recipeIngredients, (row: RecipeIngredient) => row.recipe != id,
                         (row: RecipeIngredient) => row.recipe == other);
    }
  }

  // ---------------------------------------------------------------------------
  // Read-side flags

  /** Whether the requester holds the pair `(requester, target)` in a table;
      an anonymous requester holds none. */
  function PairFlag(db: Db, rel: Relation, requester: Requester, target: int): bool {
    if requester.Authenticated? then Pair(requester.user.id, target) in Table(db, rel) else false
  }

  /** `get_is_favorited`. */
  function IsFavorited(db: Db, requester: Requester, recipe: int): bool {
    PairFlag(db, Favorite, requester, recipe)
  }

  /** `get_is_in_shopping_cart`. */
  function IsInShoppingCart(db: Db, requester: Requester, recipe: int): bool {
    PairFlag(db, ShoppingCart, requester, recipe)
  }

  /** `get_is_subscribed`. */
  function IsSubscribed(db: Db, requester: Requester, author: int): bool {
    PairFlag(db, Subscription, requester, author)
  }

  // ---------------------------------------------------------------------------
  // Subscription representation

  /** The fields `CommonRecipeSerializer` shows of a recipe. */
  datatype RecipeSummary = RecipeSummary(id: int, name: string, image: Image, cookingTime: int)

  function Summary(r: Recipe): RecipeSummary {
    RecipeSummary(r.id, r.name, r.image, r.cookingTime)
  }

  /** `CommonRecipeSerializer(recipes, many=True)`: one entry per recipe, in order,
      showing its key, name, image and cooking time. */
  function Summaries(recipes: seq<Recipe>): (r: seq<RecipeSummary>)
    ensures |r| == |recipes|
    ensures forall k :: 0 <= k < |recipes| ==>
      && r[k].id == recipes[k].id && r[k].name == recipes[k].name
      && r[k].image == recipes[k].image && r[k].cookingTime == recipes[k].cookingTime
  {
    seq(|recipes|, k requires 0 <= k < |recipes| => Summary(recipes[k]))
  }

  /** `obj.recipes.all()`: the author's recipes, newest first. */
  function AuthorRecipes(db: Db, author: int): seq<Recipe> {
    Seqs.Filter(Listing(db), (r: Recipe) => r.author == author)
  }

  /** `recipes_limit and recipes_limit.isdigit()`, for ASCII digits. */
  predicate IsDigitString(s: string) {
    s != [] && forall k :: 0 <= k < |s| ==> '0' <= s[k] <= '9'
  }

  /** `int(s)` of a digit string. */
  function DigitsValue(s: string): nat
    requires forall k :: 0 <= k < |s| ==> '0' <= s[k] <= '9'
  {
    if s == [] then 0
    else 10 * DigitsValue(s[..|s| - 1]) + (s[|s| - 1] as int - '0' as int)
  }

  /** `recipes[:int(recipes_limit)]` when the parameter is a digit string. */
  function LimitRecipes(recipes: seq<Recipe>, limit: Option<string>): seq<Recipe> {
    if limit.Some? && IsDigitString(limit.value) then
      var n := DigitsValue(limit.value);
      if n < |recipes| then recipes[..n] else recipes
    else recipes
  }

  /** What `SubscriptionSerializer` shows of a followed author. */
  datatype SubscriptionView = SubscriptionView(
    author: User,
    isSubscribed: bool,
    recipes: seq<RecipeSummary>,
    recipesCount: int)

  function SubscriptionRepr(db: Db, requester: Requester, author: User, limit: Option<string>): SubscriptionView {
    var all := AuthorRecipes(db, author.id);
    SubscriptionView(author, IsSubscribed(db, requester, author.id), Summaries(LimitRecipes(all, limit)), |all|)
  }

  /** `recipes` is the author's newest recipes, cut to the first `n` only when
      `recipes_limit` is a non-empty digit string `n`; `recipes_count` always counts
      all of them. */
  lemma RecipesLimitTruncates(db: Db, requester: Requester, author: User, limit: Option<string>)
    ensures var v := SubscriptionRepr(db, requester, author, limit);
      var all := AuthorRecipes(db, author.id);
      && v.recipesCount == |all|
      && |v.recipes| <= v.recipesCount
      && (forall k :: 0 <= k < |v.recipes| ==> v.recipes[k] == Summary(all[k]))
      && (forall k :: 0 <= k < |v.recipes| ==> all[k] in db.recipes && all[k].author == author.id)
      && (forall r :: r in db.recipes && r.author == author.id ==> r in all)
      && (Integrity(db) ==> Seqs.Pairwise(all, PublishedAfter))
      && (if limit.Some? && IsDigitString(limit.value)
          then |v.recipes| == (if DigitsValue(limit.value) < |all| then DigitsValue(limit.value) else |all|)
          else |v.recipes| == |all|)
  {
    var all := AuthorRecipes(db, author.id);
    var keep := (r: Recipe) => r.author == author.id;
    var n := |db.recipes|;
    Seqs.FilterMembers(Listing(db), keep);
    forall k | 0 <= k < |all| ensures all[k] in db.recipes {
      var j :| 0 <= j < n && Listing(db)[j] == all[k];
      assert Listing(db)[j] == db.recipes[n - 1 - j];
    }
    forall r | r in db.recipes && r.author == author.id ensures r in all {
      var k :| 0 <= k < n && db.recipes[k] == r;
      assert Listing(db)[n - 1 - k] == r;
    }
    if Integrity(db) {
      ListingNewestFirst(db);
      Seqs.FilterPairwise(Listing(db), keep, PublishedAfter);
    }
  }

  /** The edge cases of `recipes_limit`: "2" keeps two, "0" keeps none, "10" keeps all
      three, and an empty, signed or non-numeric value keeps all three. */
  lemma RecipesLimitExamples(a: Recipe, b: Recipe, c: Recipe)
    ensures LimitRecipes([a, b, c], Some("2")) == [a, b]
    ensures LimitRecipes([a, b, c], Some("0")) == []
    ensures LimitRecipes([a, b, c], Some("10")) == [a, b, c]
    ensures LimitRecipes([a, b, c], Some("")) == [a, b, c]
    ensures LimitRecipes([a, b, c], Some("-1")) == [a, b, c]
    ensures LimitRecipes([a, b, c], Some("two")) == [a, b, c]
    ensures LimitRecipes([a, b, c], None) == [a, b, c]
  {
    assert DigitsValue("2") == 2 by { assert "2"[..0] == ""; }
    assert DigitsValue("0") == 0 by { assert "0"[..0] == ""; }
    assert DigitsValue("10") == 10 by { assert "10"[..1] == "1"; assert "1"[..0] == ""; }
    assert !IsDigitString("-1") by { assert "-1"[0] == '-'; }
    assert !IsDigitString("two") by { assert "two"[0] == 't'; }
  }

  // ---------------------------------------------------------------------------
  // Toggle serializers

  const CartExistsMessage: string := "Recipe already exists in your shopping cart."
  const FavoriteExistsMessage: string := "Recipe already exists in your favorites."
  const SubscriptionExistsMessage: string := "You are already subscribed this author."

  /** The message of each `UniqueTogetherValidator`. */
  function ExistsMessage(rel: Relation): string {
    match rel
    case ShoppingCart => CartExistsMessage
    case Favorite => FavoriteExistsMessage
    case Subscription => SubscriptionExistsMessage
  }

  /** Validation of `{user, target}` by the toggle serializers: the `user` field may
      not be null (an anonymous request has no id), `validate_author` refuses a
      self-subscription, and the unique-together validator refuses an existing pair. */
  function PairValidation(db: Db, rel: Relation, requester: Requester, target: int): Option<Error> {
    if requester.Anonymous? then Some(Invalid({"user"}))
    else if rel == Subscription && requester.user.id == target then Some(Invalid({"author"}))
    else if Pair(requester.user.id, target) in Table(db, rel) then Some(Conflict(ExistsMessage(rel)))
    else None
  }
}
