/** The filter sets of the list endpoints: the ingredient search by name prefix and
    the recipe filter, whose `qs` narrows the declared filters to the requester's
    favourites or cart on request. */
module Filters {
  import opened Results
  import opened Users
  import opened Models
  import opened Serializers
  import Seqs

  // ---------------------------------------------------------------------------
  // `IngredientFilter`

  /** Case folding of ASCII letters. */
  function Lower(c: char): char {
    if 'A' <= c <= 'Z' then (c as int + 32) as char else c
  }

  /** The lower-case form of `s`: no upper-case ASCII letter is left, each one is
      replaced by its lower-case letter, and every other character is kept. */
  function LowerString(s: string): (r: string)
    ensures |r| == |s|
    ensures forall k :: 0 <= k < |r| ==> !('A' <= r[k] <= 'Z')
    ensures forall k :: 0 <= k < |s| && 'A' <= s[k] <= 'Z' ==> r[k] as int == s[k] as int + 32
    ensures forall k :: 0 <= k < |s| && !('A' <= s[k] <= 'Z') ==> r[k] == s[k]
  {
    seq(|s|, k requires 0 <= k < |s| => Lower(s[k]))
  }

  /** The `istartswith` lookup: `name` begins with `prefix`, ignoring case. */
  predicate IStartsWith(name: string, prefix: string) {
    |prefix| <= |name| && LowerString(name[..|prefix|]) == LowerString(prefix)
  }

  /** GET /ingredients/?name=…; an absent or empty parameter filters nothing. */
  function IngredientsByName(ingredients: seq<Ingredient>, name: Option<string>): seq<Ingredient> {
    if name.None? || name.value == "" then ingredients
    else Seqs.Filter(ingredients, (i: Ingredient) => IStartsWith(i.name, name.value))
  }

  /** The search returns exactly the ingredients whose name starts with the query,
      ignoring case, in key order; without a query it returns all of them. */
  lemma IngredientSearchMatches(ingredients: seq<Ingredient>, name: Option<string>)
    requires Seqs.Pairwise(ingredients, IngredientBefore)
    ensures var r := IngredientsByName(ingredients, name);
      && Seqs.Pairwise(r, IngredientBefore)
      && (name.None? || name.value == "" ==> r == ingredients)
      && (name.Some? && name.value != "" ==>
            forall i :: i in r <==> i in ingredients && IStartsWith(i.name, name.value))
  {
    if name.Some? && name.value != "" {
      var keep := (i: Ingredient) => IStartsWith(i.name, name.value);
      Seqs.FilterPairwise(ingredients, keep, IngredientBefore);
      Seqs.FilterMembers(ingredients, keep);
      var r := Seqs.Filter(ingredients, keep);
      forall i | i in ingredients && IStartsWith(i.name, name.value) ensures i in r {
        var j :| 0 <= j < |ingredients| && ingredients[j] == i;
      }
    }
  }

  lemma LowerIdempotent(s: string)
    ensures LowerString(LowerString(s)) == LowerString(s)
  {
  }

  /** Searching for a query or for its lower-case form gives the same ingredients. */
  lemma IngredientSearchIgnoresCase(ingredients: seq<Ingredient>, query: string)
    ensures IngredientsByName(ingredients, Some(query)) == IngredientsByName(ingredients, Some(LowerString(query)))
  {
    var folded := LowerString(query);
    LowerIdempotent(query);
    if query != "" {
      forall k | 0 <= k < |ingredients|
        ensures IStartsWith(ingredients[k].name, query) == IStartsWith(ingredients[k].name, folded)
      {
      }
      Seqs.FilterAgree(ingredients, (i: Ingredient) => IStartsWith(i.name, query),
                       (i: Ingredient) => IStartsWith(i.name, folded));
    }
  }

  /** "sug" finds "Sugar" and "SUGAR syrup" but not "Brown sugar". */
  lemma IngredientSearchExample()
    ensures IStartsWith("Sugar", "sug") && IStartsWith("SUGAR syrup", "sug")
    ensures !IStartsWith("Brown sugar", "sug")
  {
    assert LowerString("Sugar"[..3]) == "sug";
    assert LowerString("SUGAR syrup"[..3]) == "sug";
    assert LowerString("Brown sugar"[..3])[0] == 'b';
  }

  // ---------------------------------------------------------------------------
  // `RecipeFilter`

  /** The declared filters: `author` (a user key) and `tags` (slugs, any of which
      may match). */
  datatype RecipeQuery = RecipeQuery(author: Option<int>, tags: seq<string>)

  predicate KnownSlug(db: Db, slug: string) {
    exists j :: 0 <= j < |db.tags| && db.tags[j].slug == slug
  }

  /** The recipe carries a tag whose slug is one of `slugs`. */
  predicate HasAnyTag(db: Db, r: Recipe, slugs: seq<string>) {
    exists k, j :: 0 <= k < |slugs| && 0 <= j < |db.tags| && db.tags[j].slug == slugs[k] && db.tags[j].id in r.tags
  }

  /** The fields the filter form rejects: an unknown author or an unknown slug. */
  function FormErrors(db: Db, q: RecipeQuery): set<string> {
    (if q.author.Some? && q.author.value !in UserIds(db) then {"author"} else {})
    + (if exists k :: 0 <= k < |q.tags| && !KnownSlug(db, q.tags[k]) then {"tags"} else {})
  }

  function ByAuthor(recipes: seq<Recipe>, author: Option<int>): seq<Recipe> {
    if author.None? then recipes else Seqs.Filter(recipes, (r: Recipe) => r.author == author.value)
  }

  function ByTags(db: Db, recipes: seq<Recipe>, slugs: seq<string>): seq<Recipe> {
    if slugs == [] then recipes else Seqs.Filter(recipes, (r: Recipe) => HasAnyTag(db, r, slugs))
  }

  /** `super().qs` behind the filter backend: a form error is answered with 400,
      otherwise the listing narrowed by author and by tags (each recipe once). */
  function Declared(db: Db, q: RecipeQuery): Result<seq<Recipe>> {
    var errors := FormErrors(db, q);
    if errors != {} then Failure(Invalid(errors))
    else Success(ByTags(db, ByAuthor(Listing(db), q.author), q.tags))
  }

  function KeepIds(recipes: seq<Recipe>, ids: set<int>): seq<Recipe> {
    Seqs.Filter(recipes, (r: Recipe) => r.id in ids)
  }

  /** A query parameter `key=1`; `params` are the pairs of `query_params.items()`. */
  predicate Requested(params: seq<(string, string)>, key: string) {
    exists k :: 0 <= k < |params| && params[k] == (key, "1")
  }

  /** The queryset cut to the user's favourites and/or cart. */
  function Narrowed(db: Db, recipes: seq<Recipe>, user: int, favorites: bool, cart: bool): seq<Recipe> {
    var s := if favorites then KeepIds(recipes, TargetsOf(db.favorites, user)) else recipes;
    if cart then KeepIds(s, TargetsOf(db.carts, user)) else s
  }

  /** What `qs` returns: the declared filters, then, for a logged-in requester, the
      narrowing each `is_favorited=1` / `is_in_shopping_cart=1` parameter asks for. */
  function Filtered(db: Db, requester: Requester, q: RecipeQuery, params: seq<(string, string)>): Result<seq<Recipe>> {
    match Declared(db, q)
    case Failure(e) => Failure(e)
    case Success(s) =>
      if requester.Anonymous? then Success(s)
      else Success(Narrowed(db, s, requester.user.id,
                            Requested(params, "is_favorited"), Requested(params, "is_in_shopping_cart")))
  }

  /** GET /recipes/ with filters: the filter backend's form check, then `qs`. */
  method FilterRecipes(db: Db, requester: Requester, q: RecipeQuery, params: seq<(string, string)>)
    returns (r: Result<seq<Recipe>>)
    ensures r == Filtered(db, requester, q, params)
  {
    var declared := Declared(db, q);
    if declared.Failure? {
      return Failure(declared.error);
    }
    var queryset := declared.value;
    for i := 0 to |params|
      invariant requester.Anonymous? ==> queryset == declared.value
      invariant requester.Authenticated? ==>
        queryset == Narrowed(db, declared.value, requester.user.id,
                             Requested(params[..i], "is_favorited"), Requested(params[..i], "is_in_shopping_cart"))
    {
      var (key, value) := params[i];
      RequestedStep(params, i, "is_favorited");
      RequestedStep(params, i, "is_in_shopping_cart");
      if key == "is_favorited" && value == "1" && requester.Authenticated? {
        NarrowFavorites(db, declared.value, requester.user.id,
                        Requested(params[..i], "is_favorited"), Requested(params[..i], "is_in_shopping_cart"));
        queryset := KeepIds(queryset, TargetsOf(db.favorites, requester.user.id));
      }
      if key == "is_in_shopping_cart" && value == "1" && requester.Authenticated? {
        NarrowCart(db, declared.value, requester.user.id,
                   Requested(params[..i + 1], "is_favorited"), Requested(params[..i], "is_in_shopping_cart"));
        queryset := KeepIds(queryset, TargetsOf(db.carts, requester.user.id));
      }
    }
    assert params[..|params|] == params;
    r := Success(queryset);
  }

  lemma RequestedStep(params: seq<(string, string)>, i: int, key: string)
    requires 0 <= i < |params|
    ensures Requested(params[..i + 1], key) == (Requested(params[..i], key) || params[i] == (key, "1"))
  {
    assert params[..i + 1][i] == params[i];
    if Requested(params[..i], key) {
      var k :| 0 <= k < i && params[..i][k] == (key, "1");
      assert params[..i + 1][k] == (key, "1");
    }
    if Requested(params[..i + 1], key) && params[i] != (key, "1") {
      var k :| 0 <= k < i + 1 && params[..i + 1][k] == (key, "1");
      assert params[..i][k] == (key, "1");
    }
  }

  /** Keeping the ids of `a` and then those of `b` keeps the ids of both. */
  lemma KeepIdsTwice(recipes: seq<Recipe>, a: set<int>, b: set<int>)
    ensures KeepIds(KeepIds(recipes, a), b) == KeepIds(recipes, a * b)
  {
    Seqs.FilterTwice(recipes, (r: Recipe) => r.id in a, (r: Recipe) => r.id in b, (r: Recipe) => r.id in a * b);
  }

  /** One more `is_favorited=1` narrows as if it had been asked for from the start. */
  lemma NarrowFavorites(db: Db, recipes: seq<Recipe>, user: int, favorites: bool, cart: bool)
    ensures KeepIds(Narrowed(db, recipes, user, favorites, cart), TargetsOf(db.favorites, user))
            == Narrowed(db, recipes, user, true, cart)
  {
    var f, c := TargetsOf(db.favorites, user), TargetsOf(db.carts, user);
    if favorites && cart {
      KeepIdsTwice(recipes, f, c);
      KeepIdsTwice(recipes, f * c, f);
      assert f * c * f == f * c;
    } else if favorites {
      KeepIdsTwice(recipes, f, f);
      assert f * f == f;
    } else if cart {
      KeepIdsTwice(recipes, c, f);
      KeepIdsTwice(recipes, f, c);
      assert c * f == f * c;
    }
  }

  /** One more `is_in_shopping_cart=1` narrows as if it had been asked for from the
      start. */
  lemma NarrowCart(db: Db, recipes: seq<Recipe>, user: int, favorites: bool, cart: bool)
    ensures KeepIds(Narrowed(db, recipes, user, favorites, cart), TargetsOf(db.carts, user))
            == Narrowed(db, recipes, user, favorites, true)
  {
    var f, c := TargetsOf(db.favorites, user), TargetsOf(db.carts, user);
    var s := if favorites then KeepIds(recipes, f) else recipes;
    if cart {
      KeepIdsTwice(s, c, c);
      assert c * c == c;
    }
  }

  /** With a valid form the declared filters keep exactly the stored recipes by the
      requested author that carry one of the requested tags, newest first. */
  lemma DeclaredMeaning(db: Db, q: RecipeQuery)
    requires Integrity(db)
    requires FormErrors(db, q) == {}
    ensures Declared(db, q).Success?
    ensures var s := Declared(db, q).value;
      && Seqs.Pairwise(s, PublishedAfter)
      && forall r :: r in s <==>
           && r in db.recipes
           && (q.author.Some? ==> r.author == q.author.value)
           && (q.tags != [] ==> HasAnyTag(db, r, q.tags))
  {
    ListingNewestFirst(db);
    var l := Listing(db);
    var s1 := ByAuthor(l, q.author);
    if q.author.Some? {
      var keep := (r: Recipe) => r.author == q.author.value;
      Seqs.FilterMembers(l, keep);
      Seqs.FilterPairwise(l, keep, PublishedAfter);
    }
    if q.tags != [] {
      var keep := (r: Recipe) => HasAnyTag(db, r, q.tags);
      Seqs.FilterMembers(s1, keep);
      Seqs.FilterPairwise(s1, keep, PublishedAfter);
    }
  }

  /** Narrowing keeps exactly the recipes the user marked as asked, in order. */
  lemma NarrowedMeaning(db: Db, recipes: seq<Recipe>, user: int, favorites: bool, cart: bool)
    requires Seqs.Pairwise(recipes, PublishedAfter)
    ensures var s := Narrowed(db, recipes, user, favorites, cart);
      && Seqs.Pairwise(s, PublishedAfter)
      && forall r :: r in s <==>
           && r in recipes
           && (favorites ==> Pair(user, r.id) in db.favorites)
           && (cart ==> Pair(user, r.id) in db.carts)
  {
    var f, c := TargetsOf(db.favorites, user), TargetsOf(db.carts, user);
    var s := if favorites then KeepIds(recipes, f) else recipes;
    if favorites {
      Seqs.FilterMembers(recipes, (r: Recipe) => r.id in f);
      Seqs.FilterPairwise(recipes, (r: Recipe) => r.id in f, PublishedAfter);
    }
    if cart {
      Seqs.FilterMembers(s, (r: Recipe) => r.id in c);
      Seqs.FilterPairwise(s, (r: Recipe) => r.id in c, PublishedAfter);
    }
    forall id ensures id in f <==> Pair(user, id) in db.favorites {
      if Pair(user, id) in db.favorites {
        assert Pair(user, id).target == id;
      }
    }
    forall id ensures id in c <==> Pair(user, id) in db.carts {
      if Pair(user, id) in db.carts {
        assert Pair(user, id).target == id;
      }
    }
  }

  /** A rejected form is answered with the failing fields. Otherwise the result holds
      exactly the stored recipes by the requested author that carry one of the
      requested tags and, for a logged-in requester who asks, that are among their
      favourites or in their cart; each recipe once, newest first. An anonymous
      requester's flags are ignored. */
  lemma FilteredMeaning(db: Db, requester: Requester, q: RecipeQuery, params: seq<(string, string)>)
    requires Integrity(db)
    ensures FormErrors(db, q) != {} ==> Filtered(db, requester, q, params) == Failure(Invalid(FormErrors(db, q)))
    ensures FormErrors(db, q) == {} ==> Filtered(db, requester, q, params).Success?
    ensures FormErrors(db, q) == {} ==>
      var s := Filtered(db, requester, q, params).value;
      && Seqs.Pairwise(s, PublishedAfter)
      && forall r :: r in s <==>
           && r in db.recipes
           && (q.author.Some? ==> r.author == q.author.value)
           && (q.tags != [] ==> HasAnyTag(db, r, q.tags))
           && (requester.Authenticated? && Requested(params, "is_favorited") ==> IsFavorited(db, requester, r.id))
           && (requester.Authenticated? && Requested(params, "is_in_shopping_cart") ==> IsInShoppingCart(db, requester, r.id))
  {
    if FormErrors(db, q) == {} {
      DeclaredMeaning(db, q);
      if requester.Authenticated? {
        NarrowedMeaning(db, Declared(db, q).value, requester.user.id,
                        Requested(params, "is_favorited"), Requested(params, "is_in_shopping_cart"));
      }
    }
  }

  /** Asking for the slugs "breakfast" and "vegan" returns every recipe carrying
      either tag, newest first, a recipe carrying both only once. */
  lemma TagFilterExample()
    ensures
      var breakfast := Tag(1, "Breakfast", "#E26C2D", "breakfast");
      var vegan := Tag(2, "Vegan", "#49B64E", "vegan");
      var lunch := Tag(3, "Lunch", "#8775D2", "lunch");
      var a := Recipe(1, 0, 1, "Porridge", "a.png", "", 10, {1});
      var b := Recipe(2, 1, 1, "Tofu scramble", "b.png", "", 15, {1, 2});
      var c := Recipe(3, 2, 1, "Soup", "c.png", "", 40, {3});
      var db := Db([], [breakfast, vegan, lunch], [], [a, b, c], [], [], [], [], 4, 3);
      Declared(db, RecipeQuery(None, ["breakfast", "vegan"])) == Success([b, a])
  {
    var breakfast := Tag(1, "Breakfast", "#E26C2D", "breakfast");
    var vegan := Tag(2, "Vegan", "#49B64E", "vegan");
    var lunch := Tag(3, "Lunch", "#8775D2", "lunch");
    var a := Recipe(1, 0, 1, "Porridge", "a.png", "", 10, {1});
    var b := Recipe(2, 1, 1, "Tofu scramble", "b.png", "", 15, {1, 2});
    var c := Recipe(3, 2, 1, "Soup", "c.png", "", 40, {3});
    var tags := [breakfast, vegan, lunch];
    var db := Db([], tags, [], [a, b, c], [], [], [], [], 4, 3);
    var slugs := ["breakfast", "vegan"];
    assert KnownSlug(db, slugs[0]) by { assert tags[0].slug == slugs[0]; }
    assert KnownSlug(db, slugs[1]) by { assert tags[1].slug == slugs[1]; }
    assert FormErrors(db, RecipeQuery(None, slugs)) == {};
    assert Listing(db) == [c, b, a];
    assert HasAnyTag(db, a, slugs) by { assert tags[0].slug == slugs[0] && tags[0].id in a.tags; }
    assert HasAnyTag(db, b, slugs) by { assert tags[0].slug == slugs[0] && tags[0].id in b.tags; }
    assert !HasAnyTag(db, c, slugs) by {
      forall k, j | 0 <= k < |slugs| && 0 <= j < |tags| && tags[j].slug == slugs[k]
        ensures tags[j].id !in c.tags
      {
        assert j < 2 by { assert tags[2].slug != slugs[0] && tags[2].slug != slugs[1]; }
      }
    }
    var keep := (r: Recipe) => HasAnyTag(db, r, slugs);
    assert Seqs.Filter([c, b, a], keep) == [b, a] by {
      assert [c, b, a][1..] == [b, a];
      Seqs.FilterAll([b, a], keep);
    }
  }
}
