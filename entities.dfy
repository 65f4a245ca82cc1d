/**
 * The persisted entities of the recipe site (backend/recipes/models.py) and
 * the field validators and uniqueness constraints the database enforces on
 * them, stated as predicates over table contents.
 */
module Entities {
  import opened Dicts

  type UserId = int
  type TagId = int
  type IngredientId = int
  type RecipeId = int

  const MinCookingTime := 1
  const MinAmount := 1

  datatype Tag = Tag(id: TagId, name: string, slug: string)

  datatype Ingredient = Ingredient(id: IngredientId, name: string, measurementUnit: string)

  /** A stored image file: its format and its base64 content (file naming is the storage's business). */
  datatype ImageFile = ImageFile(format: string, content: string)

  /** `pubDate` is the clock reading taken when the record was created. */
  datatype Recipe = Recipe(
    id: RecipeId,
    author: UserId,
    name: string,
    text: string,
    cookingTime: int,
    image: ImageFile,
    pubDate: int,
    tags: set<TagId>,
    timesFavorited: int)

  /** One row of the recipe/ingredient join table, carrying the amount. */
  datatype RecipeIngredient = RecipeIngredient(recipe: RecipeId, ingredient: IngredientId, amount: int)

  /** A freshly created recipe has not been favorited yet. */
  function NewRecipe(id: RecipeId, author: UserId, name: string, text: string, cookingTime: int,
                     image: ImageFile, pubDate: int, tags: set<TagId>): (r: Recipe)
    ensures r.id == id && r.author == author && r.pubDate == pubDate && r.tags == tags
    ensures r.timesFavorited == 0
    ensures cookingTime >= MinCookingTime ==> ValidRecipe(r)
  {
    Recipe(id, author, name, text, cookingTime, image, pubDate, tags, 0)
  }

  predicate ValidRecipe(r: Recipe) {
    r.cookingTime >= MinCookingTime && r.timesFavorited >= 0
  }

  /** Tag slugs are unique. */
  predicate UniqueSlugs(tags: map<TagId, Tag>) {
    forall a, b :: a in tags && b in tags && a != b ==> tags[a].slug != tags[b].slug
  }

  /** No two ingredients share both name and measurement unit. */
  predicate UniqueNameAndUnit(ingredients: map<IngredientId, Ingredient>) {
    forall a, b :: a in ingredients && b in ingredients && a != b ==>
      (ingredients[a].name, ingredients[a].measurementUnit) != (ingredients[b].name, ingredients[b].measurementUnit)
  }

  /** The pair (recipe, ingredient) is unique among join rows. */
  predicate UniqueRecipeIngredient(rows: seq<RecipeIngredient>) {
    forall i, j :: 0 <= i < j < |rows| ==>
      (rows[i].recipe, rows[i].ingredient) != (rows[j].recipe, rows[j].ingredient)
  }

  predicate AmountsValid(rows: seq<RecipeIngredient>) {
    forall i :: 0 <= i < |rows| ==> rows[i].amount >= MinAmount
  }

  /** The rows of recipe `r`, in table order: `recipe.ingredients` through the join table. */
  function RowsOf(rows: seq<RecipeIngredient>, r: RecipeId): (s: seq<RecipeIngredient>)
    ensures forall x :: x in s <==> x in rows && x.recipe == r
  {
    if rows == [] then []
    else RowsOf(rows[..|rows| - 1], r) + (if rows[|rows| - 1].recipe == r then [rows[|rows| - 1]] else [])
  }

  /** The rows of every recipe other than `r`: what remains after `r`'s rows are cleared. */
  function Without(rows: seq<RecipeIngredient>, r: RecipeId): (s: seq<RecipeIngredient>)
    ensures forall x :: x in s <==> x in rows && x.recipe != r
  {
    if rows == [] then []
    else Without(rows[..|rows| - 1], r) + (if rows[|rows| - 1].recipe != r then [rows[|rows| - 1]] else [])
  }

  /** One join row per entry of an ingredient -> amount dict, in the dict's order. */
  function RowsFor(r: RecipeId, keys: seq<IngredientId>, amounts: map<IngredientId, int>): (s: seq<RecipeIngredient>)
    requires forall i :: 0 <= i < |keys| ==> keys[i] in amounts
    ensures |s| == |keys|
    ensures forall i :: 0 <= i < |s| ==> s[i] == RecipeIngredient(r, keys[i], amounts[keys[i]])
  {
    if keys == [] then []
    else RowsFor(r, keys[..|keys| - 1], amounts) + [RecipeIngredient(r, keys[|keys| - 1], amounts[keys[|keys| - 1]])]
  }

  lemma {:induction false} RowsOfAppend(a: seq<RecipeIngredient>, b: seq<RecipeIngredient>, r: RecipeId)
    ensures RowsOf(a + b, r) == RowsOf(a, r) + RowsOf(b, r)
    decreases |b|
  {
    if b == [] {
      assert a + b == a;
    } else {
      var b' := b[..|b| - 1];
      assert (a + b)[..|a + b| - 1] == a + b';
      RowsOfAppend(a, b', r);
    }
  }

  lemma {:induction false} WithoutAppend(a: seq<RecipeIngredient>, b: seq<RecipeIngredient>, r: RecipeId)
    ensures Without(a + b, r) == Without(a, r) + Without(b, r)
    decreases |b|
  {
    if b == [] {
      assert a + b == a;
    } else {
      var b' := b[..|b| - 1];
      assert (a + b)[..|a + b| - 1] == a + b';
      WithoutAppend(a, b', r);
    }
  }

  lemma {:induction false} RowsOfRowsFor(r: RecipeId, other: RecipeId, keys: seq<IngredientId>, amounts: map<IngredientId, int>)
    requires forall i :: 0 <= i < |keys| ==> keys[i] in amounts
    ensures RowsOf(RowsFor(r, keys, amounts), r) == RowsFor(r, keys, amounts)
    ensures other != r ==> RowsOf(RowsFor(r, keys, amounts), other) == []
    ensures Without(RowsFor(r, keys, amounts), r) == []
    decreases |keys|
  {
    if keys != [] {
      var s := RowsFor(r, keys, amounts);
      assert s[..|s| - 1] == RowsFor(r, keys[..|keys| - 1], amounts);
      RowsOfRowsFor(r, other, keys[..|keys| - 1], amounts);
    }
  }

  lemma {:induction false} RowsOfWithout(rows: seq<RecipeIngredient>, r: RecipeId, other: RecipeId)
    ensures RowsOf(Without(rows, r), r) == []
    ensures other != r ==> RowsOf(Without(rows, r), other) == RowsOf(rows, other)
    decreases |rows|
  {
    if rows != [] {
      var front := rows[..|rows| - 1];
      var last := rows[|rows| - 1];
      RowsOfWithout(front, r, other);
      var tail := if last.recipe != r then [last] else [];
      RowsOfAppend(Without(front, r), tail, r);
      RowsOfAppend(Without(front, r), tail, other);
    }
  }

  /**
   * Clearing a recipe's rows and recreating them from a dict leaves that
   * recipe with exactly the dict's rows and every other recipe as it was.
   */
  lemma ReplaceRows(rows: seq<RecipeIngredient>, r: RecipeId, keys: seq<IngredientId>,
                    amounts: map<IngredientId, int>, other: RecipeId)
    requires forall i :: 0 <= i < |keys| ==> keys[i] in amounts
    ensures RowsOf(Without(rows, r) + RowsFor(r, keys, amounts), r) == RowsFor(r, keys, amounts)
    ensures other != r ==> RowsOf(Without(rows, r) + RowsFor(r, keys, amounts), other) == RowsOf(rows, other)
  {
    RowsOfAppend(Without(rows, r), RowsFor(r, keys, amounts), r);
    RowsOfAppend(Without(rows, r), RowsFor(r, keys, amounts), other);
    RowsOfWithout(rows, r, other);
    RowsOfRowsFor(r, other, keys, amounts);
  }

  /** Under the (recipe, ingredient) constraint a recipe lists each ingredient at most once. */
  lemma {:induction false} RowsOfDistinctIngredients(rows: seq<RecipeIngredient>, r: RecipeId)
    requires UniqueRecipeIngredient(rows)
    ensures forall i, j :: 0 <= i < j < |RowsOf(rows, r)| ==> RowsOf(rows, r)[i].ingredient != RowsOf(rows, r)[j].ingredient
    decreases |rows|
  {
    if rows != [] {
      var front := rows[..|rows| - 1];
      RowsOfDistinctIngredients(front, r);
      var s := RowsOf(rows, r);
      var last := rows[|rows| - 1];
      if last.recipe == r {
        forall i | 0 <= i < |s| - 1 ensures s[i].ingredient != last.ingredient {
          assert s[i] in RowsOf(front, r);
          var k :| 0 <= k < |front| && front[k] == s[i];
          assert rows[k] == s[i];
        }
      }
    }
  }

  /** Recipes listed newest first (the default ordering by descending publication date). */
  predicate NewestFirst(rs: seq<Recipe>) {
    forall i, j :: 0 <= i < j < |rs| ==> rs[i].pubDate >= rs[j].pubDate
  }
}
