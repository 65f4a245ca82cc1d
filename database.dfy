/**
 * The database: every table the core reads or writes, as fields of one
 * object, and the constraints that hold between them.
 */
module Database {
  import opened Entities
  import opened ShortLinks

  /** What the image storage is asked to do, in order. */
  datatype StorageEvent = ImageDeleted(recipe: RecipeId, image: ImageFile) | RecipeDeleted(recipe: RecipeId)

  predicate TagsValid(tags: map<TagId, Tag>) {
    (forall id :: id in tags ==> tags[id].id == id) && UniqueSlugs(tags)
  }

  predicate IngredientsValid(ingredients: map<IngredientId, Ingredient>) {
    (forall id :: id in ingredients ==> ingredients[id].id == id) && UniqueNameAndUnit(ingredients)
  }

  /** Every recipe is stored under its id, by an existing author, with existing tags, and passes its validators. */
  predicate RecipesValid(recipes: map<RecipeId, Recipe>, users: set<UserId>, tags: map<TagId, Tag>, nextId: RecipeId) {
    forall id :: id in recipes ==>
      recipes[id].id == id && id < nextId && ValidRecipe(recipes[id]) &&
      recipes[id].author in users && recipes[id].tags <= tags.Keys
  }

  /** The join table: unique pairs, amounts at least 1, both ends existing. */
  predicate RowsValid(rows: seq<RecipeIngredient>, recipes: map<RecipeId, Recipe>, ingredients: map<IngredientId, Ingredient>) {
    UniqueRecipeIngredient(rows) && AmountsValid(rows) &&
    forall i :: 0 <= i < |rows| ==> rows[i].recipe in recipes && rows[i].ingredient in ingredients
  }

  /** A user -> recipe relation (favorites, shopping list) between existing records. */
  predicate RecipeRelationValid(rel: set<(UserId, RecipeId)>, users: set<UserId>, recipes: map<RecipeId, Recipe>) {
    forall p :: p in rel ==> p.0 in users && p.1 in recipes
  }

  /** Subscriptions are directed pairs of existing users; nobody is subscribed to themselves. */
  predicate SubscriptionsValid(subscriptions: set<(UserId, UserId)>, users: set<UserId>) {
    forall p :: p in subscriptions ==> p.0 in users && p.1 in users && p.0 != p.1
  }

  predicate LinksValid(links: seq<ShortLink>, recipes: map<RecipeId, Recipe>) {
    UniqueLinks(links) &&
    forall i :: 0 <= i < |links| ==>
      links[i].recipe in recipes && MinCodeLength <= |links[i].linkUri| <= HexLength
  }

  class Db {
    var users: set<UserId>
    var tags: map<TagId, Tag>
    var ingredients: map<IngredientId, Ingredient>
    var recipes: map<RecipeId, Recipe>
    var recipeIngredients: seq<RecipeIngredient>
    /** (user, recipe): the recipe is among the user's favorites. */
    var favorites: set<(UserId, RecipeId)>
    /** (user, recipe): the recipe is in the user's shopping list. */
    var shoppingList: set<(UserId, RecipeId)>
    /** (subscriber, author): not symmetric. */
    var subscriptions: set<(UserId, UserId)>
    var shortLinks: seq<ShortLink>
    /** The id the next created recipe receives (auto-increment). */
    var nextRecipeId: RecipeId
    var storageLog: seq<StorageEvent>

    /** The invariants every operation keeps (schema constraints, validators, view guards); the storage log is outside the database. */
    predicate Valid()
      reads this`users, this`tags, this`ingredients, this`recipes, this`recipeIngredients,
            this`favorites, this`shoppingList, this`subscriptions, this`shortLinks, this`nextRecipeId
    {
      TagsValid(tags) && IngredientsValid(ingredients) &&
      RecipesValid(recipes, users, tags, nextRecipeId) &&
      RowsValid(recipeIngredients, recipes, ingredients) &&
      RecipeRelationValid(favorites, users, recipes) &&
      RecipeRelationValid(shoppingList, users, recipes) &&
      SubscriptionsValid(subscriptions, users) &&
      LinksValid(shortLinks, recipes)
    }

    /** A database with users, tags and ingredients loaded and nothing else yet. */
    constructor (users: set<UserId>, tags: map<TagId, Tag>, ingredients: map<IngredientId, Ingredient>)
      requires TagsValid(tags) && IngredientsValid(ingredients)
      ensures Valid()
      ensures this.users == users && this.tags == tags && this.ingredients == ingredients
      ensures recipes == map[] && recipeIngredients == [] && shortLinks == [] && storageLog == []
      ensures favorites == {} && shoppingList == {} && subscriptions == {}
    {
      this.users, this.tags, this.ingredients := users, tags, ingredients;
      recipes, recipeIngredients, shortLinks, storageLog := map[], [], [], [];
      favorites, shoppingList, subscriptions := {}, {}, {};
      nextRecipeId := 1;
    }
  }
}
