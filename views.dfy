/**
 * The recipe views (backend/api/views.py, RecipeViewSet and RecipeLinkView):
 * create and update through validation, destroy with its storage clean-up,
 * the shopping-list download, and issuing and resolving short links.
 */
module RecipeViews {
  import opened Wrappers
  import opened Dicts
  import opened Decimal
  import opened Entities
  import opened ShortLinks
  import opened Database
  import opened ShoppingList
  import opened RecipeWrite

  /** 404 from `get_object`, or 400 with the validation errors. */
  datatype ViewError = NotFound | Invalid(errors: seq<FieldError>)

  /** The first line of the downloaded shopping list. */
  const CartHeader := "Список покупок: \n"

  /** `{REDIRECT_URL}/s/{code}/` */
  function ShortUrl(domain: string, code: string): string {
    domain + "/s/" + code + "/"
  }

  /** `{REDIRECT_URL}/recipes/{id}`, without a trailing slash. */
  function RecipeUrl(domain: string, id: RecipeId): string {
    domain + "/recipes/" + IntToString(id)
  }

  /** The short URL gives its code back: different codes never share a URL. */
  lemma ShortUrlInjective(domain: string, a: string, b: string)
    requires ShortUrl(domain, a) == ShortUrl(domain, b)
    ensures a == b
  {
    var n := |domain| + 3;
    assert ShortUrl(domain, a)[n..|ShortUrl(domain, a)| - 1] == a;
    assert ShortUrl(domain, b)[n..|ShortUrl(domain, b)| - 1] == b;
  }

  /** `RecipeLinkView.get`: an unknown code is not found; a known one redirects to its recipe's page. */
  function ResolveLink(links: seq<ShortLink>, domain: string, slug: string): (r: Result<string, ViewError>)
    ensures r.Err? <==> slug !in Codes(links)
    ensures r.Err? ==> r.error == NotFound
    ensures r.Ok? ==> exists l :: l in links && l.linkUri == slug && r.value == RecipeUrl(domain, l.recipe)
  {
    match FindByCode(links, slug)
    case None => Err(NotFound)
    case Some(l) => Ok(RecipeUrl(domain, l.recipe))
  }

  /** The code issued for a recipe leads back to that recipe's page. */
  lemma LinkRoundTrip(links: seq<ShortLink>, domain: string, recipe: RecipeId)
    requires UniqueLinks(links) && FindByRecipe(links, recipe).Some?
    ensures ResolveLink(links, domain, FindByRecipe(links, recipe).value.linkUri) == Ok(RecipeUrl(domain, recipe))
  {
    FindByCodeOfRow(links, FindByRecipe(links, recipe).value);
  }

  /**
   * `get_link`: a recipe that has no short link yet is given one, whose code
   * is the shortest free prefix of the fresh UUID's hex form; a recipe that
   * has one keeps it. Either way the reply is that link's short URL.
   */
  method GetLink(db: Db, recipe: RecipeId, hex: string, domain: string) returns (r: Result<string, ViewError>)
    requires db.Valid() && IsUuidHex(hex)
    requires recipe in db.recipes && FindByRecipe(db.shortLinks, recipe).None? ==> HasFreePrefix(hex, Codes(db.shortLinks))
    modifies db`shortLinks
    ensures db.Valid()
    ensures recipe !in db.recipes ==> r == Err(NotFound) && db.shortLinks == old(db.shortLinks)
    ensures recipe in db.recipes ==>
              r.Ok? && FindByRecipe(db.shortLinks, recipe).Some? &&
              r.value == ShortUrl(domain, FindByRecipe(db.shortLinks, recipe).value.linkUri)
    ensures old(FindByRecipe(db.shortLinks, recipe)).Some? ==> db.shortLinks == old(db.shortLinks)
    ensures recipe in db.recipes && old(FindByRecipe(db.shortLinks, recipe)).None? ==>
              exists code :: db.shortLinks == old(db.shortLinks) + [ShortLink(recipe, code)] &&
                MinCodeLength <= |code| <= HexLength && code == hex[..|code|] && code !in old(Codes(db.shortLinks)) &&
                forall m :: MinCodeLength <= m < |code| ==> hex[..m] in old(Codes(db.shortLinks))
  {
    if recipe !in db.recipes {
      return Err(NotFound);
    }
    if FindByRecipe(db.shortLinks, recipe).None? {
      var code := LinkUriDefault(hex, Codes(db.shortLinks));
      AppendKeepsUnique(db.shortLinks, ShortLink(recipe, code));
      db.shortLinks := db.shortLinks + [ShortLink(recipe, code)];
      assert FindByRecipe(db.shortLinks, recipe).value == ShortLink(recipe, code) by {
        var found := FindByRecipe(db.shortLinks, recipe).value;
        var j :| 0 <= j < |db.shortLinks| && db.shortLinks[j] == found;
        assert db.shortLinks[|db.shortLinks| - 1].recipe == recipe;
      }
    }
    r := Ok(ShortUrl(domain, FindByRecipe(db.shortLinks, recipe).value.linkUri));
  }

  /** Asking twice for a recipe's short link gives the same URL and creates at most one link. */
  method GetLinkTwice(db: Db, recipe: RecipeId, hex1: string, hex2: string, domain: string)
    returns (first: Result<string, ViewError>, second: Result<string, ViewError>)
    requires db.Valid() && IsUuidHex(hex1) && IsUuidHex(hex2)
    requires recipe in db.recipes && FindByRecipe(db.shortLinks, recipe).None? ==> HasFreePrefix(hex1, Codes(db.shortLinks))
    modifies db`shortLinks
    ensures db.Valid()
    ensures first == second
    ensures recipe in db.recipes <==> first.Ok?
    ensures |db.shortLinks| <= |old(db.shortLinks)| + 1
  {
    first := GetLink(db, recipe, hex1, domain);
    second := GetLink(db, recipe, hex2, domain);
  }

  /** The ingredients of a valid join table all exist, so each dict key has a catalogue entry. */
  lemma CartKeysKnown(rows: seq<RecipeIngredient>, recipes: map<RecipeId, Recipe>, catalogue: map<IngredientId, Ingredient>,
                      cart: seq<RecipeId>)
    requires RowsValid(rows, recipes, catalogue)
    ensures var d := Aggregate(CartRows(rows, cart));
      forall n :: 0 <= n < |d.keys| ==> d.keys[n] in catalogue
  {
    var d := Aggregate(CartRows(rows, cart));
    CartAggregateMeaning(rows, cart);
    forall n | 0 <= n < |d.keys| ensures d.keys[n] in catalogue {
      assert d.keys[n] in d.values;
      assert InCart(rows, cart, d.keys[n]);
      var c :| 0 <= c < |cart| && Uses(rows, cart[c], d.keys[n]);
      var x :| x in rows && x.recipe == cart[c] && x.ingredient == d.keys[n];
      var k :| 0 <= k < |rows| && rows[k] == x;
    }
  }

  /**
   * `download_shopping_cart`: the header line, then one line per ingredient
   * of the requester's cart with its total; `cart` is the requester's
   * shopping list as the query returns it.
   */
  method DownloadShoppingCart(db: Db, user: UserId, cart: seq<RecipeId>) returns (response: Response)
    requires db.Valid()
    requires forall r :: r in cart <==> (user, r) in db.shoppingList
    requires Distinct(cart)
    ensures fresh(response)
    ensures var d := Aggregate(CartRows(db.recipeIngredients, cart));
      forall n :: 0 <= n < |d.keys| ==> d.keys[n] in db.ingredients
    ensures var d := Aggregate(CartRows(db.recipeIngredients, cart));
      response.content == CartHeader + CartText(d.keys, d.values, db.ingredients)
  {
    var d := ShoppingListAsDict(cart, db.recipeIngredients);
    CartKeysKnown(db.recipeIngredients, db.recipes, db.ingredients, cart);
    response := new Response(CartHeader);
    FillCartFile(d, db.ingredients, response);
  }

  /**
   * `create`: the body is validated as a whole (no field may be missing); a
   * refused body changes nothing, an accepted one is saved with the
   * requester as author and the clock reading as publication date.
   */
  method CreateRecipe(db: Db, author: UserId, p: Payload, now: int) returns (r: Result<RecipeId, ViewError>)
    requires db.Valid() && author in db.users
    modifies db`recipes, db`recipeIngredients, db`nextRecipeId
    ensures db.Valid()
    ensures Validate(p, false, db.ingredients, db.tags).Err? ==>
              r == Err(Invalid(Validate(p, false, db.ingredients, db.tags).error)) &&
              db.recipes == old(db.recipes) && db.recipeIngredients == old(db.recipeIngredients) &&
              db.nextRecipeId == old(db.nextRecipeId)
    ensures Validate(p, false, db.ingredients, db.tags).Ok? ==>
              var v := Validate(p, false, db.ingredients, db.tags).value;
              r == Ok(old(db.nextRecipeId)) && r.value !in old(db.recipes) &&
              db.recipes == old(db.recipes)[r.value := NewRecipe(r.value, author, v.name.value, v.text.value,
                                                                 v.cookingTime.value, v.image.value, now, Elems(v.tags))] &&
              db.nextRecipeId == old(db.nextRecipeId) + 1 &&
              db.recipeIngredients == old(db.recipeIngredients) + RowsFor(r.value, v.ingredients.keys, v.ingredients.values) &&
              RowsOf(db.recipeIngredients, r.value) == RowsFor(r.value, v.ingredients.keys, v.ingredients.values)
  {
    match Validate(p, false, db.ingredients, db.tags)
    case Err(errors) =>
      r := Err(Invalid(errors));
    case Ok(v) =>
      var id := Create(db, author, v, now);
      r := Ok(id);
  }

  /**
   * `partial_update` (the only update route, since PUT is not among the
   * allowed methods): a missing recipe is not found, a refused body changes
   * nothing, an accepted one replaces the recipe's sent fields, tags and rows.
   */
  method UpdateRecipe(db: Db, id: RecipeId, p: Payload) returns (err: Option<ViewError>)
    requires db.Valid()
    modifies db`recipes, db`recipeIngredients, db`storageLog
    ensures db.Valid()
    ensures id !in old(db.recipes) ==> err == Some(NotFound)
    ensures id in old(db.recipes) && Validate(p, true, db.ingredients, db.tags).Err? ==>
              err == Some(Invalid(Validate(p, true, db.ingredients, db.tags).error))
    ensures err.Some? ==> db.recipes == old(db.recipes) && db.recipeIngredients == old(db.recipeIngredients) &&
                          db.storageLog == old(db.storageLog)
    ensures id in old(db.recipes) && Validate(p, true, db.ingredients, db.tags).Ok? ==>
              var v := Validate(p, true, db.ingredients, db.tags).value;
              err == None &&
              db.recipes == old(db.recipes)[id := Updated(old(db.recipes[id]), v)] &&
              db.recipeIngredients == Without(old(db.recipeIngredients), id) + RowsFor(id, v.ingredients.keys, v.ingredients.values) &&
              db.storageLog == old(db.storageLog) + (if v.image.Some? then [ImageDeleted(id, old(db.recipes[id].image))] else [])
  {
    if id !in db.recipes {
      return Some(NotFound);
    }
    match Validate(p, true, db.ingredients, db.tags)
    case Err(errors) =>
      err := Some(Invalid(errors));
    case Ok(v) =>
      Update(db, id, v);
      err := None;
  }

  /** The short links of every recipe but `r`, in table order. */
  function LinksWithout(links: seq<ShortLink>, r: RecipeId): (s: seq<ShortLink>)
    ensures forall l :: l in s <==> l in links && l.recipe != r
  {
    if links == [] then []
    else LinksWithout(links[..|links| - 1], r) + (if links[|links| - 1].recipe != r then [links[|links| - 1]] else [])
  }

  lemma {:induction false} LinksWithoutUnique(links: seq<ShortLink>, r: RecipeId)
    requires UniqueLinks(links)
    ensures UniqueLinks(LinksWithout(links, r))
    decreases |links|
  {
    if links != [] {
      var front, last := links[..|links| - 1], links[|links| - 1];
      LinksWithoutUnique(front, r);
      if last.recipe != r {
        var s := LinksWithout(links, r);
        assert s == LinksWithout(front, r) + [last];
        forall i | 0 <= i < |s| - 1 ensures s[i].recipe != last.recipe && s[i].linkUri != last.linkUri {
          assert s[i] in LinksWithout(front, r);
          var k :| 0 <= k < |front| && front[k] == s[i];
          assert links[k] == s[i];
        }
      }
    }
  }

  /** Dropping a recipe's link keeps the link table's constraints and leaves no link of that recipe. */
  lemma DropLinkValid(links: seq<ShortLink>, recipes: map<RecipeId, Recipe>, r: RecipeId)
    requires LinksValid(links, recipes)
    ensures LinksValid(LinksWithout(links, r), recipes)
    ensures forall i :: 0 <= i < |LinksWithout(links, r)| ==> LinksWithout(links, r)[i].recipe != r
  {
    var s := LinksWithout(links, r);
    LinksWithoutUnique(links, r);
    forall i | 0 <= i < |s| ensures s[i].recipe != r && s[i].recipe in recipes && MinCodeLength <= |s[i].linkUri| <= HexLength {
      assert s[i] in links;
    }
  }

  /** The cascade on the favorite and cart relations: every pair naming the recipe goes. */
  method DropRelations(db: Db, id: RecipeId)
    requires db.Valid()
    modifies db`favorites, db`shoppingList
    ensures db.Valid()
    ensures db.favorites == set p | p in old(db.favorites) && p.1 != id
    ensures db.shoppingList == set p | p in old(db.shoppingList) && p.1 != id
  {
    db.favorites := set p | p in db.favorites && p.1 != id;
    db.shoppingList := set p | p in db.shoppingList && p.1 != id;
  }

  /** The cascade on the short-link table (one-to-one with the recipe). */
  method DropLink(db: Db, id: RecipeId)
    requires db.Valid()
    modifies db`shortLinks
    ensures db.Valid()
    ensures db.shortLinks == LinksWithout(old(db.shortLinks), id)
    ensures forall i :: 0 <= i < |db.shortLinks| ==> db.shortLinks[i].recipe != id
  {
    DropLinkValid(db.shortLinks, db.recipes, id);
    db.shortLinks := LinksWithout(db.shortLinks, id);
  }

  /** The record itself goes once nothing refers to it any more. */
  method DropRecord(db: Db, id: RecipeId)
    requires db.Valid()
    requires forall i :: 0 <= i < |db.recipeIngredients| ==> db.recipeIngredients[i].recipe != id
    requires forall p :: p in db.favorites ==> p.1 != id
    requires forall p :: p in db.shoppingList ==> p.1 != id
    requires forall i :: 0 <= i < |db.shortLinks| ==> db.shortLinks[i].recipe != id
    modifies db`recipes
    ensures db.Valid()
    ensures db.recipes == old(db.recipes) - {id}
  {
    db.recipes := db.recipes - {id};
  }

  /** `instance.delete()` with its cascades: the recipe, its rows, its favorite and cart entries and its short link. */
  method DeleteRecipe(db: Db, id: RecipeId)
    requires db.Valid()
    modifies db`recipes, db`recipeIngredients, db`favorites, db`shoppingList, db`shortLinks
    ensures db.Valid()
    ensures db.recipes == old(db.recipes) - {id}
    ensures db.recipeIngredients == Without(old(db.recipeIngredients), id)
    ensures db.favorites == set p | p in old(db.favorites) && p.1 != id
    ensures db.shoppingList == set p | p in old(db.shoppingList) && p.1 != id
    ensures db.shortLinks == LinksWithout(old(db.shortLinks), id)
  {
    ClearRows(db, id);
    DropRelations(db, id);
    DropLink(db, id);
    DropRecord(db, id);
  }

  /**
   * `destroy` through `perform_destroy`: a missing recipe is not found;
   * otherwise the image is deleted from storage first and the record after.
   */
  method Destroy(db: Db, id: RecipeId) returns (err: Option<ViewError>)
    requires db.Valid()
    modifies db`recipes, db`recipeIngredients, db`favorites, db`shoppingList, db`shortLinks, db`storageLog
    ensures db.Valid()
    ensures id !in old(db.recipes) ==> err == Some(NotFound) && unchanged(db)
    ensures id in old(db.recipes) ==>
              err == None &&
              db.storageLog == old(db.storageLog) + [ImageDeleted(id, old(db.recipes[id].image)), RecipeDeleted(id)] &&
              db.recipes == old(db.recipes) - {id} &&
              db.recipeIngredients == Without(old(db.recipeIngredients), id) &&
              db.favorites == (set p | p in old(db.favorites) && p.1 != id) &&
              db.shoppingList == (set p | p in old(db.shoppingList) && p.1 != id) &&
              db.shortLinks == LinksWithout(old(db.shortLinks), id)
  {
    if id !in db.recipes {
      return Some(NotFound);
    }
    db.storageLog := db.storageLog + [ImageDeleted(id, db.recipes[id].image), RecipeDeleted(id)];
    DeleteRecipe(db, id);
    err := None;
  }
}
