# Foodgram core, modelled in Dafny

Foodgram is a recipe-sharing backend. Users publish recipes. Each recipe has tags, an image, and ingredients with
amounts. Users can favorite recipes, put them in a shopping cart, subscribe to other users, download the
cart's summed shopping list as text, and share a recipe through a short link. This project models the logic
under the web plumbing and proves what it promises:

- the add-once / remove-once relation toggles;
- the shopping-list aggregation and its text rendering;
- short-code generation and resolution;
- validation, creation and replacement of recipes;
- the image data-URI check;
- the list filters;
- the database constraints every operation keeps.

The database is one object, `Database.Db`. Each table is a field of it:
- users as a set of ids;
- tags, ingredients and recipes as maps from id to record;
- the recipe/ingredient join table as a sequence of rows in table order;
- favorites, shopping list and subscriptions as sets of ordered pairs;
- short links as a sequence of rows.

`Db.Valid()` states the invariants every operation keeps. Some come from the schema:
- unique tag slugs;
- unique (name, unit) ingredients;
- unique (recipe, ingredient) rows;
- existing ends for every relation;
- one link per recipe and unique codes.

Others come from the validators and the views:
- cooking time and amounts at least 1, from the fields' minimum-value validators;
- no self-subscription, which only the guard in the `subscribe` view (backend/api/views.py:65-68) refuses, since the
  `subscriptions` field itself allows it;
- a recipe id below the next id to be issued, a non-negative favorite counter and codes of 3 to 32 characters,
  which follow from how ids, the counter and codes are produced.

Every state-changing method except the row-appending helper `RecipeWrite.CreateRows` keeps `Valid()`. A Python `dict` is `Dicts.Dict`: a map plus its insertion order.

Modules, following the repository's files:
- `Entities`: the records, their validators and the join-table views.
- `Database`: the tables.
- `RelationToggle`: `m2m_set`, `m2m_unset`, and the view bodies they wrap.
- `ShoppingList`: `shopping_list_as_dict`, `fill_cart_file`.
- `ShortLinks`: `link_uri_default` and the link table.
- `RecipeWrite`: `RecipeCreateSerializer`.
- `RecipeViews`: the recipe views and `RecipeLinkView`.
- `Filters`: the filter sets.
- `ImageUri`: the check in `get_image_from_base64`.
- `UserSerializers`: `get_is_subscribed`, `get_recipes`.
- `Decimal`: integer formatting and parsing.

Parameters stand in for the environment:
- the clock reading that becomes `pub_date`;
- the random UUID's hex form;
- the redirect domain;
- the requester.

On create, a body without `ingredients` or `tags` is refused by the serializer field itself, with DRF's generic
required-field error (`RecipeWrite.RequiredOnCreate`). The custom "Поле … является обязательным!" message of
`validate` (backend/api/serializers.py:161-170) is reached only when every field check passes, which means on a
partial update (`RecipeWrite.IngredientsCheckedFirst`).

The `name` and `text` columns become DRF character fields that refuse blank values and trim whitespace. A value
that is empty or all whitespace is refused as blank. A value holding a NUL character is refused for it. Any other
value is stored with its surrounding whitespace stripped (`RecipeWrite.TextOutcome`).

## Model

| member | source | states |
|---|---|---|
| Database.Db.constructor | backend/recipes/models.py:16-128 | a database with only users, tags and ingredients loaded satisfies every table constraint |
| Entities.NewRecipe | backend/recipes/models.py:89-97 | a new recipe has the given id, author, publication date and tags; it starts with `times_favorited` 0; it passes the validators when the cooking time is at least 1 |
| Entities.RowsOf | backend/recipes/models.py:80-84 | a recipe's ingredient rows are exactly the join rows naming that recipe |
| Entities.Without | backend/api/serializers.py:190 | clearing a recipe's ingredients leaves exactly the rows of the other recipes |
| Entities.RowsFor | backend/api/serializers.py:177-180 | one row per dict entry, in the dict's order, carrying that entry's amount |
| Entities.ReplaceRows | backend/api/serializers.py:189-194 | after clear-then-recreate, the recipe's rows are exactly the new dict's; every other recipe's rows are unchanged |
| Entities.RowsOfDistinctIngredients | backend/recipes/models.py:125-128 | with unique (recipe, ingredient) pairs, no recipe lists an ingredient twice |
| Dicts.Put | backend/api/utils.py:51-54 | `d[k] = v`: the value is set; a new key goes last in the order and an existing key keeps its place |
| Decimal.IntToStringRoundTrip | backend/api/serializers.py:225-242 | the decimal text of any integer reads back as that integer, so a `recipes_limit` written as a number is parsed to it |
| ImageUri.Parse | backend/api/utils.py:24-31 | a non-string is refused with the format error; an accepted string is `data:image/<format>;base64,<payload>` with a lower-case format and a base64 payload, and those are the parts returned |
| ImageUri.ParseAcceptsRender | backend/api/utils.py:15-16 | every string of the pattern's form is accepted, and its format and payload are recovered |
| ImageUri.ParseIff | backend/api/utils.py:15-16 | a string is accepted exactly when it has the pattern's form |
| ShortLinks.Take | backend/api/models.py:14 | Python slicing `[:n]` gives a prefix of length min(n, len) |
| ShortLinks.LinkUriDefault | backend/api/models.py:9-17 | the code is a prefix of the hex string, of length 3 to 32, and not an existing code; every shorter prefix of length 3 or more is taken; a free 3-character prefix is chosen at once |
| ShortLinks.FindByCode | backend/api/views.py:231 | the lookup by code finds a row with that code, or reports that no row has it |
| ShortLinks.FindByRecipe | backend/api/views.py:218 | the lookup by recipe finds that recipe's row, or reports that it has none |
| ShortLinks.FindByCodeOfRow | backend/api/models.py:28-33 | with unique codes, looking up a row's code finds that very row |
| ShortLinks.AppendKeepsUnique | backend/api/models.py:20-33 | a new row for a recipe without a link, with an unused code, keeps both uniqueness constraints |
| UserSerializers.GetIsSubscribed | backend/api/serializers.py:34-37 | false for an anonymous requester; otherwise membership of the pair in the requester's subscriptions |
| UserSerializers.GetRecipes | backend/api/serializers.py:225-242 | a valid positive limit gives that many recipes from the start of the list (or all of them); any other limit gives the whole list |
| UserSerializers.LimitKeepsFirst | backend/api/serializers.py:232-235 | `recipes_limit=k` with k ≥ 1 returns the first min(k, n) recipes |
| UserSerializers.NonPositiveLimitKeepsAll | backend/api/serializers.py:236-239 | a limit of 0 or less, or one that is not a number, returns all recipes |
| RelationToggle.Favorited | backend/api/views.py:173-176 | favoriting raises the recipe's counter by exactly one and changes nothing else in it |
| RelationToggle.SetBody | backend/api/views.py:66-68 | the wrapped body refuses a self-subscription; the favorite body (views.py:173-176) raises the counter; the cart body (views.py:204-205) does nothing |
| RelationToggle.Add | backend/api/decorators.py:19 | `manager.add`: the pair joins only the named relation |
| RelationToggle.Remove | backend/api/decorators.py:39 | `manager.remove`: the pair leaves only the named relation |
| RelationToggle.M2MSet | backend/api/decorators.py:8-25 | a missing target gives 404; an existing pair gives the "already added" error before the body runs; a refusing body changes nothing; otherwise the relation is old ∪ {pair}, grows by one, and the reply is 201 with the target; other relations are untouched |
| RelationToggle.M2MUnset | backend/api/decorators.py:28-42 | a missing target gives 404; an absent pair gives the "not present" error and changes nothing; otherwise the relation is old \ {pair}, shrinks by one, and the reply is 204; the counter is never lowered |
| RelationToggle.SetThenUnset | backend/api/decorators.py:8-42 | a successful add followed by a remove of the same target succeeds and restores every relation |
| ShoppingList.AggregateMeaning | backend/api/utils.py:42-55 | the dict's keys are exactly the ingredients occurring in the rows; each value is that ingredient's summed amount |
| ShoppingList.CartAggregateMeaning | backend/api/utils.py:42-55 | the keys are exactly the ingredients used by some cart recipe; each total is the sum over the cart's recipes of that recipe's amount |
| ShoppingList.CartRowsTotal | backend/api/utils.py:44-54 | summing row by row equals summing recipe by recipe |
| ShoppingList.CartRowsOccurs | backend/api/utils.py:44-54 | an ingredient occurs among the cart's rows exactly when some cart recipe uses it |
| ShoppingList.AmountInIsRowAmount | backend/api/utils.py:47-50 | with unique (recipe, ingredient) rows, a recipe's amount of an ingredient is that one row's amount |
| ShoppingList.ShoppingListAsDict | backend/api/utils.py:42-55 | the nested loop computes the fold; keys are keyed by ingredient id, not by name; an empty cart gives an empty dict |
| ShoppingList.LineIsOneLine | backend/api/utils.py:60-61 | a line `"<name>, <unit> - <total>\n"` holds exactly one newline |
| ShoppingList.OneLinePerEntry | backend/api/utils.py:58-62 | the rendered text has one line per dict entry |
| ShoppingList.FillCartFile | backend/api/utils.py:58-62 | the response gains exactly the lines of the dict's entries, in insertion order |
| ShoppingList.Response.Write | backend/api/utils.py:60 | writing appends to the response body |
| RecipeWrite.ValidateIngredients | backend/api/serializers.py:136-148 | an empty list gives the ingredients-required error; a repeated id gives the uniqueness error; otherwise a dict with one entry per item, in order, with that item's amount |
| RecipeWrite.DictOfKeys | backend/api/serializers.py:141-147 | the dict's keys are exactly the ids of the items |
| RecipeWrite.DictOfEntries | backend/api/serializers.py:141-147 | with distinct ids, the k-th key is the k-th item's id, mapped to its amount |
| RecipeWrite.CardinalityDistinct | backend/api/serializers.py:155 | `len(set(data)) ≤ len(data)`, with equality exactly when no value repeats |
| RecipeWrite.ValidateTags | backend/api/serializers.py:150-159 | an empty list gives the tags-required error; a repeated tag gives the uniqueness error; otherwise the list is returned unchanged |
| RecipeWrite.CheckItems | backend/api/serializers.py:99-106 | each item must name an existing ingredient and have an amount of at least 1 |
| RecipeWrite.CheckTagIds | backend/api/serializers.py:123-127 | each tag must name an existing tag |
| RecipeWrite.IngredientsOutcome | backend/api/serializers.py:119-122 | the ingredients field: absent only on a partial update; accepted exactly when its items are valid, non-empty and distinct |
| RecipeWrite.TagsOutcome | backend/api/serializers.py:123-127 | the tags field: absent only on a partial update; accepted exactly when it names existing, distinct tags and is non-empty |
| RecipeWrite.ImageOutcome | backend/api/serializers.py:128 | the image field is accepted exactly when the data-URI check accepts it, and then holds the format and payload the check splits off |
| RecipeWrite.CookingTimeOutcome | backend/recipes/models.py:72-75 | a sent cooking time is accepted exactly when it is at least 1; not sent, it is required on create and absent on update |
| RecipeWrite.Strip | backend/recipes/models.py:65-71 | `str.strip()` as the `name` and `text` fields apply it: the result is empty exactly when the value is all whitespace, and otherwise starts and ends with a non-whitespace character |
| RecipeWrite.StripIsMiddle | backend/recipes/models.py:65-71 | stripping removes only whitespace: the value is the stripped text with whitespace before and after it |
| RecipeWrite.StripSurrounded | backend/recipes/models.py:65-71 | any whitespace around a text without outer whitespace is exactly what stripping removes |
| RecipeWrite.TextOutcome | backend/recipes/models.py:65-71 | a sent `name` or `text` is refused as blank when it is all whitespace, refused for a NUL character when its stripped text holds one, and otherwise accepted stripped; not sent, it is required on create and absent on update |
| RecipeWrite.NullCharacterRefused | backend/recipes/models.py:65-71 | a text that is not all whitespace is refused for NUL exactly when it holds a NUL, and is otherwise accepted stripped |
| RecipeWrite.Accept | backend/api/serializers.py:109-134 | once no field failed and both lists were sent, the validated data fits the tables, is complete on create, carries the sent tags, the dict `validate_ingredients` builds, the stripped name and text, the sent cooking time and the parsed image |
| RecipeWrite.Validate | backend/api/serializers.py:161-170 | an accepted body fits the tables (known, distinct ingredients with amounts ≥ 1; known, distinct, non-empty tags); on create it has every field; a refusal carries at least one error |
| RecipeWrite.AcceptedIff | backend/api/serializers.py:161-170 | a body is accepted exactly when both lists were sent and no field failed its own checks, and the validated data is then the one `Accept` builds from its fields |
| RecipeWrite.WellFormedBodyAccepted | backend/api/serializers.py:109-170 | a body whose lists are sent, non-empty, known and free of repeats, whose sent texts are neither blank nor hold NUL, whose sent image has the data-URI form and cooking time is at least 1, and which on create sends every field, is accepted with its tags and cooking time |
| RecipeWrite.BlankTextRefused | backend/recipes/models.py:65-71 | an empty or whitespace-only `name` or `text` makes the body invalid with a blank-field error, on create and update |
| RecipeWrite.StoredTextStripped | backend/recipes/models.py:65-71 | an accepted body carries `name` and `text` stripped of surrounding whitespace and never empty |
| RecipeWrite.MissingListRefused | backend/api/serializers.py:162-169 | a body without `ingredients` or without `tags` is refused, even on partial update |
| RecipeWrite.EmptyListRefused | backend/api/serializers.py:137-154 | an empty ingredients list or an empty tags list is refused with its own message |
| RecipeWrite.RequiredOnCreate | backend/api/serializers.py:116-134 | on create, a list not sent is reported as a required field |
| RecipeWrite.IngredientsCheckedFirst | backend/api/serializers.py:161-169 | on a partial update sending neither list, the ingredients error is the one reported |
| RecipeWrite.RepeatedIngredientRefused | backend/api/serializers.py:141-146 | a list of valid items that repeats an ingredient is refused with the uniqueness error |
| RecipeWrite.Updated | backend/api/serializers.py:188-189 | each sent field (name, text, image, cooking time) replaces the stored one and each field not sent is kept; the tags become exactly those given; id, author, publication date and counter stay |
| RecipeWrite.AppendRowsValid | backend/recipes/models.py:117-128 | rows added for a recipe with none, one per distinct known ingredient, keep the pair uniqueness and amount constraints |
| RecipeWrite.WithoutUnique | backend/recipes/models.py:125-128 | dropping a recipe's rows keeps pairs unique |
| RecipeWrite.WithoutValid | backend/api/serializers.py:190 | the table without a recipe's rows keeps its constraints and has no row of that recipe |
| RecipeWrite.AppendFreshRows | backend/api/serializers.py:177-180 | the new rows keep the table valid, and they are exactly the recipe's rows |
| RecipeWrite.SaveNewRecipe | backend/api/serializers.py:175-176 | `Recipe.objects.create` stores the recipe under the next unused id, with no rows yet |
| RecipeWrite.SaveRecipe | backend/api/serializers.py:188-189 | saving an existing recipe replaces its record only |
| RecipeWrite.ClearRows | backend/api/serializers.py:190 | `ingredients.clear()` deletes exactly that recipe's rows, keeping the others in order |
| RecipeWrite.CreateRows | backend/api/serializers.py:191-194 | the loop appends one row per dict entry, in order |
| RecipeWrite.AddIngredients | backend/api/serializers.py:177-180 | creating the rows of a recipe that has none keeps the database valid; its rows are then exactly the dict's |
| RecipeWrite.SetIngredients | backend/api/serializers.py:190-194 | clear-then-recreate: the table becomes the other recipes' rows followed by the new ones |
| RecipeWrite.Create | backend/api/serializers.py:172-181 | a new recipe under a fresh id, with exactly the given tags and a counter of 0, and the next id advanced; the table gains exactly one row per dict entry, carrying its amount, after the rows kept as they were; the database stays valid |
| RecipeWrite.Update | backend/api/serializers.py:183-195 | the old image is deleted exactly when an image is sent; fields replace, tags are set exactly, and rows are cleared and recreated; the database stays valid |
| RecipeViews.ResolveLink | backend/api/views.py:230-235 | an unknown code gives 404; a known code redirects to `<domain>/recipes/<id>` of the linked recipe |
| RecipeViews.LinkRoundTrip | backend/api/views.py:216-235 | resolving the code issued for a recipe leads to that recipe's page |
| RecipeViews.ShortUrlInjective | backend/api/views.py:221-222 | two codes never share a short URL |
| RecipeViews.GetLink | backend/api/views.py:216-224 | a missing recipe gives 404; an existing link is kept; otherwise exactly one link with a freshly generated code is added; the reply is `<domain>/s/<code>/` of the recipe's link |
| RecipeViews.GetLinkTwice | backend/api/views.py:217-219 | two requests give the identical URL and create at most one link |
| RecipeViews.DownloadShoppingCart | backend/api/views.py:186-198 | the file is the header `Список покупок: \n` followed by one line per ingredient of the requester's cart |
| RecipeViews.CreateRecipe | backend/api/views.py:131-145 | a refused body changes nothing and reports the errors; an accepted one creates the recipe with the requester as author, advances the next id, and appends its rows after the unchanged rows of the other recipes |
| RecipeViews.UpdateRecipe | backend/api/views.py:151-158 | a missing recipe gives 404; a refused body changes nothing; an accepted one is applied as a partial update |
| RecipeViews.LinksWithoutUnique | backend/api/models.py:22-33 | removing a recipe's link keeps both link constraints |
| RecipeViews.DropLinkValid | backend/api/models.py:22-26 | after the cascade, no link of the recipe remains and the table stays valid |
| RecipeViews.DropRelations | backend/users/models.py:48-57 | the cascade removes exactly the favorite and cart pairs naming the recipe |
| RecipeViews.DropLink | backend/api/models.py:22-26 | the cascade removes the recipe's short link only |
| RecipeViews.DropRecord | backend/api/views.py:149 | the record goes once nothing refers to it, keeping the database valid |
| RecipeViews.DeleteRecipe | backend/recipes/models.py:109-116 | deletion cascades to the recipe's rows, favorite and cart pairs, and short link |
| RecipeViews.Destroy | backend/api/views.py:147-149 | a missing recipe gives 404 and changes nothing; otherwise the image is deleted from storage before the record, and the record and its dependants go |
| Filters.KeepMembers | backend/api/filters.py:45-48 | a recipe is kept exactly when it is listed and its relation with the requester is the one asked for |
| Filters.FilterMethodField | backend/api/filters.py:42-48 | an anonymous requester gets the list unchanged; "1" keeps the recipes related to the requester; any other value keeps the unrelated ones |
| Filters.KeepPartition | backend/api/filters.py:45-48 | the kept and dropped recipes together are the list, as a multiset |
| Filters.FilterPartition | backend/api/filters.py:45-48 | for a signed-in requester, the results for "1" and "0" partition the list |
| Filters.KeepNewestFirst | backend/recipes/models.py:102 | filtering keeps the newest-first order |
| Filters.AuthorFilter | backend/api/filters.py:32-35 | the author filter keeps exactly that author's recipes |
| Filters.IngredientNameFilter | backend/api/filters.py:10-11 | the name filter keeps exactly the ingredients whose name starts with the given text |

## Left out

- File storage is a log of events (`ImageDeleted`, `RecipeDeleted`). Base64 decoding, file naming, `ContentFile` and Pillow's image validation are not modelled.
- The avatar view, routing, list pagination, admin registrations, migrations, permissions and authentication are not modelled.
- `max_length` limits on character fields and the 36-character width of `link_uri` are not modelled.
- The tags filter and django-filter's own handling of values are not modelled: an empty value skips a filter, and a value outside the choices is refused before `filter_method_field` runs. The model passes whatever value it is given.
- Concurrency is not modelled: the check-then-act race in the toggles and concurrent short-link issuance, which the database constraints guard.
- Default orderings of query sets are not modelled. The cart and filtered lists are parameters in the order the query returns them, and `Filters.KeepNewestFirst` shows filtering keeps that order.
- A recipe's ingredients are listed in join-table order, which stands for the database's unspecified row order.
- RecipeWrite.Validate: the range of the integer columns `cooking_time` and `amount` is not modelled. Whether DRF adds an upper bound of 2147483647 depends on the database backend, whose settings are not part of this model.
- RecipeWrite.ValidateIngredients: every item carries both `id` and `amount`. An item missing one is not modelled. On create DRF refuses it as a required field. On a partial update the nested serializer skips the missing key, and the lookup in `validate_ingredients` (backend/api/serializers.py:145-147) raises `KeyError`, a server error.
- Filters.IngredientNameFilter: `startswith` is modelled as case-sensitive. On backends whose `LIKE` ignores case, such as SQLite, it behaves like `istartswith`.
- `null` values in the body and the ORM's type coercion of ids and numbers are not modelled.
- DRF reports per-item errors inside a list. The model reports one error for the field: the first failing item's.
- RecipeWrite.Update: the meaning of its rows per recipe is stated by `Entities.ReplaceRows` rather than in its own contract.
- ShortLinks.LinkUriDefault: requires that some prefix of length 3 to 32 is free. The code loops forever otherwise.
- RecipeViews.UpdateRecipe: only the partial route is modelled, because PUT is not among the view's allowed methods.
- RecipeViews.DownloadShoppingCart: the headers (content type, attachment name) are not modelled.
- RecipeViews.Destroy: the image deletion's save of the emptied image field is not modelled, since the record is deleted right after.
- Decimal.ParseInt: Python's `int()` also accepts surrounding whitespace, digit-separating underscores and non-ASCII Unicode decimal digits (such as "٣"); the model does not.
- backend/users/models.py is part of this model only through the three relation fields.
