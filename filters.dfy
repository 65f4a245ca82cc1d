/**
 * The list filters (backend/api/filters.py): the favorite and shopping-cart
 * flags on recipe lists, the author filter, and the ingredient-name search.
 * A query set is a sequence of records in the list's order.
 */
module Filters {
  import opened Wrappers
  import opened Entities

  /** The recipes of `qs` whose relation with `user` is as `want` says, in their order. */
  function Keep(qs: seq<Recipe>, user: UserId, rel: set<(UserId, RecipeId)>, want: bool): (r: seq<Recipe>)
    ensures |r| <= |qs|
  {
    if qs == [] then []
    else
      var last := qs[|qs| - 1];
      Keep(qs[..|qs| - 1], user, rel, want) + (if ((user, last.id) in rel) == want then [last] else [])
  }

  /** A recipe is kept exactly when it is in the list and its relation with the user is as wanted. */
  lemma {:induction false} KeepMembers(qs: seq<Recipe>, user: UserId, rel: set<(UserId, RecipeId)>, want: bool)
    ensures forall x :: x in Keep(qs, user, rel, want) <==> x in qs && (((user, x.id) in rel) == want)
    decreases |qs|
  {
    if qs != [] {
      var front := qs[..|qs| - 1];
      KeepMembers(front, user, rel, want);
      assert qs == front + [qs[|qs| - 1]];
    }
  }

  /**
   * `filter_method_field`, for `is_favorited` (relation: favorites) and
   * `is_in_shopping_cart` (relation: shopping list): an anonymous requester
   * gets the list unchanged, the value "1" keeps the recipes related to the
   * requester, any other value keeps the others.
   */
  function FilterMethodField(qs: seq<Recipe>, requester: Option<UserId>, rel: set<(UserId, RecipeId)>, value: string): (r: seq<Recipe>)
    ensures requester.None? ==> r == qs
    ensures requester.Some? ==>
              forall x :: x in r <==> x in qs && ((requester.value, x.id) in rel <==> value == "1")
  {
    if requester.None? then qs
    else
      KeepMembers(qs, requester.value, rel, value == "1");
      Keep(qs, requester.value, rel, value == "1")
  }

  /** Together, the kept and the dropped recipes are the list itself. */
  lemma {:induction false} KeepPartition(qs: seq<Recipe>, user: UserId, rel: set<(UserId, RecipeId)>)
    ensures multiset(Keep(qs, user, rel, true)) + multiset(Keep(qs, user, rel, false)) == multiset(qs)
    decreases |qs|
  {
    if qs != [] {
      var front, last := qs[..|qs| - 1], qs[|qs| - 1];
      KeepPartition(front, user, rel);
      assert qs == front + [last];
      var kept, dropped := Keep(front, user, rel, true), Keep(front, user, rel, false);
      if (user, last.id) in rel {
        assert Keep(qs, user, rel, true) == kept + [last] && Keep(qs, user, rel, false) == dropped;
        MultisetAddLast(kept, dropped, front, last);
      } else {
        assert Keep(qs, user, rel, true) == kept && Keep(qs, user, rel, false) == dropped + [last];
        MultisetAddLast(dropped, kept, front, last);
      }
    }
  }

  lemma MultisetAddLast<T>(a: seq<T>, b: seq<T>, whole: seq<T>, x: T)
    requires multiset(a) + multiset(b) == multiset(whole)
    ensures multiset(a + [x]) + multiset(b) == multiset(whole + [x])
  {
  }

  /** For a signed-in requester the values "1" and "0" split the list between them, each recipe into one. */
  lemma FilterPartition(qs: seq<Recipe>, user: UserId, rel: set<(UserId, RecipeId)>)
    ensures multiset(FilterMethodField(qs, Some(user), rel, "1")) + multiset(FilterMethodField(qs, Some(user), rel, "0")) ==
            multiset(qs)
  {
    KeepPartition(qs, user, rel);
  }

  /** Filtering keeps the newest-first order of the list. */
  lemma {:induction false} KeepNewestFirst(qs: seq<Recipe>, user: UserId, rel: set<(UserId, RecipeId)>, want: bool)
    requires NewestFirst(qs)
    ensures NewestFirst(Keep(qs, user, rel, want))
    decreases |qs|
  {
    if qs != [] {
      var front, last := qs[..|qs| - 1], qs[|qs| - 1];
      assert NewestFirst(front);
      KeepNewestFirst(front, user, rel, want);
      var s := Keep(qs, user, rel, want);
      if ((user, last.id) in rel) == want {
        var kept := Keep(front, user, rel, want);
        assert s == kept + [last];
        KeepMembers(front, user, rel, want);
        forall i | 0 <= i < |kept| ensures kept[i].pubDate >= last.pubDate {
          assert kept[i] in front;
          var k :| 0 <= k < |front| && front[k] == kept[i];
          assert qs[k] == kept[i];
        }
      }
    }
  }

  /** The `author` filter: the recipes by the given author, in their order; no author given keeps all. */
  function AuthorFilter(qs: seq<Recipe>, author: Option<UserId>): (r: seq<Recipe>)
    ensures author.None? ==> r == qs
    ensures author.Some? ==> forall x :: x in r <==> x in qs && x.author == author.value
    ensures |r| <= |qs|
  {
    if author.None? || qs == [] then qs
    else
      var last := qs[|qs| - 1];
      AuthorFilter(qs[..|qs| - 1], author) + (if last.author == author.value then [last] else [])
  }

  /** The `name` search on ingredients (`startswith`, taken as case-sensitive); no name given keeps all. */
  function IngredientNameFilter(ingredients: seq<Ingredient>, name: Option<string>): (r: seq<Ingredient>)
    ensures name.None? ==> r == ingredients
    ensures name.Some? ==> forall x :: x in r <==> x in ingredients && name.value <= x.name
    ensures |r| <= |ingredients|
  {
    if name.None? || ingredients == [] then ingredients
    else
      var last := ingredients[|ingredients| - 1];
      IngredientNameFilter(ingredients[..|ingredients| - 1], name) + (if name.value <= last.name then [last] else [])
  }
}
