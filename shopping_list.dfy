/**
 * The shopping list (backend/api/utils.py): the amounts of every ingredient
 * of the recipes in a cart summed per ingredient, and the text file listing
 * one line per ingredient.
 */
module ShoppingList {
  import opened Dicts
  import opened Decimal
  import opened Entities

  /** The join rows of the cart's recipes, recipe after recipe in cart order. */
  function CartRows(rows: seq<RecipeIngredient>, cart: seq<RecipeId>): seq<RecipeIngredient> {
    if cart == [] then []
    else CartRows(rows, cart[..|cart| - 1]) + RowsOf(rows, cart[|cart| - 1])
  }

  /** The sum of the amounts that `rows` give ingredient `i`. */
  function Total(rows: seq<RecipeIngredient>, i: IngredientId): int {
    if rows == [] then 0
    else Total(rows[..|rows| - 1], i) + (if rows[|rows| - 1].ingredient == i then rows[|rows| - 1].amount else 0)
  }

  /** Some row mentions ingredient `i`. */
  predicate Occurs(rows: seq<RecipeIngredient>, i: IngredientId) {
    exists k :: 0 <= k < |rows| && rows[k].ingredient == i
  }

  /** How much of ingredient `i` recipe `r` needs. */
  function AmountIn(rows: seq<RecipeIngredient>, r: RecipeId, i: IngredientId): int {
    Total(RowsOf(rows, r), i)
  }

  /** Recipe `r` uses ingredient `i`. */
  predicate Uses(rows: seq<RecipeIngredient>, r: RecipeId, i: IngredientId) {
    exists x :: x in rows && x.recipe == r && x.ingredient == i
  }

  /** Some recipe of the cart uses ingredient `i`. */
  predicate InCart(rows: seq<RecipeIngredient>, cart: seq<RecipeId>, i: IngredientId) {
    exists c :: 0 <= c < |cart| && Uses(rows, cart[c], i)
  }

  /** Reference total: the amounts of ingredient `i` summed recipe by recipe over the cart. */
  function CartTotal(rows: seq<RecipeIngredient>, cart: seq<RecipeId>, i: IngredientId): int {
    if cart == [] then 0
    else CartTotal(rows, cart[..|cart| - 1], i) + AmountIn(rows, cart[|cart| - 1], i)
  }

  /** One step of the fold: add the row's amount to its ingredient's running total. */
  function AddRow(d: Dict<IngredientId, int>, row: RecipeIngredient): (r: Dict<IngredientId, int>)
    requires Valid(d)
    ensures Valid(r)
  {
    if row.ingredient in d.values then Put(d, row.ingredient, d.values[row.ingredient] + row.amount)
    else Put(d, row.ingredient, row.amount)
  }

  /** The running totals after every row, keys in order of first appearance. */
  function Aggregate(rows: seq<RecipeIngredient>): (d: Dict<IngredientId, int>)
    ensures Valid(d)
  {
    if rows == [] then Empty() else AddRow(Aggregate(rows[..|rows| - 1]), rows[|rows| - 1])
  }

  /** The fold's keys are the ingredients that occur, and each value is that ingredient's total. */
  lemma {:induction false} AggregateMeaning(rows: seq<RecipeIngredient>)
    ensures forall i :: i in Aggregate(rows).values <==> Occurs(rows, i)
    ensures forall i :: i in Aggregate(rows).values ==> Aggregate(rows).values[i] == Total(rows, i)
    ensures forall i :: !Occurs(rows, i) ==> Total(rows, i) == 0
    decreases |rows|
  {
    if rows != [] {
      var front := rows[..|rows| - 1];
      AggregateMeaning(front);
      forall i ensures Occurs(rows, i) <==> Occurs(front, i) || rows[|rows| - 1].ingredient == i {
        if Occurs(front, i) {
          var k :| 0 <= k < |front| && front[k].ingredient == i;
          assert rows[k].ingredient == i;
        }
        if Occurs(rows, i) && rows[|rows| - 1].ingredient != i {
          var k :| 0 <= k < |rows| && rows[k].ingredient == i;
          assert front[k].ingredient == i;
        }
      }
    }
  }

  lemma {:induction false} TotalAppend(a: seq<RecipeIngredient>, b: seq<RecipeIngredient>, i: IngredientId)
    ensures Total(a + b, i) == Total(a, i) + Total(b, i)
    decreases |b|
  {
    if b == [] {
      assert a + b == a;
    } else {
      assert (a + b)[..|a + b| - 1] == a + b[..|b| - 1];
      TotalAppend(a, b[..|b| - 1], i);
    }
  }

  /** Summing over the cart's rows is summing recipe by recipe. */
  lemma {:induction false} CartRowsTotal(rows: seq<RecipeIngredient>, cart: seq<RecipeId>, i: IngredientId)
    ensures Total(CartRows(rows, cart), i) == CartTotal(rows, cart, i)
    decreases |cart|
  {
    if cart != [] {
      var front := cart[..|cart| - 1];
      CartRowsTotal(rows, front, i);
      TotalAppend(CartRows(rows, front), RowsOf(rows, cart[|cart| - 1]), i);
    }
  }

  /** An ingredient occurs among the cart's rows exactly when a cart recipe uses it. */
  lemma {:induction false} CartRowsOccurs(rows: seq<RecipeIngredient>, cart: seq<RecipeId>, i: IngredientId)
    ensures Occurs(CartRows(rows, cart), i) <==> InCart(rows, cart, i)
    decreases |cart|
  {
    if cart != [] {
      var front := cart[..|cart| - 1];
      CartRowsOccurs(rows, front, i);
      OccursAppend(CartRows(rows, front), RowsOf(rows, cart[|cart| - 1]), i);
      InCartAppend(rows, cart, i);
    }
  }

  lemma OccursAppend(a: seq<RecipeIngredient>, b: seq<RecipeIngredient>, i: IngredientId)
    ensures Occurs(a + b, i) <==> Occurs(a, i) || Occurs(b, i)
  {
    if Occurs(a + b, i) {
      var k :| 0 <= k < |a + b| && (a + b)[k].ingredient == i;
      if k < |a| {
        assert a[k].ingredient == i;
      } else {
        assert b[k - |a|].ingredient == i;
      }
    }
    if Occurs(a, i) {
      var k :| 0 <= k < |a| && a[k].ingredient == i;
      assert (a + b)[k].ingredient == i;
    }
    if Occurs(b, i) {
      var k :| 0 <= k < |b| && b[k].ingredient == i;
      assert (a + b)[|a| + k].ingredient == i;
    }
  }

  /** A cart uses an ingredient when its front does or its last recipe does, whose rows then mention it. */
  lemma InCartAppend(rows: seq<RecipeIngredient>, cart: seq<RecipeId>, i: IngredientId)
    requires cart != []
    ensures InCart(rows, cart, i) <==> InCart(rows, cart[..|cart| - 1], i) || Occurs(RowsOf(rows, cart[|cart| - 1]), i)
  {
    var front := cart[..|cart| - 1];
    var last := cart[|cart| - 1];
    var b := RowsOf(rows, last);
    if InCart(rows, cart, i) {
      var c :| 0 <= c < |cart| && Uses(rows, cart[c], i);
      if c < |front| {
        assert Uses(rows, front[c], i);
        assert InCart(rows, front, i);
      } else {
        var x :| x in rows && x.recipe == last && x.ingredient == i;
        assert x in b;
        var k :| 0 <= k < |b| && b[k] == x;
        assert Occurs(b, i);
      }
    }
    if InCart(rows, front, i) {
      var c :| 0 <= c < |front| && Uses(rows, front[c], i);
      assert Uses(rows, cart[c], i);
      assert InCart(rows, cart, i);
    }
    if Occurs(b, i) {
      var k :| 0 <= k < |b| && b[k].ingredient == i;
      assert b[k] in b;
      assert b[k] in rows && b[k].recipe == last;
      assert Uses(rows, last, i);
      assert Uses(rows, cart[|cart| - 1], i);
      assert InCart(rows, cart, i);
    }
  }

  /** Under the (recipe, ingredient) constraint the one row of a recipe and ingredient gives the amount. */
  lemma {:induction false} TotalOfDistinct(s: seq<RecipeIngredient>, k: nat)
    requires k < |s|
    requires forall a, b :: 0 <= a < b < |s| ==> s[a].ingredient != s[b].ingredient
    ensures Total(s, s[k].ingredient) == s[k].amount
    decreases |s|
  {
    var front := s[..|s| - 1];
    if k < |s| - 1 {
      TotalOfDistinct(front, k);
    } else {
      AggregateMeaning(front);
      assert !Occurs(front, s[k].ingredient);
    }
  }

  /** The amount a recipe needs is its row's amount, or zero when it does not use the ingredient. */
  lemma AmountInIsRowAmount(rows: seq<RecipeIngredient>, x: RecipeIngredient)
    requires UniqueRecipeIngredient(rows)
    requires x in rows
    ensures AmountIn(rows, x.recipe, x.ingredient) == x.amount
  {
    var s := RowsOf(rows, x.recipe);
    RowsOfDistinctIngredients(rows, x.recipe);
    var k :| 0 <= k < |s| && s[k] == x;
    TotalOfDistinct(s, k);
  }

  lemma AmountInUnused(rows: seq<RecipeIngredient>, r: RecipeId, i: IngredientId)
    requires !Uses(rows, r, i)
    ensures AmountIn(rows, r, i) == 0
  {
    var s := RowsOf(rows, r);
    AggregateMeaning(s);
  }

  /** What the fold over the cart's rows means, recipe by recipe. */
  lemma CartAggregateMeaning(rows: seq<RecipeIngredient>, cart: seq<RecipeId>)
    ensures forall i :: i in Aggregate(CartRows(rows, cart)).values <==> InCart(rows, cart, i)
    ensures forall i :: i in Aggregate(CartRows(rows, cart)).values ==>
              Aggregate(CartRows(rows, cart)).values[i] == CartTotal(rows, cart, i)
  {
    AggregateMeaning(CartRows(rows, cart));
    forall i ensures Occurs(CartRows(rows, cart), i) <==> InCart(rows, cart, i) {
      CartRowsOccurs(rows, cart, i);
    }
    forall i ensures Total(CartRows(rows, cart), i) == CartTotal(rows, cart, i) {
      CartRowsTotal(rows, cart, i);
    }
  }

  /** The outer loop's step: the rows of the cart's first c + 1 recipes, as the inner loop sees them. */
  lemma RecipeStep(rows: seq<RecipeIngredient>, cart: seq<RecipeId>, c: nat)
    requires c < |cart|
    ensures Aggregate(CartRows(rows, cart[..c]) + RowsOf(rows, cart[c])[..0]) == Aggregate(CartRows(rows, cart[..c]))
    ensures Aggregate(CartRows(rows, cart[..c]) + RowsOf(rows, cart[c])[..|RowsOf(rows, cart[c])|]) ==
            Aggregate(CartRows(rows, cart[..c + 1]))
  {
    var done, rs := CartRows(rows, cart[..c]), RowsOf(rows, cart[c]);
    assert done + rs[..0] == done;
    assert rs[..|rs|] == rs;
    assert cart[..c + 1][..c] == cart[..c];
  }

  /** The inner loop's step: one more row folded in. */
  lemma RowStep(done: seq<RecipeIngredient>, rs: seq<RecipeIngredient>, j: nat)
    requires j < |rs|
    ensures Aggregate(done + rs[..j + 1]) == AddRow(Aggregate(done + rs[..j]), rs[j])
  {
    var next := done + rs[..j + 1];
    assert next[..|next| - 1] == done + rs[..j] && next[|next| - 1] == rs[j];
  }

  /**
   * `shopping_list_as_dict`: for each recipe of the cart, for each of its
   * ingredients, add the row's amount to the ingredient's entry (creating it
   * on first sight). The result lists exactly the ingredients the cart's
   * recipes use, keyed by ingredient identity, each with its total over the cart.
   */
  method ShoppingListAsDict(cart: seq<RecipeId>, rows: seq<RecipeIngredient>) returns (d: Dict<IngredientId, int>)
    ensures d == Aggregate(CartRows(rows, cart))
    ensures Valid(d)
    ensures forall i :: i in d.values <==> InCart(rows, cart, i)
    ensures forall i :: i in d.values ==> d.values[i] == CartTotal(rows, cart, i)
    ensures cart == [] ==> d.keys == [] && d.values == map[]
  {
    d := Empty();
    for c := 0 to |cart|
      invariant d == Aggregate(CartRows(rows, cart[..c]))
    {
      var recipeRows := RowsOf(rows, cart[c]);
      ghost var done := CartRows(rows, cart[..c]);
      RecipeStep(rows, cart, c);
      for j := 0 to |recipeRows|
        invariant d == Aggregate(done + recipeRows[..j])
      {
        var row := recipeRows[j];
        RowStep(done, recipeRows, j);
        d := AddRow(d, row);
      }
    }
    assert cart[..|cart|] == cart;
    CartAggregateMeaning(rows, cart);
  }

  /** `"<name>, <unit> - <total>\n"` */
  function Line(ingredient: Ingredient, total: int): string {
    ingredient.name + ", " + ingredient.measurementUnit + " - " + IntToString(total) + "\n"
  }

  /** The lines of a totals dict, in its order. */
  function CartText(keys: seq<IngredientId>, totals: map<IngredientId, int>, catalogue: map<IngredientId, Ingredient>): string
    requires forall n :: 0 <= n < |keys| ==> keys[n] in totals && keys[n] in catalogue
  {
    if keys == [] then ""
    else CartText(keys[..|keys| - 1], totals, catalogue) + Line(catalogue[keys[|keys| - 1]], totals[keys[|keys| - 1]])
  }

  function CountNewlines(s: string): nat {
    if s == [] then 0 else CountNewlines(s[..|s| - 1]) + (if s[|s| - 1] == '\n' then 1 else 0)
  }

  lemma {:induction false} CountNewlinesAppend(a: string, b: string)
    ensures CountNewlines(a + b) == CountNewlines(a) + CountNewlines(b)
    decreases |b|
  {
    if b == [] {
      assert a + b == a;
    } else {
      assert (a + b)[..|a + b| - 1] == a + b[..|b| - 1];
      CountNewlinesAppend(a, b[..|b| - 1]);
    }
  }

  lemma {:induction false} NoNewlines(s: string)
    requires forall i :: 0 <= i < |s| ==> s[i] != '\n'
    ensures CountNewlines(s) == 0
    decreases |s|
  {
    if s != [] {
      NoNewlines(s[..|s| - 1]);
    }
  }

  predicate SingleLine(s: string) { forall i :: 0 <= i < |s| ==> s[i] != '\n' }

  lemma LineIsOneLine(ingredient: Ingredient, total: int)
    requires SingleLine(ingredient.name) && SingleLine(ingredient.measurementUnit)
    ensures CountNewlines(Line(ingredient, total)) == 1
  {
    var number := IntToString(total);
    assert SingleLine(number) by {
      if total < 0 {
        assert number == "-" + NatToString(-total);
      }
    }
    var body := ingredient.name + ", " + ingredient.measurementUnit + " - " + number;
    assert SingleLine(body);
    NoNewlines(body);
    CountNewlinesAppend(body, "\n");
  }

  /** As long as names and units hold no line break, the file has one line per ingredient. */
  lemma {:induction false} OneLinePerEntry(keys: seq<IngredientId>, totals: map<IngredientId, int>, catalogue: map<IngredientId, Ingredient>)
    requires forall n :: 0 <= n < |keys| ==> keys[n] in totals && keys[n] in catalogue
    requires forall k :: k in catalogue ==> SingleLine(catalogue[k].name) && SingleLine(catalogue[k].measurementUnit)
    ensures CountNewlines(CartText(keys, totals, catalogue)) == |keys|
    decreases |keys|
  {
    if keys != [] {
      var front := keys[..|keys| - 1];
      var k := keys[|keys| - 1];
      OneLinePerEntry(front, totals, catalogue);
      LineIsOneLine(catalogue[k], totals[k]);
      CountNewlinesAppend(CartText(front, totals, catalogue), Line(catalogue[k], totals[k]));
    }
  }

  /** A response whose body is written piece by piece. */
  class Response {
    var content: string

    constructor (initial: string)
      ensures content == initial
    {
      content := initial;
    }

    method Write(s: string)
      modifies this
      ensures content == old(content) + s
    {
      content := content + s;
    }
  }

  lemma AppendAssociative(a: string, b: string, c: string)
    ensures (a + b) + c == a + (b + c)
  {
  }

  /** Writing the next line extends the text written so far by exactly that line. */
  lemma FillStep(start: string, keys: seq<IngredientId>, n: nat, totals: map<IngredientId, int>, catalogue: map<IngredientId, Ingredient>)
    requires n < |keys|
    requires forall m :: 0 <= m < |keys| ==> keys[m] in totals && keys[m] in catalogue
    ensures start + CartText(keys[..n + 1], totals, catalogue) ==
            (start + CartText(keys[..n], totals, catalogue)) + Line(catalogue[keys[n]], totals[keys[n]])
  {
    CartTextStep(keys, n, totals, catalogue);
    AppendAssociative(start, CartText(keys[..n], totals, catalogue), Line(catalogue[keys[n]], totals[keys[n]]));
  }

  lemma CartTextStep(keys: seq<IngredientId>, n: nat, totals: map<IngredientId, int>, catalogue: map<IngredientId, Ingredient>)
    requires n < |keys|
    requires forall m :: 0 <= m < |keys| ==> keys[m] in totals && keys[m] in catalogue
    ensures CartText(keys[..n + 1], totals, catalogue) == CartText(keys[..n], totals, catalogue) + Line(catalogue[keys[n]], totals[keys[n]])
  {
    assert keys[..n + 1][..n] == keys[..n];
  }

  /** `fill_cart_file`: one line per entry of the totals dict, in its order. */
  method FillCartFile(d: Dict<IngredientId, int>, catalogue: map<IngredientId, Ingredient>, response: Response)
    requires Valid(d)
    requires forall n :: 0 <= n < |d.keys| ==> d.keys[n] in catalogue
    modifies response
    ensures response.content == old(response.content) + CartText(d.keys, d.values, catalogue)
  {
    var keys, totals := d.keys, d.values;
    ghost var start := response.content;
    assert forall n :: 0 <= n < |keys| ==> keys[n] in totals && keys[n] in catalogue;
    for n := 0 to |keys|
      invariant response.content == start + CartText(keys[..n], totals, catalogue)
    {
      var k := keys[n];
      FillStep(start, keys, n, totals, catalogue);
      response.Write(Line(catalogue[k], totals[k]));
    }
    assert keys[..|keys|] == keys;
  }

}
