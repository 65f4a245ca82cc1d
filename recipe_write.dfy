/**
 * The recipe write path (backend/api/serializers.py, RecipeCreateSerializer):
 * validation of the request body field by field, then the cross-field check,
 * then creation of a recipe with its tag set and ingredient rows, or
 * replacement of an existing recipe's fields, tags and rows.
 */
module RecipeWrite {
  import opened Wrappers
  import opened Dicts
  import opened Entities
  import opened Database
  import ImageUri

  /** One element of the `ingredients` list of the request body. */
  datatype IngredientItem = IngredientItem(id: IngredientId, amount: int)

  /** The request body; a field that was not sent is `None`. */
  datatype Payload = Payload(
    ingredients: Option<seq<IngredientItem>>,
    name: Option<string>,
    image: Option<ImageUri.Value>,
    text: Option<string>,
    cookingTime: Option<int>,
    tags: Option<seq<TagId>>)

  datatype Field = IngredientsField | NameField | ImageField | TextField | CookingTimeField | TagsField

  datatype FieldError =
    | Required(field: Field)
    | IngredientsEmpty
    | IngredientsNotUnique
    | TagsEmpty
    | TagsNotUnique
    | UnknownIngredient(ingredient: IngredientId)
    | AmountTooSmall
    | UnknownTag(tag: TagId)
    | ImageFormat
    | CookingTimeTooSmall
    | Blank(field: Field)
    | NullCharacters(field: Field)

  /** The validated data: ingredients as an id -> amount dict, the other fields as sent. */
  datatype Validated = Validated(
    ingredients: Dict<IngredientId, int>,
    name: Option<string>,
    image: Option<ImageFile>,
    text: Option<string>,
    cookingTime: Option<int>,
    tags: seq<TagId>)

  predicate DistinctIds(items: seq<IngredientItem>) {
    forall i, j :: 0 <= i < j < |items| ==> items[i].id != items[j].id
  }

  /** The dict built from the items, one entry per item, in list order. */
  function DictOf(items: seq<IngredientItem>): (d: Dict<IngredientId, int>)
    ensures Valid(d)
  {
    if items == [] then Empty()
    else Put(DictOf(items[..|items| - 1]), items[|items| - 1].id, items[|items| - 1].amount)
  }

  /** An id is a key of the dict exactly when some item carries it. */
  lemma {:induction false} DictOfKeys(items: seq<IngredientItem>)
    ensures forall x :: x in DictOf(items).values <==> exists k :: 0 <= k < |items| && items[k].id == x
    decreases |items|
  {
    if items != [] {
      var front := items[..|items| - 1];
      DictOfKeys(front);
      forall x | x in DictOf(items).values ensures exists k :: 0 <= k < |items| && items[k].id == x {
        if x != items[|items| - 1].id {
          var k :| 0 <= k < |front| && front[k].id == x;
          assert items[k].id == x;
        }
      }
    }
  }

  /** Without repeated ids the dict has one entry per item, in order, with the item's amount. */
  lemma {:induction false} DictOfEntries(items: seq<IngredientItem>)
    requires DistinctIds(items)
    ensures |DictOf(items).keys| == |items|
    ensures forall k :: 0 <= k < |items| ==>
              DictOf(items).keys[k] == items[k].id && DictOf(items).values[items[k].id] == items[k].amount
    decreases |items|
  {
    if items != [] {
      var front := items[..|items| - 1];
      var last := items[|items| - 1];
      DictOfEntries(front);
      DictOfKeys(front);
      var d := DictOf(front);
      assert last.id !in d.values;
      var e := DictOf(items);
      assert e == Put(d, last.id, last.amount);
      assert e.keys == d.keys + [last.id] && e.values == d.values[last.id := last.amount];
      forall k | 0 <= k < |items| ensures e.keys[k] == items[k].id && e.values[items[k].id] == items[k].amount {
        if k < |front| {
          assert items[k] == front[k];
          assert items[k].id != last.id;
        }
      }
    }
  }

  /** One step of the loop: the next item is either a repeat, or extends the dict by one entry. */
  lemma ItemStep(items: seq<IngredientItem>, n: nat)
    requires n < |items| && DistinctIds(items[..n])
    ensures DictOf(items[..n + 1]) == Put(DictOf(items[..n]), items[n].id, items[n].amount)
    ensures items[n].id in DictOf(items[..n]).values ==> items != [] && !DistinctIds(items)
    ensures items[n].id !in DictOf(items[..n]).values ==> DistinctIds(items[..n + 1])
  {
    DictOfKeys(items[..n]);
    assert items[..n + 1][..n] == items[..n];
    if items[n].id in DictOf(items[..n]).values {
      var k :| 0 <= k < n && items[..n][k].id == items[n].id;
      assert items[k].id == items[n].id;
    }
  }

  /** After the whole list, the loop's dict is the specification's. */
  lemma AllItems(items: seq<IngredientItem>)
    requires DistinctIds(items[..|items|])
    ensures DistinctIds(items)
    ensures IngredientAmounts(items) == if items == [] then Err(IngredientsEmpty) else Ok(DictOf(items[..|items|]))
    ensures |DictOf(items).keys| == |items|
    ensures forall k :: 0 <= k < |items| ==>
              DictOf(items).keys[k] == items[k].id && DictOf(items).values[items[k].id] == items[k].amount
  {
    assert items[..|items|] == items;
    DictOfEntries(items);
  }

  /** What `validate_ingredients` returns for a list whose items are each valid. */
  function IngredientAmounts(items: seq<IngredientItem>): Result<Dict<IngredientId, int>, FieldError> {
    if items == [] then Err(IngredientsEmpty)
    else if !DistinctIds(items) then Err(IngredientsNotUnique)
    else Ok(DictOf(items))
  }

  /**
   * `validate_ingredients`: an empty list is refused; otherwise the items fill
   * an id -> amount dict and a repeated id is refused as soon as it is met.
   */
  method ValidateIngredients(items: seq<IngredientItem>) returns (r: Result<Dict<IngredientId, int>, FieldError>)
    ensures r == IngredientAmounts(items)
    ensures items == [] ==> r == Err(IngredientsEmpty)
    ensures items != [] && !DistinctIds(items) ==> r == Err(IngredientsNotUnique)
    ensures r.Ok? <==> items != [] && DistinctIds(items)
    ensures r.Ok? ==> Valid(r.value) && |r.value.keys| == |items|
    ensures r.Ok? ==> forall k :: 0 <= k < |items| ==>
              r.value.keys[k] == items[k].id && r.value.values[items[k].id] == items[k].amount
  {
    if items == [] {
      return Err(IngredientsEmpty);
    }
    var amounts := Empty();
    for n := 0 to |items|
      invariant amounts == DictOf(items[..n])
      invariant DistinctIds(items[..n])
    {
      ItemStep(items, n);
      if items[n].id in amounts.values {
        return Err(IngredientsNotUnique);
      }
      amounts := Put(amounts, items[n].id, items[n].amount);
    }
    AllItems(items);
    r := Ok(amounts);
  }

  function Elems<T>(s: seq<T>): set<T> {
    set x | x in s
  }

  /** A list has as many elements as its set exactly when it repeats nothing. */
  lemma {:induction false} CardinalityDistinct<T>(s: seq<T>)
    ensures |Elems(s)| <= |s|
    ensures |Elems(s)| == |s| <==> Distinct(s)
    decreases |s|
  {
    if s != [] {
      var front := s[..|s| - 1];
      var last := s[|s| - 1];
      CardinalityDistinct(front);
      assert Elems(s) == Elems(front) + {last};
      if last in front {
        assert Elems(s) == Elems(front);
        var k :| 0 <= k < |front| && front[k] == last;
        assert s[k] == s[|s| - 1];
      } else {
        assert Distinct(s) <==> Distinct(front);
      }
    }
  }

  /** `validate_tags`: an empty list or one whose set is smaller than the list is refused. */
  function ValidateTags(tags: seq<TagId>): (r: Result<seq<TagId>, FieldError>)
    ensures tags == [] ==> r == Err(TagsEmpty)
    ensures tags != [] && !Distinct(tags) ==> r == Err(TagsNotUnique)
    ensures r.Ok? <==> tags != [] && Distinct(tags)
    ensures r.Ok? ==> r.value == tags
  {
    CardinalityDistinct(tags);
    if tags == [] then Err(TagsEmpty)
    else if |tags| != |Elems(tags)| then Err(TagsNotUnique)
    else Ok(tags)
  }

  /** The item serializer: every id names an ingredient, every amount passes its validator. */
  function CheckItems(items: seq<IngredientItem>, catalogue: map<IngredientId, Ingredient>): (r: Result<(), FieldError>)
    ensures r.Ok? <==> forall k :: 0 <= k < |items| ==> items[k].id in catalogue && items[k].amount >= MinAmount
  {
    if items == [] then Ok(())
    else if items[0].id !in catalogue then Err(UnknownIngredient(items[0].id))
    else if items[0].amount < MinAmount then Err(AmountTooSmall)
    else
      var rest := CheckItems(items[1..], catalogue);
      assert forall k :: 1 <= k < |items| ==> items[k] == items[1..][k - 1];
      rest
  }

  /** The tag field: every id names a tag. */
  function CheckTagIds(tags: seq<TagId>, table: map<TagId, Tag>): (r: Result<(), FieldError>)
    ensures r.Ok? <==> forall k :: 0 <= k < |tags| ==> tags[k] in table
  {
    if tags == [] then Ok(())
    else if tags[0] !in table then Err(UnknownTag(tags[0]))
    else
      var rest := CheckTagIds(tags[1..], table);
      assert forall k :: 1 <= k < |tags| ==> tags[k] == tags[1..][k - 1];
      rest
  }

  /** What field validation made of one field. */
  datatype Outcome<T> = Absent | Accepted(value: T) | Refused(error: FieldError)

  /** A field that was not sent: an error only when every field is required (create). */
  function Missing<T>(partial: bool, field: Field): Outcome<T> {
    if partial then Absent else Refused(Required(field))
  }

  function IngredientsOutcome(v: Option<seq<IngredientItem>>, partial: bool, catalogue: map<IngredientId, Ingredient>): (o: Outcome<Dict<IngredientId, int>>)
    ensures o.Accepted? ==> v.Some? && IngredientAmounts(v.value) == Ok(o.value)
    ensures o.Accepted? ==> forall k :: 0 <= k < |v.value| ==> v.value[k].id in catalogue && v.value[k].amount >= MinAmount
    ensures o.Absent? <==> v.None? && partial
    ensures v.Some? ==> (o.Accepted? <==> CheckItems(v.value, catalogue).Ok? && IngredientAmounts(v.value).Ok?)
  {
    match v
    case None => Missing(partial, IngredientsField)
    case Some(items) =>
      match CheckItems(items, catalogue)
      case Err(e) => Refused(e)
      case Ok(_) =>
        match IngredientAmounts(items)
        case Err(e) => Refused(e)
        case Ok(d) => Accepted(d)
  }

  function TagsOutcome(v: Option<seq<TagId>>, partial: bool, table: map<TagId, Tag>): (o: Outcome<seq<TagId>>)
    ensures o.Accepted? ==> v == Some(o.value) && o.value != [] && Distinct(o.value)
    ensures o.Accepted? ==> forall t :: t in o.value ==> t in table
    ensures o.Absent? <==> v.None? && partial
    ensures v.Some? ==> (o.Accepted? <==> CheckTagIds(v.value, table).Ok? && ValidateTags(v.value).Ok?)
  {
    match v
    case None => Missing(partial, TagsField)
    case Some(tags) =>
      match CheckTagIds(tags, table)
      case Err(e) => Refused(e)
      case Ok(_) =>
        match ValidateTags(tags)
        case Err(e) => Refused(e)
        case Ok(t) => Accepted(t)
  }

  function ImageOutcome(v: Option<ImageUri.Value>, partial: bool): (o: Outcome<ImageFile>)
    ensures o.Absent? <==> v.None? && partial
    ensures v.Some? ==> (o.Accepted? <==> ImageUri.Parse(v.value).Ok?)
    ensures o.Accepted? ==> v.Some? && ImageUri.Parse(v.value).Ok? && o.value == ImageFile(ImageUri.Parse(v.value).value.format, ImageUri.Parse(v.value).value.payload)
  {
    match v
    case None => Missing(partial, ImageField)
    case Some(value) =>
      match ImageUri.Parse(value)
      case Err(_) => Refused(ImageFormat)
      case Ok(uri) => Accepted(ImageFile(uri.format, uri.payload))
  }

  function CookingTimeOutcome(v: Option<int>, partial: bool): (o: Outcome<int>)
    ensures o.Accepted? ==> v == Some(o.value) && o.value >= MinCookingTime
    ensures v.Some? ==> (o.Accepted? <==> v.value >= MinCookingTime)
    ensures o.Absent? <==> v.None? && partial
  {
    match v
    case None => Missing(partial, CookingTimeField)
    case Some(t) => if t < MinCookingTime then Refused(CookingTimeTooSmall) else Accepted(t)
  }

  /** The characters Python's `str.isspace()` holds for, which `str.strip()` removes. */
  predicate IsSpace(c: char) {
    c == ' ' || '\t' <= c <= '\r' || '\U{1C}' <= c <= '\U{1F}' || c == '\U{85}' || c == '\U{A0}' ||
    c == '\U{1680}' || '\U{2000}' <= c <= '\U{200A}' || c == '\U{2028}' || c == '\U{2029}' ||
    c == '\U{202F}' || c == '\U{205F}' || c == '\U{3000}'
  }

  predicate AllSpace(s: string) {
    forall i :: 0 <= i < |s| ==> IsSpace(s[i])
  }

  /** The number of whitespace characters `s` starts with. */
  function LeadingSpaces(s: string): (n: nat)
    ensures n <= |s|
    ensures forall i :: 0 <= i < n ==> IsSpace(s[i])
    ensures n < |s| ==> !IsSpace(s[n])
  {
    if s == [] || !IsSpace(s[0]) then 0 else 1 + LeadingSpaces(s[1..])
  }

  /** The number of whitespace characters `s` ends with. */
  function TrailingSpaces(s: string): (n: nat)
    ensures n <= |s|
    ensures forall i :: |s| - n <= i < |s| ==> IsSpace(s[i])
    ensures n < |s| ==> !IsSpace(s[|s| - 1 - n])
  {
    if s == [] || !IsSpace(s[|s| - 1]) then 0 else 1 + TrailingSpaces(s[..|s| - 1])
  }

  /** `str.lstrip()`: the string from its first non-whitespace character on. */
  function TrimStart(s: string): (r: string)
    ensures |r| <= |s| && r == s[|s| - |r|..]
    ensures AllSpace(s[..|s| - |r|])
    ensures r != [] ==> !IsSpace(r[0])
  {
    s[LeadingSpaces(s)..]
  }

  /** `str.rstrip()`: the string up to its last non-whitespace character. */
  function TrimEnd(s: string): (r: string)
    ensures |r| <= |s| && r == s[..|r|]
    ensures AllSpace(s[|r|..])
    ensures r != [] ==> !IsSpace(r[|r| - 1])
  {
    s[..|s| - TrailingSpaces(s)]
  }

  /**
   * `str.strip()`, which a `CharField` with `trim_whitespace` applies: the
   * result is empty exactly when the string is all whitespace, and otherwise
   * starts and ends with a non-whitespace character.
   */
  function Strip(s: string): (r: string)
    ensures |r| <= |s|
    ensures r == [] <==> AllSpace(s)
    ensures r != [] ==> !IsSpace(r[0]) && !IsSpace(r[|r| - 1])
  {
    var t := TrimStart(s);
    assert s == s[..|s| - |t|] + t;
    TrimEnd(t)
  }

  /** Stripping removes whitespace only: the string is the result with whitespace `p` before it and `q` after it. */
  lemma StripIsMiddle(s: string) returns (p: string, q: string)
    ensures AllSpace(p) && AllSpace(q)
    ensures s == p + Strip(s) + q
  {
    var t := TrimStart(s);
    p := s[..|s| - |t|];
    q := t[|TrimEnd(t)|..];
    SplitAt(s, |s| - |t|);
    SplitAt(t, |TrimEnd(t)|);
    AppendAssoc(p, TrimEnd(t), q);
  }

  lemma SplitAt<T>(s: seq<T>, k: nat)
    requires k <= |s|
    ensures s == s[..k] + s[k..]
  {
  }

  /** Leading whitespace before a string that does not start with whitespace is all `lstrip` removes. */
  lemma TrimStartSkips(p: string, x: string)
    requires AllSpace(p)
    requires x != [] ==> !IsSpace(x[0])
    ensures TrimStart(p + x) == x
  {
    var n := LeadingSpaces(p + x);
    assert forall i :: 0 <= i < |p| ==> (p + x)[i] == p[i];
    assert (p + x)[|p|..] == x;
  }

  /** Trailing whitespace after a string that does not end with whitespace is all `rstrip` removes. */
  lemma TrimEndSkips(x: string, q: string)
    requires AllSpace(q)
    requires x != [] ==> !IsSpace(x[|x| - 1])
    ensures TrimEnd(x + q) == x
  {
    var n := TrailingSpaces(x + q);
    assert forall i :: |x| <= i < |x + q| ==> (x + q)[i] == q[i - |x|];
    assert (x + q)[..|x|] == x;
  }

  /** Whitespace around a string without outer whitespace is exactly what stripping removes: `(p + m + q).strip() == m`. */
  lemma StripSurrounded(p: string, m: string, q: string)
    requires AllSpace(p) && AllSpace(q)
    requires m != [] ==> !IsSpace(m[0]) && !IsSpace(m[|m| - 1])
    ensures Strip(p + m + q) == m
  {
    if m == [] {
      assert p + m + q == p + q;
      assert AllSpace(p + q);
    } else {
      assert p + m + q == p + (m + q);
      assert (m + q)[0] == m[0];
      TrimStartSkips(p, m + q);
      TrimEndSkips(m, q);
    }
  }

  /**
   * A `name` or `text` field (a `CharField` with `allow_blank=False` and
   * `trim_whitespace=True`, which also prohibits null characters): an empty
   * or whitespace-only value is refused as blank, a value holding a NUL
   * character is refused for it, any other value is accepted stripped.
   */
  function TextOutcome(v: Option<string>, partial: bool, field: Field): (o: Outcome<string>)
    ensures o.Accepted? ==> v.Some? && o.value == Strip(v.value) && o.value != []
    ensures v.Some? ==> (o.Accepted? <==> Strip(v.value) != [] && '\0' !in Strip(v.value))
    ensures v.Some? && Strip(v.value) == [] ==> o == Refused(Blank(field))
    ensures v.Some? && Strip(v.value) != [] && '\0' in Strip(v.value) ==> o == Refused(NullCharacters(field))
    ensures o.Absent? <==> v.None? && partial
  {
    match v
    case None => Missing(partial, field)
    case Some(s) =>
      var t := Strip(s);
      if t == [] then Refused(Blank(field))
      else if '\0' in t then Refused(NullCharacters(field))
      else Accepted(t)
  }

  /** Stripping keeps every NUL character, since none is whitespace: a text is refused for one exactly when it holds one. */
  lemma NullCharacterRefused(s: string, partial: bool, field: Field)
    requires !AllSpace(s)
    ensures '\0' in s ==> TextOutcome(Some(s), partial, field) == Refused(NullCharacters(field))
    ensures '\0' !in s ==> TextOutcome(Some(s), partial, field) == Accepted(Strip(s))
  {
    var p, q := StripIsMiddle(s);
    assert !IsSpace('\0');
    assert '\0' !in p && '\0' !in q;
  }

  function ErrorsOf<T>(o: Outcome<T>): seq<FieldError> {
    if o.Refused? then [o.error] else []
  }

  function ValueOf<T>(o: Outcome<T>): Option<T> {
    if o.Accepted? then Some(o.value) else None
  }

  /** Validated data that the tables can take: what `create` and `update` rely on. */
  predicate Fits(v: Validated, catalogue: map<IngredientId, Ingredient>, table: map<TagId, Tag>) {
    Valid(v.ingredients) && v.ingredients.keys != [] &&
    (forall n :: 0 <= n < |v.ingredients.keys| ==>
       v.ingredients.keys[n] in catalogue && v.ingredients.values[v.ingredients.keys[n]] >= MinAmount) &&
    v.tags != [] && Distinct(v.tags) && (forall t :: t in v.tags ==> t in table) &&
    (v.cookingTime.Some? ==> v.cookingTime.value >= MinCookingTime)
  }

  /** Every field a new recipe needs is there. */
  predicate Complete(v: Validated) {
    v.name.Some? && v.image.Some? && v.text.Some? && v.cookingTime.Some?
  }

  lemma AmountsFit(items: seq<IngredientItem>, catalogue: map<IngredientId, Ingredient>)
    requires IngredientAmounts(items).Ok?
    requires forall k :: 0 <= k < |items| ==> items[k].id in catalogue && items[k].amount >= MinAmount
    ensures var d := DictOf(items);
      d.keys != [] && forall n :: 0 <= n < |d.keys| ==> d.keys[n] in catalogue && d.values[d.keys[n]] >= MinAmount
  {
    DictOfEntries(items);
  }

  /** No field of the body failed its own checks. */
  predicate NoFieldRefused(p: Payload, partial: bool, catalogue: map<IngredientId, Ingredient>, table: map<TagId, Tag>) {
    !IngredientsOutcome(p.ingredients, partial, catalogue).Refused? &&
    !TextOutcome(p.name, partial, NameField).Refused? && !ImageOutcome(p.image, partial).Refused? &&
    !TextOutcome(p.text, partial, TextField).Refused? && !CookingTimeOutcome(p.cookingTime, partial).Refused? &&
    !TagsOutcome(p.tags, partial, table).Refused?
  }

  /**
   * The validated data of a body in which no field failed and both lists were
   * sent: the ingredients' dict, the tags, and the other fields as accepted.
   */
  function Accept(p: Payload, partial: bool, catalogue: map<IngredientId, Ingredient>, table: map<TagId, Tag>): (v: Validated)
    requires p.ingredients.Some? && p.tags.Some? && NoFieldRefused(p, partial, catalogue, table)
    ensures Fits(v, catalogue, table)
    ensures !partial ==> Complete(v)
    ensures v.tags == p.tags.value
    ensures IngredientAmounts(p.ingredients.value) == Ok(v.ingredients)
    ensures v.name == (if p.name.Some? then Some(Strip(p.name.value)) else None)
    ensures v.text == (if p.text.Some? then Some(Strip(p.text.value)) else None)
    ensures v.cookingTime == p.cookingTime
    ensures p.image.None? ==> v.image.None?
    ensures p.image.Some? ==>
              (ImageUri.Parse(p.image.value).Ok? &&
               v.image == Some(ImageFile(ImageUri.Parse(p.image.value).value.format, ImageUri.Parse(p.image.value).value.payload)))
  {
    AmountsFit(p.ingredients.value, catalogue);
    Validated(IngredientsOutcome(p.ingredients, partial, catalogue).value,
              ValueOf(TextOutcome(p.name, partial, NameField)), ValueOf(ImageOutcome(p.image, partial)),
              ValueOf(TextOutcome(p.text, partial, TextField)), ValueOf(CookingTimeOutcome(p.cookingTime, partial)),
              TagsOutcome(p.tags, partial, table).value)
  }

  /**
   * The whole of validation. Each field sent is checked (in the serializer's
   * field order) and every failing field contributes its error; a field not
   * sent is an error only on create. Only when no field failed does the
   * cross-field check run: the body must carry `ingredients`, then `tags`,
   * even on a partial update.
   */
  function Validate(p: Payload, partial: bool, catalogue: map<IngredientId, Ingredient>, table: map<TagId, Tag>): (r: Result<Validated, seq<FieldError>>)
    ensures r.Err? ==> r.error != []
    ensures r.Ok? ==> Fits(r.value, catalogue, table)
    ensures r.Ok? && !partial ==> Complete(r.value)
    ensures r.Ok? ==> p.ingredients.Some? && p.tags.Some? && r.value.tags == p.tags.value
    ensures r.Ok? ==> IngredientAmounts(p.ingredients.value) == Ok(r.value.ingredients)
  {
    var ingredients := IngredientsOutcome(p.ingredients, partial, catalogue);
    var name := TextOutcome(p.name, partial, NameField);
    var image := ImageOutcome(p.image, partial);
    var text := TextOutcome(p.text, partial, TextField);
    var cookingTime := CookingTimeOutcome(p.cookingTime, partial);
    var tags := TagsOutcome(p.tags, partial, table);
    var errors := ErrorsOf(ingredients) + ErrorsOf(name) + ErrorsOf(image) +
                  ErrorsOf(text) + ErrorsOf(cookingTime) + ErrorsOf(tags);
    if errors != [] then Err(errors)
    else if p.ingredients.None? then Err([IngredientsEmpty])
    else if p.tags.None? then Err([TagsEmpty])
    else Ok(Accept(p, partial, catalogue, table))
  }

  /** A body is accepted exactly when both lists were sent and no field failed; it then yields the data built from its fields. */
  lemma AcceptedIff(p: Payload, partial: bool, catalogue: map<IngredientId, Ingredient>, table: map<TagId, Tag>)
    ensures Validate(p, partial, catalogue, table).Ok? <==>
              p.ingredients.Some? && p.tags.Some? && NoFieldRefused(p, partial, catalogue, table)
    ensures Validate(p, partial, catalogue, table).Ok? ==>
              Validate(p, partial, catalogue, table).value == Accept(p, partial, catalogue, table)
  {
  }

  /** A body without `ingredients` or without `tags` is refused, on create and on update alike. */
  lemma MissingListRefused(p: Payload, partial: bool, catalogue: map<IngredientId, Ingredient>, table: map<TagId, Tag>)
    requires p.ingredients.None? || p.tags.None?
    ensures Validate(p, partial, catalogue, table).Err?
  {
  }

  /** An empty list of ingredients or of tags is refused with its own message. */
  lemma EmptyListRefused(p: Payload, partial: bool, catalogue: map<IngredientId, Ingredient>, table: map<TagId, Tag>)
    ensures p.ingredients == Some([]) ==>
      Validate(p, partial, catalogue, table).Err? && IngredientsEmpty in Validate(p, partial, catalogue, table).error
    ensures p.tags == Some([]) ==>
      Validate(p, partial, catalogue, table).Err? && TagsEmpty in Validate(p, partial, catalogue, table).error
  {
  }

  /** On create a list not sent is reported as a required field. */
  lemma RequiredOnCreate(p: Payload, catalogue: map<IngredientId, Ingredient>, table: map<TagId, Tag>)
    ensures p.ingredients.None? ==>
      Validate(p, false, catalogue, table).Err? && Required(IngredientsField) in Validate(p, false, catalogue, table).error
    ensures p.tags.None? ==>
      Validate(p, false, catalogue, table).Err? && Required(TagsField) in Validate(p, false, catalogue, table).error
  {
  }

  /** An empty or whitespace-only `name` or `text` is refused as blank, on create and on update alike. */
  lemma BlankTextRefused(p: Payload, partial: bool, catalogue: map<IngredientId, Ingredient>, table: map<TagId, Tag>)
    ensures p.name.Some? && AllSpace(p.name.value) ==>
      Validate(p, partial, catalogue, table).Err? && Blank(NameField) in Validate(p, partial, catalogue, table).error
    ensures p.text.Some? && AllSpace(p.text.value) ==>
      Validate(p, partial, catalogue, table).Err? && Blank(TextField) in Validate(p, partial, catalogue, table).error
  {
  }

  /** An accepted body carries `name` and `text` stripped of surrounding whitespace, never blank. */
  lemma StoredTextStripped(p: Payload, partial: bool, catalogue: map<IngredientId, Ingredient>, table: map<TagId, Tag>)
    ensures var r := Validate(p, partial, catalogue, table);
      r.Ok? ==> var v := r.value;
      (p.name.Some? ==> v.name == Some(Strip(p.name.value)) && v.name.value != []) &&
      (p.text.Some? ==> v.text == Some(Strip(p.text.value)) && v.text.value != [])
  {
  }

  /** On a partial update that sends neither list, the ingredients are reported, not the tags. */
  lemma IngredientsCheckedFirst(p: Payload, catalogue: map<IngredientId, Ingredient>, table: map<TagId, Tag>)
    requires p.ingredients.None? && p.tags.None?
    requires p.image.Some? ==> ImageUri.Parse(p.image.value).Ok?
    requires p.cookingTime.Some? ==> p.cookingTime.value >= MinCookingTime
    requires p.name.Some? ==> !AllSpace(p.name.value) && '\0' !in p.name.value
    requires p.text.Some? ==> !AllSpace(p.text.value) && '\0' !in p.text.value
    ensures Validate(p, true, catalogue, table) == Err([IngredientsEmpty])
  {
    if p.name.Some? {
      NullCharacterRefused(p.name.value, true, NameField);
    }
    if p.text.Some? {
      NullCharacterRefused(p.text.value, true, TextField);
    }
  }

  /**
   * A body whose every field is well formed is accepted: both lists sent; the
   * ingredients non-empty, known, with amounts of at least 1 and no id
   * repeated; the tags non-empty, known and distinct; a sent name or text
   * neither blank nor holding a NUL; a sent image of the data-URI form; a
   * sent cooking time of at least 1; and on create every field sent.
   */
  lemma WellFormedBodyAccepted(p: Payload, partial: bool, catalogue: map<IngredientId, Ingredient>, table: map<TagId, Tag>)
    requires p.ingredients.Some? && p.tags.Some?
    requires p.ingredients.value != [] && DistinctIds(p.ingredients.value)
    requires forall k :: 0 <= k < |p.ingredients.value| ==>
               p.ingredients.value[k].id in catalogue && p.ingredients.value[k].amount >= MinAmount
    requires p.tags.value != [] && Distinct(p.tags.value)
    requires forall k :: 0 <= k < |p.tags.value| ==> p.tags.value[k] in table
    requires p.name.Some? ==> !AllSpace(p.name.value) && '\0' !in p.name.value
    requires p.text.Some? ==> !AllSpace(p.text.value) && '\0' !in p.text.value
    requires p.image.Some? ==> ImageUri.Parse(p.image.value).Ok?
    requires p.cookingTime.Some? ==> p.cookingTime.value >= MinCookingTime
    requires !partial ==> p.name.Some? && p.text.Some? && p.image.Some? && p.cookingTime.Some?
    ensures Validate(p, partial, catalogue, table).Ok?
    ensures Validate(p, partial, catalogue, table).value.tags == p.tags.value
    ensures Validate(p, partial, catalogue, table).value.cookingTime == p.cookingTime
  {
    if p.name.Some? {
      NullCharacterRefused(p.name.value, partial, NameField);
    }
    if p.text.Some? {
      NullCharacterRefused(p.text.value, partial, TextField);
    }
    assert CheckItems(p.ingredients.value, catalogue).Ok? && IngredientAmounts(p.ingredients.value).Ok?;
    assert !IngredientsOutcome(p.ingredients, partial, catalogue).Refused?;
    assert CheckTagIds(p.tags.value, table).Ok? && ValidateTags(p.tags.value).Ok?;
    assert !TagsOutcome(p.tags, partial, table).Refused?;
    assert NoFieldRefused(p, partial, catalogue, table);
    AcceptedIff(p, partial, catalogue, table);
  }

  /** A list that repeats an ingredient, all of whose items name known ingredients, is refused for that. */
  lemma RepeatedIngredientRefused(p: Payload, partial: bool, catalogue: map<IngredientId, Ingredient>, table: map<TagId, Tag>)
    requires p.ingredients.Some? && !DistinctIds(p.ingredients.value)
    requires forall k :: 0 <= k < |p.ingredients.value| ==>
               p.ingredients.value[k].id in catalogue && p.ingredients.value[k].amount >= MinAmount
    ensures Validate(p, partial, catalogue, table).Err?
    ensures IngredientsNotUnique in Validate(p, partial, catalogue, table).error
  {
    var o := IngredientsOutcome(p.ingredients, partial, catalogue);
    assert p.ingredients.value != [];
    assert o == Refused(IngredientsNotUnique);
  }

  /** The recipe after `update`: the fields sent replace the stored ones, the tags become exactly those given. */
  function Updated(r: Recipe, v: Validated): (u: Recipe)
    ensures u.id == r.id && u.author == r.author && u.pubDate == r.pubDate && u.timesFavorited == r.timesFavorited
    ensures u.tags == Elems(v.tags)
    ensures u.name == (if v.name.Some? then v.name.value else r.name)
    ensures u.text == (if v.text.Some? then v.text.value else r.text)
    ensures u.image == (if v.image.Some? then v.image.value else r.image)
    ensures u.cookingTime == (if v.cookingTime.Some? then v.cookingTime.value else r.cookingTime)
  {
    r.(name := if v.name.Some? then v.name.value else r.name,
       image := if v.image.Some? then v.image.value else r.image,
       text := if v.text.Some? then v.text.value else r.text,
       cookingTime := if v.cookingTime.Some? then v.cookingTime.value else r.cookingTime,
       tags := Elems(v.tags))
  }

  /** Appending a fresh recipe's rows, one per distinct known ingredient, keeps the join table's constraints. */
  lemma AppendRowsValid(rows: seq<RecipeIngredient>, recipes: map<RecipeId, Recipe>, catalogue: map<IngredientId, Ingredient>,
                        id: RecipeId, d: Dict<IngredientId, int>)
    requires RowsValid(rows, recipes, catalogue)
    requires id in recipes && forall i :: 0 <= i < |rows| ==> rows[i].recipe != id
    requires Valid(d)
    requires forall n :: 0 <= n < |d.keys| ==> d.keys[n] in catalogue && d.values[d.keys[n]] >= MinAmount
    ensures RowsValid(rows + RowsFor(id, d.keys, d.values), recipes, catalogue)
  {
    var added := RowsFor(id, d.keys, d.values);
    var all := rows + added;
    forall i, j | 0 <= i < j < |all|
      ensures (all[i].recipe, all[i].ingredient) != (all[j].recipe, all[j].ingredient)
    {
      if j >= |rows| && i >= |rows| {
        assert all[i] == added[i - |rows|] && all[j] == added[j - |rows|];
      }
    }
  }

  /** Dropping a recipe's rows keeps the other rows' pairs unique. */
  lemma {:induction false} WithoutUnique(rows: seq<RecipeIngredient>, id: RecipeId)
    requires UniqueRecipeIngredient(rows)
    ensures UniqueRecipeIngredient(Without(rows, id))
    decreases |rows|
  {
    if rows != [] {
      var front := rows[..|rows| - 1];
      var last := rows[|rows| - 1];
      WithoutUnique(front, id);
      if last.recipe != id {
        var s := Without(rows, id);
        forall i | 0 <= i < |s| - 1 ensures (s[i].recipe, s[i].ingredient) != (last.recipe, last.ingredient) {
          assert s[i] in Without(front, id);
          var k :| 0 <= k < |front| && front[k] == s[i];
          assert rows[k] == s[i];
        }
      }
    }
  }

  /** Without a recipe's rows, the join table keeps its constraints and holds no row of that recipe. */
  lemma WithoutValid(rows: seq<RecipeIngredient>, recipes: map<RecipeId, Recipe>, catalogue: map<IngredientId, Ingredient>, id: RecipeId)
    requires RowsValid(rows, recipes, catalogue)
    ensures RowsValid(Without(rows, id), recipes, catalogue)
    ensures forall i :: 0 <= i < |Without(rows, id)| ==> Without(rows, id)[i].recipe != id
  {
    var s := Without(rows, id);
    WithoutUnique(rows, id);
    forall i | 0 <= i < |s| ensures s[i].recipe != id && s[i].amount >= MinAmount && s[i].recipe in recipes && s[i].ingredient in catalogue {
      assert s[i] in rows;
    }
  }

  /** `Recipe.objects.create` with `tags.set`: a new recipe stored under the next id. */
  method SaveNewRecipe(db: Db, recipe: Recipe)
    requires db.Valid() && recipe.id == db.nextRecipeId
    requires ValidRecipe(recipe) && recipe.author in db.users && recipe.tags <= db.tags.Keys
    modifies db`recipes, db`nextRecipeId
    ensures db.Valid()
    ensures db.recipes == old(db.recipes)[recipe.id := recipe] && db.nextRecipeId == recipe.id + 1
    ensures recipe.id !in old(db.recipes)
    ensures forall i :: 0 <= i < |db.recipeIngredients| ==> db.recipeIngredients[i].recipe != recipe.id
  {
    db.recipes := db.recipes[recipe.id := recipe];
    db.nextRecipeId := db.nextRecipeId + 1;
  }

  /** `instance.save()` after its fields and `tags.set` changed: the stored recipe is replaced. */
  method SaveRecipe(db: Db, recipe: Recipe)
    requires db.Valid() && recipe.id in db.recipes
    requires ValidRecipe(recipe) && recipe.author in db.users && recipe.tags <= db.tags.Keys
    modifies db`recipes
    ensures db.Valid()
    ensures db.recipes == old(db.recipes)[recipe.id := recipe]
  {
    db.recipes := db.recipes[recipe.id := recipe];
  }

  /** `instance.ingredients.clear()`: the recipe's join rows are deleted, the others stay in order. */
  method ClearRows(db: Db, id: RecipeId)
    requires db.Valid()
    modifies db`recipeIngredients
    ensures db.Valid()
    ensures db.recipeIngredients == Without(old(db.recipeIngredients), id)
    ensures forall i :: 0 <= i < |db.recipeIngredients| ==> db.recipeIngredients[i].recipe != id
  {
    WithoutValid(db.recipeIngredients, db.recipes, db.ingredients, id);
    db.recipeIngredients := Without(db.recipeIngredients, id);
  }

  /** The loop over the dict's items that creates one join row per entry, in the dict's order. */
  method CreateRows(db: Db, id: RecipeId, d: Dict<IngredientId, int>)
    requires Valid(d)
    modifies db`recipeIngredients
    ensures db.recipeIngredients == old(db.recipeIngredients) + RowsFor(id, d.keys, d.values)
  {
    var keys := d.keys;
    for n := 0 to |keys|
      invariant db.recipeIngredients == old(db.recipeIngredients) + RowsFor(id, keys[..n], d.values)
    {
      assert keys[..n + 1][..n] == keys[..n];
      db.recipeIngredients := db.recipeIngredients + [RecipeIngredient(id, keys[n], d.values[keys[n]])];
    }
    assert keys[..|keys|] == keys;
  }

  /** Appending the rows of a recipe that had none keeps the table's constraints and gives it exactly those rows. */
  lemma AppendFreshRows(rows: seq<RecipeIngredient>, recipes: map<RecipeId, Recipe>, catalogue: map<IngredientId, Ingredient>,
                        id: RecipeId, d: Dict<IngredientId, int>)
    requires RowsValid(rows, recipes, catalogue)
    requires id in recipes && forall i :: 0 <= i < |rows| ==> rows[i].recipe != id
    requires Valid(d)
    requires forall n :: 0 <= n < |d.keys| ==> d.keys[n] in catalogue && d.values[d.keys[n]] >= MinAmount
    ensures RowsValid(rows + RowsFor(id, d.keys, d.values), recipes, catalogue)
    ensures RowsOf(rows + RowsFor(id, d.keys, d.values), id) == RowsFor(id, d.keys, d.values)
  {
    AppendRowsValid(rows, recipes, catalogue, id, d);
    WithoutNothing(rows, id);
    ReplaceRows(rows, id, d.keys, d.values, id);
  }

  lemma {:induction false} WithoutNothing(rows: seq<RecipeIngredient>, id: RecipeId)
    requires forall i :: 0 <= i < |rows| ==> rows[i].recipe != id
    ensures Without(rows, id) == rows
    decreases |rows|
  {
    if rows != [] {
      var front, last := rows[..|rows| - 1], rows[|rows| - 1];
      assert forall i :: 0 <= i < |front| ==> front[i] == rows[i];
      WithoutNothing(front, id);
      assert last.recipe != id;
      calc {
        Without(rows, id);
        Without(front, id) + [last];
        front + [last];
        rows;
      }
    }
  }

  lemma TagsFit(tags: seq<TagId>, table: map<TagId, Tag>)
    requires forall t :: t in tags ==> t in table
    ensures Elems(tags) <= table.Keys
  {
    forall t | t in Elems(tags) ensures t in table {
      assert t in tags;
    }
  }

  /**
   * `create`: store a new recipe (never favorited yet) with exactly the given
   * tags, then one ingredient row per dict entry carrying its amount.
   */
  method Create(db: Db, author: UserId, v: Validated, now: int) returns (id: RecipeId)
    requires db.Valid() && author in db.users
    requires Fits(v, db.ingredients, db.tags) && Complete(v)
    modifies db`recipes, db`recipeIngredients, db`nextRecipeId
    ensures db.Valid()
    ensures id == old(db.nextRecipeId) && id !in old(db.recipes) && db.nextRecipeId == id + 1
    ensures db.recipes == old(db.recipes)[id := NewRecipe(id, author, v.name.value, v.text.value, v.cookingTime.value,
                                                          v.image.value, now, Elems(v.tags))]
    ensures db.recipeIngredients == old(db.recipeIngredients) + RowsFor(id, v.ingredients.keys, v.ingredients.values)
    ensures RowsOf(db.recipeIngredients, id) == RowsFor(id, v.ingredients.keys, v.ingredients.values)
  {
    id := db.nextRecipeId;
    TagsFit(v.tags, db.tags);
    SaveNewRecipe(db, NewRecipe(id, author, v.name.value, v.text.value, v.cookingTime.value, v.image.value, now, Elems(v.tags)));
    AddIngredients(db, id, v.ingredients);
  }

  /** The row-creating loop for a recipe that has no rows yet: the table keeps its constraints. */
  method AddIngredients(db: Db, id: RecipeId, d: Dict<IngredientId, int>)
    requires db.Valid() && id in db.recipes
    requires forall i :: 0 <= i < |db.recipeIngredients| ==> db.recipeIngredients[i].recipe != id
    requires Valid(d)
    requires forall n :: 0 <= n < |d.keys| ==> d.keys[n] in db.ingredients && d.values[d.keys[n]] >= MinAmount
    modifies db`recipeIngredients
    ensures db.Valid()
    ensures db.recipeIngredients == old(db.recipeIngredients) + RowsFor(id, d.keys, d.values)
    ensures RowsOf(db.recipeIngredients, id) == RowsFor(id, d.keys, d.values)
  {
    AppendFreshRows(db.recipeIngredients, db.recipes, db.ingredients, id, d);
    CreateRows(db, id, d);
  }

  /** `ingredients.clear()` followed by the row-creating loop: the recipe's rows become the dict's. */
  method SetIngredients(db: Db, id: RecipeId, d: Dict<IngredientId, int>)
    requires db.Valid() && id in db.recipes
    requires Valid(d)
    requires forall n :: 0 <= n < |d.keys| ==> d.keys[n] in db.ingredients && d.values[d.keys[n]] >= MinAmount
    modifies db`recipeIngredients
    ensures db.Valid()
    ensures db.recipeIngredients == Without(old(db.recipeIngredients), id) + RowsFor(id, d.keys, d.values)
  {
    ClearRows(db, id);
    AddIngredients(db, id, d);
  }

  /**
   * `update`: the old image is deleted when a new one is sent; the sent
   * fields replace the stored ones; the tags are set to exactly the given
   * tags; the recipe's ingredient rows are cleared and recreated from the
   * dict (`Entities.ReplaceRows` says what that leaves each recipe with).
   */
  method Update(db: Db, id: RecipeId, v: Validated)
    requires db.Valid() && id in db.recipes
    requires Fits(v, db.ingredients, db.tags)
    modifies db`recipes, db`recipeIngredients, db`storageLog
    ensures db.Valid()
    ensures db.storageLog == old(db.storageLog) + (if v.image.Some? then [ImageDeleted(id, old(db.recipes[id].image))] else [])
    ensures db.recipes == old(db.recipes)[id := Updated(old(db.recipes[id]), v)]
    ensures db.recipes[id].tags == Elems(v.tags)
    ensures db.recipeIngredients == Without(old(db.recipeIngredients), id) + RowsFor(id, v.ingredients.keys, v.ingredients.values)
  {
    db.storageLog := db.storageLog + (if v.image.Some? then [ImageDeleted(id, db.recipes[id].image)] else []);
    TagsFit(v.tags, db.tags);
    SaveRecipe(db, Updated(db.recipes[id], v));
    SetIngredients(db, id, v.ingredients);
  }

}
