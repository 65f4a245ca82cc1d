/**
 * The computed fields of the user representations (backend/api/serializers.py):
 * whether the requester follows a user, and the user's recipes cut to the
 * `recipes_limit` query parameter.
 */
module UserSerializers {
  import opened Wrappers
  import opened Entities
  import opened Decimal

  /** `is_subscribed`: anonymous requesters follow nobody; otherwise the directed pair decides. */
  function GetIsSubscribed(requester: Option<UserId>, obj: UserId, subscriptions: set<(UserId, UserId)>): (r: bool)
    ensures requester.None? ==> !r
    ensures requester.Some? ==> (r <==> (requester.value, obj) in subscriptions)
  {
    match requester
    case None => false
    case Some(u) => (u, obj) in subscriptions
  }

  function Min(a: int, b: int): int { if a <= b then a else b }

  /**
   * The page size asked for: no parameter or an empty one asks for none;
   * otherwise the text is converted to an integer, which may fail.
   */
  function PageSize(recipesLimit: Option<string>): Option<int> {
    match recipesLimit
    case None => None
    case Some(s) => if s == "" then None else ParseInt(s)
  }

  /**
   * `recipes`: the first page of the user's recipes when the limit is a
   * positive integer; every recipe when it is absent, not an integer, zero or
   * negative (the paginator then fails and the failure is swallowed).
   */
  function GetRecipes(qset: seq<Recipe>, recipesLimit: Option<string>): (r: seq<Recipe>)
    ensures r <= qset
    ensures PageSize(recipesLimit).Some? && PageSize(recipesLimit).value >= 1 ==>
              |r| == Min(PageSize(recipesLimit).value, |qset|)
    ensures !(PageSize(recipesLimit).Some? && PageSize(recipesLimit).value >= 1) ==> r == qset
  {
    var size := PageSize(recipesLimit);
    if size.Some? && size.value >= 1 then qset[..Min(size.value, |qset|)] else qset
  }

  /** A limit of `k` written in decimal keeps the first `k` recipes (or all, when there are fewer). */
  lemma LimitKeepsFirst(qset: seq<Recipe>, k: int)
    requires k >= 1
    ensures GetRecipes(qset, Some(IntToString(k))) == qset[..Min(k, |qset|)]
  {
    IntToStringRoundTrip(k);
  }

  /** A limit of zero or below, or one that is not a number, keeps every recipe. */
  lemma NonPositiveLimitKeepsAll(qset: seq<Recipe>, k: int)
    requires k <= 0
    ensures GetRecipes(qset, Some(IntToString(k))) == qset
    ensures GetRecipes(qset, Some("all")) == qset
  {
    IntToStringRoundTrip(k);
  }
}
