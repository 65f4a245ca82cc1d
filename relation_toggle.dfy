/**
 * Add-once and remove-once on a user's relation sets (backend/api/decorators.py),
 * together with the view bodies they wrap (backend/api/views.py): the
 * self-subscription guard and the favorite counter.
 */
module RelationToggle {
  import opened Wrappers
  import opened Entities
  import opened Database
  import UserSerializers

  /** The three relation managers of a user: `favorites`, `shopping_list`, `subscriptions`. */
  datatype Kind = Favorites | ShoppingCart | Subscriptions

  datatype Error = NotFound | AlreadyAdded(kind: Kind) | NotPresent(kind: Kind) | SelfSubscription

  /** 201 with the target's representation, 204 with no body, or a client error. */
  datatype Reply = Created(target: int) | NoContent | Rejected(error: Error)

  function Status(r: Reply): int {
    match r
    case Created(_) => 201
    case NoContent => 204
    case Rejected(NotFound) => 404
    case Rejected(_) => 400
  }

  /** The pairs (user, target) of one relation kind. */
  function Relation(db: Db, kind: Kind): set<(UserId, int)>
    reads db
  {
    match kind
    case Favorites => db.favorites
    case ShoppingCart => db.shoppingList
    case Subscriptions => db.subscriptions
  }

  /** `get_object()` finds the target: a recipe for favorites and the cart, a user for subscriptions. */
  predicate TargetExists(db: Db, kind: Kind, target: int)
    reads db
  {
    if kind == Subscriptions then target in db.users else target in db.recipes
  }

  /** The recipe with its favorite counter raised by one. */
  function Favorited(r: Recipe): (r': Recipe)
    ensures r'.timesFavorited == r.timesFavorited + 1
    ensures r' == r.(timesFavorited := r'.timesFavorited)
  {
    r.(timesFavorited := r.timesFavorited + 1)
  }

  /**
   * The view body `m2m_set` runs between its membership check and the add:
   * `subscribe` refuses the requester itself, `favorite` raises the recipe's
   * counter, `shopping_cart` does nothing.
   */
  method SetBody(db: Db, kind: Kind, actor: UserId, target: int) returns (err: Option<Error>)
    requires db.Valid() && TargetExists(db, kind, target)
    modifies db`recipes
    ensures db.Valid()
    ensures err == if kind == Subscriptions && actor == target then Some(SelfSubscription) else None
    ensures kind == Favorites ==> db.recipes == old(db.recipes)[target := Favorited(old(db.recipes)[target])]
    ensures kind != Favorites ==> db.recipes == old(db.recipes)
  {
    match kind
    case Subscriptions =>
      err := if actor == target then Some(SelfSubscription) else None;
    case Favorites =>
      db.recipes := db.recipes[target := Favorited(db.recipes[target])];
      err := None;
    case ShoppingCart =>
      err := None;
  }

  /** `manager.add(obj)`. */
  method Add(db: Db, kind: Kind, actor: UserId, target: int)
    requires db.Valid() && actor in db.users && TargetExists(db, kind, target)
    requires kind == Subscriptions ==> actor != target
    modifies db`favorites, db`shoppingList, db`subscriptions
    ensures db.Valid()
    ensures Relation(db, kind) == old(Relation(db, kind)) + {(actor, target)}
    ensures forall k :: k != kind ==> Relation(db, k) == old(Relation(db, k))
  {
    match kind
    case Favorites => db.favorites := db.favorites + {(actor, target)};
    case ShoppingCart => db.shoppingList := db.shoppingList + {(actor, target)};
    case Subscriptions => db.subscriptions := db.subscriptions + {(actor, target)};
  }

  /** `manager.remove(obj)`. */
  method Remove(db: Db, kind: Kind, actor: UserId, target: int)
    requires db.Valid()
    modifies db`favorites, db`shoppingList, db`subscriptions
    ensures db.Valid()
    ensures Relation(db, kind) == old(Relation(db, kind)) - {(actor, target)}
    ensures forall k :: k != kind ==> Relation(db, k) == old(Relation(db, k))
  {
    match kind
    case Favorites => db.favorites := db.favorites - {(actor, target)};
    case ShoppingCart => db.shoppingList := db.shoppingList - {(actor, target)};
    case Subscriptions => db.subscriptions := db.subscriptions - {(actor, target)};
  }

  /**
   * `m2m_set`: a missing target is not found; a target already related is
   * refused before the view body runs; a body that refuses leaves everything
   * as it was; otherwise the pair is added and the target returned with 201.
   */
  method M2MSet(db: Db, kind: Kind, actor: UserId, target: int) returns (reply: Reply)
    requires db.Valid() && actor in db.users
    modifies db`recipes, db`favorites, db`shoppingList, db`subscriptions
    ensures db.Valid()
    ensures !old(TargetExists(db, kind, target)) ==> reply == Rejected(NotFound)
    ensures old(TargetExists(db, kind, target)) && (actor, target) in old(Relation(db, kind)) ==>
              reply == Rejected(AlreadyAdded(kind))
    ensures (old(TargetExists(db, kind, target)) && (actor, target) !in old(Relation(db, kind)) &&
             kind == Subscriptions && actor == target) ==> reply == Rejected(SelfSubscription)
    ensures reply.Created? <==>
              old(TargetExists(db, kind, target)) && (actor, target) !in old(Relation(db, kind)) &&
              !(kind == Subscriptions && actor == target)
    ensures reply.Rejected? ==> unchanged(db)
    ensures reply.Created? ==> reply.target == target && Status(reply) == 201
    ensures reply.Created? ==> Relation(db, kind) == old(Relation(db, kind)) + {(actor, target)}
    ensures reply.Created? ==> |Relation(db, kind)| == |old(Relation(db, kind))| + 1
    ensures forall k :: k != kind ==> Relation(db, k) == old(Relation(db, k))
    ensures reply.Created? && kind == Favorites ==>
              db.recipes == old(db.recipes)[target := Favorited(old(db.recipes)[target])]
    ensures !(reply.Created? && kind == Favorites) ==> db.recipes == old(db.recipes)
    ensures reply.Created? && kind == Subscriptions ==>
              UserSerializers.GetIsSubscribed(Some(actor), target, db.subscriptions)
  {
    if !TargetExists(db, kind, target) {
      return Rejected(NotFound);
    }
    if (actor, target) in Relation(db, kind) {
      return Rejected(AlreadyAdded(kind));
    }
    var err := SetBody(db, kind, actor, target);
    if err.Some? {
      return Rejected(err.value);
    }
    Add(db, kind, actor, target);
    reply := Created(target);
  }

  /**
   * `m2m_unset`: a missing target is not found; a target not related is
   * refused; otherwise the pair is removed and 204 returned with no body.
   */
  method M2MUnset(db: Db, kind: Kind, actor: UserId, target: int) returns (reply: Reply)
    requires db.Valid() && actor in db.users
    modifies db`favorites, db`shoppingList, db`subscriptions
    ensures db.Valid()
    ensures reply == if !old(TargetExists(db, kind, target)) then Rejected(NotFound)
                     else if (actor, target) !in old(Relation(db, kind)) then Rejected(NotPresent(kind))
                     else NoContent
    ensures reply.Rejected? ==> unchanged(db)
    ensures reply == NoContent ==> Status(reply) == 204
    ensures reply == NoContent ==> Relation(db, kind) == old(Relation(db, kind)) - {(actor, target)}
    ensures reply == NoContent ==> |Relation(db, kind)| == |old(Relation(db, kind))| - 1
    ensures forall k :: k != kind ==> Relation(db, k) == old(Relation(db, k))
    ensures reply == NoContent && kind == Subscriptions ==>
              !UserSerializers.GetIsSubscribed(Some(actor), target, db.subscriptions)
  {
    if !TargetExists(db, kind, target) {
      return Rejected(NotFound);
    }
    if (actor, target) !in Relation(db, kind) {
      return Rejected(NotPresent(kind));
    }
    Remove(db, kind, actor, target);
    reply := NoContent;
  }

  /** A successful add followed by a remove of the same target restores every relation. */
  method SetThenUnset(db: Db, kind: Kind, actor: UserId, target: int) returns (first: Reply, second: Reply)
    requires db.Valid() && actor in db.users
    modifies db`recipes, db`favorites, db`shoppingList, db`subscriptions
    ensures db.Valid()
    ensures first.Created? ==> second == NoContent
    ensures first.Created? ==> forall k :: Relation(db, k) == old(Relation(db, k))
  {
    first := M2MSet(db, kind, actor, target);
    second := M2MUnset(db, kind, actor, target);
  }
}
