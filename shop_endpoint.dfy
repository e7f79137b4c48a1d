/** `POST /shop/{item_id}` of src/endpoints/shop.py: look the item up, check the rank and
    then the points of the current user, buy and commit. */
module ShopEndpoint {
  import opened Errors
  import opened Schemas
  import opened Tables
  import opened Database
  import UserService
  import opened ShopService

  const RANK_TOO_LOW := BadRequest("User rank is lower than required")
  const NOT_ENOUGH_POINTS := BadRequest("User does not have enough points")

  /** The guard sequence: the item must exist, then the rank must reach the item's, then
      the points must cover the price. Ok carries the item bought. */
  function PurchaseCheck(items: seq<ShopItem>, user: UserDetail, itemId: int): (r: Result<ShopItem>)
    ensures ItemDetail(items, itemId).Err? ==> r == Err(NotFound)
    ensures ItemDetail(items, itemId).Ok? && user.rank < ItemDetail(items, itemId).value.rankToUnlock ==>
              r == Err(RANK_TOO_LOW)
    ensures (ItemDetail(items, itemId).Ok? && user.rank >= ItemDetail(items, itemId).value.rankToUnlock &&
             user.points < ItemDetail(items, itemId).value.price) ==> r == Err(NOT_ENOUGH_POINTS)
    ensures r.Ok? <==> ItemDetail(items, itemId).Ok? && user.rank >= ItemDetail(items, itemId).value.rankToUnlock &&
                       user.points >= ItemDetail(items, itemId).value.price
    ensures r.Ok? ==> r == ItemDetail(items, itemId)
  {
    match ItemDetail(items, itemId)
    case Err(e) => Err(e)
    case Ok(item) =>
      if user.rank < item.rankToUnlock then Err(RANK_TOO_LOW)
      else if user.points < item.price then Err(NOT_ENOUGH_POINTS)
      else Ok(item)
  }

  /** `buy_item(user, item_id)`: a failed guard changes nothing and does not commit. */
  method BuyItemEndpoint(db: Session, user: UserDetail, itemId: int) returns (r: Result<Option<int>>)
    requires db.Valid()
    modifies db`inventory, db`users, db`commits
    ensures db.Valid()
    ensures match PurchaseCheck(old(db.shopItems), user, itemId)
            case Err(e) =>
              && r == Err(e)
              && db.inventory == old(db.inventory) && db.users == old(db.users) && db.commits == old(db.commits)
            case Ok(item) =>
              && db.inventory == UpsertInventory(old(db.inventory), user.id, itemId)
              && db.users == DeductPoints(old(db.users), user.id, item.price)
              && r == Ok(ReturnedPoints(db.users, user.id))
              && db.commits == old(db.commits) + 1
  {
    var found := ItemDetail(db.shopItems, itemId);
    if found.Err? {
      return Err(found.error);
    }
    var itemDetail := found.value;
    if user.rank < itemDetail.rankToUnlock {
      return Err(RANK_TOO_LOW);
    }
    if user.points < itemDetail.price {
      return Err(NOT_ENOUGH_POINTS);
    }
    var newPoint := BuyItem(db, user.id, itemId, itemDetail.price);
    db.Commit();
    return Ok(newPoint);
  }

  /** When the current user is the row the dependency loaded, a purchase answers the old
      points minus the price, which the guard makes non-negative. */
  lemma PurchaseLeavesPointsNonNegative(users: seq<User>, items: seq<ShopItem>, k: nat, itemId: int)
    requires KeysUnique(users, UserKey) && k < |users|
    requires PurchaseCheck(items, DetailOf(users[k]), itemId).Ok?
    ensures var item := PurchaseCheck(items, DetailOf(users[k]), itemId).value;
            var newPoint := ReturnedPoints(DeductPoints(users, users[k].id, item.price), users[k].id);
            newPoint == Some(users[k].points - item.price) && newPoint.value >= 0
  {
    var item := PurchaseCheck(items, DetailOf(users[k]), itemId).value;
    BuyItemPoints(users, k, item.price);
  }
}
