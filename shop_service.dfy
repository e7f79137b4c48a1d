/** The shop queries and the purchase of src/services/shop.py. */
module ShopService {
  import opened Errors
  import opened Schemas
  import opened Tables
  import Query
  import opened Database
  import UserService

  /** `all_items`: every shop item, in storage order. */
  function AllItems(items: seq<ShopItem>): (r: seq<ShopItem>)
    ensures |r| == |items| && forall i :: 0 <= i < |items| ==> r[i] == items[i]
  {
    items
  }

  function ItemIs(itemId: int): ShopItem -> bool {
    (i: ShopItem) => i.id == itemId
  }

  /** `item_detail`: the item with that id, or NotFoundException. */
  function ItemDetail(items: seq<ShopItem>, itemId: int): (r: Result<ShopItem>)
    ensures r.Err? <==> forall i :: 0 <= i < |items| ==> items[i].id != itemId
    ensures r.Err? ==> r.error == NotFound
    ensures r.Ok? ==> r.value in items && r.value.id == itemId
  {
    match Query.First(items, ItemIs(itemId))
    case None => Err(NotFound)
    case Some(item) => Ok(item)
  }

  function InventoryIs(userId: int, itemId: int): InventoryRow -> bool {
    (r: InventoryRow) => r.userId == userId && r.itemId == itemId
  }

  function Increment(r: InventoryRow): InventoryRow {
    r.(quantity := r.quantity + 1)
  }

  /** The inventory after the upsert: a new `(user, item)` row with quantity 1, or on the
      `inventory_pk` conflict the existing row's quantity plus one. */
  function UpsertInventory(inventory: seq<InventoryRow>, userId: int, itemId: int): (r: seq<InventoryRow>)
    ensures Keys(r, InventoryKey) == Keys(inventory, InventoryKey) + {(userId, itemId)}
    ensures |inventory| <= |r| <= |inventory| + 1
    ensures forall i :: 0 <= i < |inventory| && InventoryKey(inventory[i]) != (userId, itemId) ==> r[i] == inventory[i]
  {
    if (userId, itemId) in Keys(inventory, InventoryKey) then
      KeysUpdate(inventory, InventoryIs(userId, itemId), Increment, InventoryKey);
      Query.UpdateWhere(inventory, InventoryIs(userId, itemId), Increment)
    else
      KeysAppend(inventory, InventoryRow(userId, itemId, 1), InventoryKey);
      inventory + [InventoryRow(userId, itemId, 1)]
  }

  /** How many of an item a user holds: the quantity of its row, 0 without one. */
  function Quantity(inventory: seq<InventoryRow>, userId: int, itemId: int): (q: int)
    ensures q != 0 ==> exists i :: 0 <= i < |inventory| && InventoryKey(inventory[i]) == (userId, itemId) && inventory[i].quantity == q
  {
    match Query.First(inventory, InventoryIs(userId, itemId))
    case None => 0
    case Some(r) => r.quantity
  }

  /** With one row per `(user, item)`, the quantity of a present key is its row's. */
  lemma QuantityOfRow(inventory: seq<InventoryRow>, k: nat)
    requires KeysUnique(inventory, InventoryKey) && k < |inventory|
    ensures Quantity(inventory, inventory[k].userId, inventory[k].itemId) == inventory[k].quantity
  {
    var p := InventoryIs(inventory[k].userId, inventory[k].itemId);
    forall j | 0 <= j < |inventory| && j != k ensures !p(inventory[j]) {
      if j < k { assert InventoryKey(inventory[j]) != InventoryKey(inventory[k]); }
      else { assert InventoryKey(inventory[k]) != InventoryKey(inventory[j]); }
    }
    Query.FirstOfOnly(inventory, p, k);
  }

  /** A user holds none of an item without a row for it. */
  lemma QuantityAbsent(inventory: seq<InventoryRow>, userId: int, itemId: int)
    requires (userId, itemId) !in Keys(inventory, InventoryKey)
    ensures Quantity(inventory, userId, itemId) == 0
  {
    forall j | 0 <= j < |inventory| ensures !InventoryIs(userId, itemId)(inventory[j]) {
      assert InventoryKey(inventory[j]) in Keys(inventory, InventoryKey);
    }
  }

  /** The upsert keeps one row per `(user, item)`, raises the bought item's quantity by
      exactly one and leaves every other holding as it was. */
  lemma UpsertInventorySpec(inventory: seq<InventoryRow>, userId: int, itemId: int)
    requires KeysUnique(inventory, InventoryKey)
    ensures var after := UpsertInventory(inventory, userId, itemId);
      && KeysUnique(after, InventoryKey)
      && Keys(after, InventoryKey) == Keys(inventory, InventoryKey) + {(userId, itemId)}
      && Quantity(after, userId, itemId) == Quantity(inventory, userId, itemId) + 1
  {
    var after := UpsertInventory(inventory, userId, itemId);
    var row := InventoryRow(userId, itemId, 1);
    if (userId, itemId) in Keys(inventory, InventoryKey) {
      KeysUpdate(inventory, InventoryIs(userId, itemId), Increment, InventoryKey);
      var k :| 0 <= k < |inventory| && InventoryKey(inventory[k]) == (userId, itemId);
      QuantityOfRow(inventory, k);
      assert after[k] == Increment(inventory[k]);
      QuantityOfRow(after, k);
    } else {
      UniqueAppend(inventory, row, InventoryKey);
      KeysAppend(inventory, row, InventoryKey);
      QuantityAbsent(inventory, userId, itemId);
      QuantityOfRow(after, |inventory|);
    }
  }

  /** Other holdings are untouched by the upsert. */
  lemma UpsertInventoryFrame(inventory: seq<InventoryRow>, userId: int, itemId: int, u: int, i: int)
    requires KeysUnique(inventory, InventoryKey) && (u, i) != (userId, itemId)
    ensures Quantity(UpsertInventory(inventory, userId, itemId), u, i) == Quantity(inventory, u, i)
  {
    var after := UpsertInventory(inventory, userId, itemId);
    UpsertInventorySpec(inventory, userId, itemId);
    if (u, i) in Keys(inventory, InventoryKey) {
      var k :| 0 <= k < |inventory| && InventoryKey(inventory[k]) == (u, i);
      QuantityOfRow(inventory, k);
      assert after[k] == inventory[k];
      QuantityOfRow(after, k);
    } else {
      QuantityAbsent(inventory, u, i);
      QuantityAbsent(after, u, i);
    }
  }

  function Charge(price: int): User -> User {
    (u: User) => u.(points := u.points - price)
  }

  /** The users table after `points = points - price WHERE id = user_id`. */
  function DeductPoints(users: seq<User>, userId: int, price: int): (r: seq<User>)
    ensures |r| == |users|
    ensures forall i :: 0 <= i < |users| ==>
              r[i] == if users[i].id == userId then users[i].(points := users[i].points - price) else users[i]
  {
    Query.UpdateWhere(users, UserService.HasId(userId), Charge(price))
  }

  /** What `RETURNING points` yields through `.scalar()`: the first updated row's points,
      None when no row has the id. */
  function ReturnedPoints(users: seq<User>, userId: int): (r: Option<int>)
    ensures r.None? <==> forall i :: 0 <= i < |users| ==> users[i].id != userId
  {
    match Query.First(users, UserService.HasId(userId))
    case None => None
    case Some(u) => Some(u.points)
  }

  /** `buy_item(db, user_id, item_id, price)`. */
  method BuyItem(db: Session, userId: int, itemId: int, price: int) returns (newPoint: Option<int>)
    requires db.Valid()
    modifies db`inventory, db`users
    ensures db.Valid()
    ensures db.inventory == UpsertInventory(old(db.inventory), userId, itemId)
    ensures db.users == DeductPoints(old(db.users), userId, price)
    ensures newPoint == ReturnedPoints(db.users, userId)
  {
    UpsertInventorySpec(db.inventory, userId, itemId);
    db.inventory := UpsertInventory(db.inventory, userId, itemId);
    KeysUpdate(db.users, UserService.HasId(userId), Charge(price), UserKey);
    db.users := DeductPoints(db.users, userId, price);
    newPoint := ReturnedPoints(db.users, userId);
  }

  /** For a user present in the table the purchase answers the old points minus the
      price. */
  lemma BuyItemPoints(users: seq<User>, k: nat, price: int)
    requires KeysUnique(users, UserKey) && k < |users|
    ensures ReturnedPoints(DeductPoints(users, users[k].id, price), users[k].id) == Some(users[k].points - price)
  {
    var after := DeductPoints(users, users[k].id, price);
    KeysUpdate(users, UserService.HasId(users[k].id), Charge(price), UserKey);
    var p := UserService.HasId(users[k].id);
    forall j | 0 <= j < |after| && j != k ensures !p(after[j]) {
      if j < k { assert UserKey(after[j]) != UserKey(after[k]); }
      else { assert UserKey(after[k]) != UserKey(after[j]); }
    }
    Query.FirstOfOnly(after, p, k);
  }
}
