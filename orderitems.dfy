/** The cart routes of `routes/orderItems.js`: adding to the signed-in user's cart or to the
    guest's session cart, changing and removing a line, and the cart, count and history
    listings. */
module OrderItems {
  import opened Tables
  import opened Database

  /** What a successful add answers. */
  datatype AddReply =
    | Merged                    // 200: an existing line or session entry grew
    | AddedLine(line: ItemRow)  // 201: a new line of the user's cart
    | AddedEntry                // 201: a new entry of the session cart

  /** The two tables a signed-in cart change writes, with their id sequences. */
  datatype CartTables = CartTables(orders: seq<OrderRow>, nextOrderId: int, items: seq<ItemRow>, nextItemId: int)

  function TablesOf(db: Db): CartTables
    reads db
  {
    CartTables(db.orders, db.nextOrderId, db.items, db.nextItemId)
  }

  ghost predicate CartKeys(t: CartTables) {
    OrderKeys(t.orders, t.nextOrderId) && ItemKeys(t.items, t.nextItemId, t.nextOrderId)
  }

  // ---- the user's cart ----

  /** Get-or-create of the user's active cart: the first status-1 order of the user, with its
      `lastUpdated` bumped when `touch`, or else a new status-1 order. Answers the tables and
      the cart's order id. */
  function OpenCart(t: CartTables, userId: int, now: int, touch: bool): (res: (CartTables, int))
    ensures res.0.items == t.items && res.0.nextItemId == t.nextItemId
    ensures CartKeys(t) ==> CartKeys(res.0)
  {
    match ActiveCart(t.orders, userId)
    case Some(k) =>
      var id := t.orders[k].orderId;
      (t.(orders := if touch then Touch(t.orders, id, now) else t.orders), id)
    case None =>
      (t.(orders := t.orders + [NewCart(t.nextOrderId, userId, now)], nextOrderId := t.nextOrderId + 1),
       t.nextOrderId)
  }

  /** Bumping `lastUpdated` changes no row's standing as somebody's cart. */
  lemma TouchKeepsCarts(orders: seq<OrderRow>, id: int, now: int, userId: int)
    ensures CartCount(Touch(orders, id, now), userId) == CartCount(orders, userId)
    ensures ActiveCart(Touch(orders, id, now), userId) == ActiveCart(orders, userId)
  {
    CartCountPointwise(Touch(orders, id, now), orders, userId);
  }

  /** Get-or-create never makes a second cart: afterwards the lookup finds the cart whose id it
      answers, and the user has exactly one cart when there was none and as many as before
      otherwise. */
  lemma {:induction false} OpenCartFinds(t: CartTables, userId: int, now: int, touch: bool)
    ensures var (t', id) := OpenCart(t, userId, now, touch);
      && ActiveCart(t'.orders, userId).Some?
      && t'.orders[ActiveCart(t'.orders, userId).value].orderId == id
      && CartCount(t'.orders, userId) == if CartCount(t.orders, userId) == 0 then 1 else CartCount(t.orders, userId)
  {
    var (t', id) := OpenCart(t, userId, now, touch);
    ActiveCartIffCount(t.orders, userId);
    match ActiveCart(t.orders, userId)
    case Some(k) =>
      if touch {
        TouchKeepsCarts(t.orders, id, now, userId);
      }
    case None =>
      var c := NewCart(t.nextOrderId, userId, now);
      CartCountAppend(t.orders, c, userId);
      assert t'.orders[|t.orders|] == c;
      assert ActiveCart(t'.orders, userId) == Some(|t.orders|);
  }

  /** The line part of the signed-in add once the cart `cartId` is known: the cart's line for
      (a, s) grows by `q`, or a new line is inserted, unless the stock would be exceeded.
      Answers the lines, the line id sequence and the reply. */
  function AddLine(items: seq<ItemRow>, nextItemId: int, cartId: int, a: string, s: string, q: int, stock: int): (seq<ItemRow>, int, Result<AddReply>) {
    match LineIndex(items, cartId, a, s)
    case Some(k) =>
      if items[k].quantity + q > stock then (items, nextItemId, Fail(BadRequest))
      else (SetQuantity(items, items[k].itemId, items[k].quantity + q), nextItemId, Ok(Merged))
    case None =>
      if q > stock then (items, nextItemId, Fail(BadRequest))
      else
        var line := ItemRow(nextItemId, cartId, a, s, q);
        (items + [line], nextItemId + 1, Ok(AddedLine(line)))
  }

  /** The add route for a signed-in user who asks for `q` of (a, s) with `stock` on hand: the
      cart is first got or created (and bumped), then `AddLine` runs on it. */
  function UserAdd(t: CartTables, userId: int, a: string, s: string, q: int, stock: int, now: int): (CartTables, Result<AddReply>) {
    var (t1, cartId) := OpenCart(t, userId, now, true);
    var (items, nextItemId, r) := AddLine(t1.items, t1.nextItemId, cartId, a, s, q, stock);
    (t1.(items := items, nextItemId := nextItemId), r)
  }

  lemma LineIndexAppend(items: seq<ItemRow>, line: ItemRow, orderId: int, a: string, s: string)
    requires LineIndex(items, orderId, a, s).None? && LineMatches(line, orderId, a, s)
    ensures LineIndex(items + [line], orderId, a, s) == Some(|items|)
  {
    var r := LineIndex(items + [line], orderId, a, s);
    assert (items + [line])[|items|] == line;
    assert r.Some?;
  }

  /** Every accepted add leaves the cart's line for (a, s) holding `q` more than before. */
  lemma {:induction false} AddLineQuantity(items: seq<ItemRow>, nextItemId: int, cartId: int, a: string, s: string, q: int, stock: int)
    ensures var (items', _, r) := AddLine(items, nextItemId, cartId, a, s, q, stock);
      r.Ok? ==> LineQuantity(items', cartId, a, s) == LineQuantity(items, cartId, a, s) + q
  {
    var (items', _, r) := AddLine(items, nextItemId, cartId, a, s, q, stock);
    if r.Ok? {
      match LineIndex(items, cartId, a, s)
      case Some(k) =>
        assert forall j :: 0 <= j < |items'| ==> (LineMatches(items'[j], cartId, a, s) <==> LineMatches(items[j], cartId, a, s));
        assert LineIndex(items', cartId, a, s) == Some(k);
      case None =>
        LineIndexAppend(items, r.value.line, cartId, a, s);
    }
  }

  /** The signed-in add is refused (400) exactly when the cart's quantity of (a, s) plus `q`
      would exceed the stock; a refused add writes no line, though the cart header has already
      been created or bumped. An accepted add leaves `q` more in the cart's line, and answers
      `Merged` exactly when the cart already had a line for (a, s). */
  lemma UserAddStock(t: CartTables, userId: int, a: string, s: string, q: int, stock: int, now: int)
    ensures var (t1, cartId) := OpenCart(t, userId, now, true);
      var (t', r) := UserAdd(t, userId, a, s, q, stock, now);
      && t'.orders == t1.orders && t'.nextOrderId == t1.nextOrderId
      && (r.Fail? <==> LineQuantity(t.items, cartId, a, s) + q > stock)
      && (r.Fail? ==> r == Fail(BadRequest) && t'.items == t.items && t'.nextItemId == t.nextItemId)
      && (r.Ok? ==> LineQuantity(t'.items, cartId, a, s) == LineQuantity(t.items, cartId, a, s) + q)
      && (r == Ok(Merged) <==> r.Ok? && LineIndex(t.items, cartId, a, s).Some?)
  {
    var (t1, cartId) := OpenCart(t, userId, now, true);
    AddLineQuantity(t1.items, t1.nextItemId, cartId, a, s, q, stock);
  }

  /** A merge changes one line only, the matching one of the cart, and only its quantity; a new
      line carries the next line id and exactly what was asked for. */
  lemma UserAddWrites(t: CartTables, userId: int, a: string, s: string, q: int, stock: int, now: int)
    requires CartKeys(t)
    ensures var (t', r) := UserAdd(t, userId, a, s, q, stock, now);
      var cartId := OpenCart(t, userId, now, true).1;
      && (r == Ok(Merged) ==>
            var k := LineIndex(t.items, cartId, a, s).value;
            && |t'.items| == |t.items| && t'.nextItemId == t.nextItemId
            && t'.items[k] == t.items[k].(quantity := t.items[k].quantity + q)
            && (forall i :: 0 <= i < |t.items| && i != k ==> t'.items[i] == t.items[i]))
      && (r.Ok? && r != Ok(Merged) ==>
            && r == Ok(AddedLine(ItemRow(t.nextItemId, cartId, a, s, q)))
            && t'.items == t.items + [r.value.line] && t'.nextItemId == t.nextItemId + 1)
  {
  }

  // ---- the guest's session cart ----

  /** The add route for a guest: the entry for (a, s) grows by `q`, or a new entry is appended,
      unless the result would exceed the stock. */
  function GuestAdd(cart: seq<CartEntry>, a: string, s: string, q: int, stock: int): (seq<CartEntry>, Result<AddReply>) {
    match EntryIndex(cart, a, s)
    case Some(k) =>
      var newQuantity := cart[k].quantity + q;
      if newQuantity > stock then (cart, Fail(BadRequest))
      else (cart[k := cart[k].(quantity := newQuantity)], Ok(Merged))
    case None =>
      if q > stock then (cart, Fail(BadRequest))
      else (cart + [CartEntry(a, s, q)], Ok(AddedEntry))
  }

  /** The guest's add is refused (400, the session untouched) exactly when the session's
      quantity of (a, s) plus `q` would exceed the stock, and answers `Merged` exactly when the
      session already held (a, s). */
  lemma GuestAddStock(cart: seq<CartEntry>, a: string, s: string, q: int, stock: int)
    ensures var (cart', r) := GuestAdd(cart, a, s, q, stock);
      && (r.Fail? <==> EntryQuantity(cart, a, s) + q > stock)
      && (r.Fail? ==> r == Fail(BadRequest) && cart' == cart)
      && (r == Ok(Merged) <==> r.Ok? && EntryIndex(cart, a, s).Some?)
      && |cart'| == |cart| + (if r == Ok(AddedEntry) then 1 else 0)
  {
  }

  /** An accepted guest add leaves `q` more of (a, s) in the session and every other pair's
      quantity as it was. */
  lemma GuestAddQuantities(cart: seq<CartEntry>, a: string, s: string, q: int, stock: int, a': string, s': string)
    requires GuestAdd(cart, a, s, q, stock).1.Ok?
    ensures EntryQuantity(GuestAdd(cart, a, s, q, stock).0, a, s) == EntryQuantity(cart, a, s) + q
    ensures !(a' == a && s' == s) ==>
      EntryQuantity(GuestAdd(cart, a, s, q, stock).0, a', s') == EntryQuantity(cart, a', s')
  {
    var cart' := GuestAdd(cart, a, s, q, stock).0;
    match EntryIndex(cart, a, s)
    case Some(k) =>
      assert forall j :: 0 <= j < |cart| ==> cart'[j].articleNumber == cart[j].articleNumber && cart'[j].size == cart[j].size;
      EntryIndexSameKeys(cart', cart, a, s);
      EntryIndexSameKeys(cart', cart, a', s');
    case None =>
      EntryIndexSnoc(cart, CartEntry(a, s, q), a, s);
      EntryIndexSnoc(cart, CartEntry(a, s, q), a', s');
  }

  /** The guest's add keeps one session entry per (article, size). */
  lemma GuestAddSingle(cart: seq<CartEntry>, a: string, s: string, q: int, stock: int)
    requires SingleEntries(cart)
    ensures SingleEntries(GuestAdd(cart, a, s, q, stock).0)
  {
  }

  // ---- POST /order-items ----

  /** Get-or-create of the user's active cart as the add route (with `touch`) and the account
      routes (without) perform it. */
  method GetOrCreateCart(db: Db, userId: int, now: int, touch: bool) returns (cartId: int)
    requires db.Valid()
    modifies db`orders, db`nextOrderId
    ensures db.Valid()
    ensures (TablesOf(db), cartId) == OpenCart(old(TablesOf(db)), userId, now, touch)
  {
    var k := ActiveCart(db.orders, userId);
    if k.Some? {
      cartId := db.orders[k.value].orderId;
      if touch {
        db.orders := Touch(db.orders, cartId, now);
      }
    } else {
      cartId := db.nextOrderId;
      db.orders := db.orders + [NewCart(cartId, userId, now)];
      db.nextOrderId := db.nextOrderId + 1;
    }
  }

  /** `POST /order-items`: 400 unless the article and size are non-empty and a quantity is
      given, 404 without a stock row for (article, size); then the signed-in user's cart or the
      guest's session cart takes the quantity as `UserAdd` and `GuestAdd` say. The stock is read,
      never written. */
  method AddToCart(db: Db, session: Session, caller: Option<int>, articleNumber: Option<string>,
                   size: Option<string>, quantity: Option<int>, now: int) returns (r: Result<AddReply>)
    requires db.Valid()
    modifies db`orders, db`nextOrderId, db`items, db`nextItemId, session`cart
    ensures db.Valid()
    ensures db.sizes == old(db.sizes)
    ensures !(Present(articleNumber) && Present(size) && quantity.Some?) ==>
      r == Fail(BadRequest) && unchanged(db, session)
    ensures Present(articleNumber) && Present(size) && quantity.Some? &&
            StockOf(db.sizes, articleNumber.value, size.value).None? ==>
      r == Fail(NotFound) && unchanged(db, session)
    ensures Present(articleNumber) && Present(size) && quantity.Some? &&
            StockOf(db.sizes, articleNumber.value, size.value).Some? && caller.Some? ==>
      && (TablesOf(db), r) == UserAdd(old(TablesOf(db)), caller.value, articleNumber.value, size.value,
                                      quantity.value, StockOf(db.sizes, articleNumber.value, size.value).value, now)
      && session.cart == old(session.cart)
    ensures Present(articleNumber) && Present(size) && quantity.Some? &&
            StockOf(db.sizes, articleNumber.value, size.value).Some? && caller.None? ==>
      && (session.cart, r) == GuestAdd(old(session.cart), articleNumber.value, size.value,
                                       quantity.value, StockOf(db.sizes, articleNumber.value, size.value).value)
      && unchanged(db)
  {
    if !Present(articleNumber) || !Present(size) || quantity.None? {
      return Fail(BadRequest);
    }
    var a, s, q := articleNumber.value, size.value, quantity.value;
    var stock := StockOf(db.sizes, a, s);
    if stock.None? {
      return Fail(NotFound);
    }
    if caller.Some? {
      r := AddToUserCart(db, caller.value, a, s, q, stock.value, now);
    } else {
      r := AddToSessionCart(session, a, s, q, stock.value);
    }
  }

  /** The signed-in branch of the add route, as `UserAdd` says. */
  method AddToUserCart(db: Db, userId: int, a: string, s: string, q: int, stock: int, now: int) returns (r: Result<AddReply>)
    requires db.Valid()
    modifies db`orders, db`nextOrderId, db`items, db`nextItemId
    ensures db.Valid()
    ensures (TablesOf(db), r) == UserAdd(old(TablesOf(db)), userId, a, s, q, stock, now)
  {
    ghost var t0 := TablesOf(db);
    var cartId := GetOrCreateCart(db, userId, now, true);
    OpenCartBelowNext(t0, userId, now, true);
    ghost var t1 := TablesOf(db);
    r := AddToOrder(db, cartId, a, s, q, stock);
    assert TablesOf(db) == t1.(items := db.items, nextItemId := db.nextItemId);
  }

  /** The merge-or-insert of the signed-in add on the cart `cartId`, as `AddLine` says. */
  method AddToOrder(db: Db, cartId: int, a: string, s: string, q: int, stock: int) returns (r: Result<AddReply>)
    requires db.Valid() && cartId < db.nextOrderId
    modifies db`items, db`nextItemId
    ensures db.Valid()
    ensures (db.items, db.nextItemId, r) == AddLine(old(db.items), old(db.nextItemId), cartId, a, s, q, stock)
  {
    AddLineKeys(db.items, db.nextItemId, db.nextOrderId, cartId, a, s, q, stock);
    var k := LineIndex(db.items, cartId, a, s);
    if k.Some? {
      var line := db.items[k.value];
      var newQuantity := line.quantity + q;
      if newQuantity > stock {
        return Fail(BadRequest);
      }
      db.items := SetQuantity(db.items, line.itemId, newQuantity);
      return Ok(Merged);
    }
    if q > stock {
      return Fail(BadRequest);
    }
    var line := ItemRow(db.nextItemId, cartId, a, s, q);
    db.items := db.items + [line];
    db.nextItemId := db.nextItemId + 1;
    return Ok(AddedLine(line));
  }

  /** The cart get-or-create answers is an allocated order. */
  lemma OpenCartBelowNext(t: CartTables, userId: int, now: int, touch: bool)
    requires CartKeys(t)
    ensures OpenCart(t, userId, now, touch).1 < OpenCart(t, userId, now, touch).0.nextOrderId
  {
  }

  /** An add keeps the keys of `orderItems`. */
  lemma AddLineKeys(items: seq<ItemRow>, nextItemId: int, nextOrderId: int, cartId: int, a: string, s: string, q: int, stock: int)
    requires ItemKeys(items, nextItemId, nextOrderId) && cartId < nextOrderId
    ensures var (items', next', _) := AddLine(items, nextItemId, cartId, a, s, q, stock);
      ItemKeys(items', next', nextOrderId)
  {
  }

  /** The guest branch of the add route, as `GuestAdd` says. */
  method AddToSessionCart(session: Session, a: string, s: string, q: int, stock: int) returns (r: Result<AddReply>)
    modifies session`cart
    ensures (session.cart, r) == GuestAdd(old(session.cart), a, s, q, stock)
  {
    var k := EntryIndex(session.cart, a, s);
    if k.Some? {
      var newQuantity := session.cart[k.value].quantity + q;
      if newQuantity > stock {
        return Fail(BadRequest);
      }
      session.cart := session.cart[k.value := session.cart[k.value].(quantity := newQuantity)];
      return Ok(Merged);
    }
    if q > stock {
      return Fail(BadRequest);
    }
    session.cart := session.cart + [CartEntry(a, s, q)];
    return Ok(AddedEntry);
  }

  // ---- PUT and DELETE /order-items/:id ----

  /** The order with the given id exists and belongs to the caller. */
  predicate OwnsOrder(orders: seq<OrderRow>, orderId: int, caller: int) {
    match OrderIndex(orders, orderId)
    case None => false
    case Some(j) => orders[j].userId == Some(caller)
  }

  /** `update orderItems set size = s, quantity = q where productOrderId = id` */
  function SetLine(items: seq<ItemRow>, id: int, s: string, q: int): (r: seq<ItemRow>)
    ensures |r| == |items|
    ensures forall i :: 0 <= i < |items| ==>
      r[i] == if items[i].itemId == id then items[i].(size := s, quantity := q) else items[i]
  {
    seq(|items|, i requires 0 <= i < |items| =>
      if items[i].itemId == id then items[i].(size := s, quantity := q) else items[i])
  }

  /** `PUT /order-items/:id`: 400 unless the size is non-empty and the quantity non-zero, 404
      without the line, 403 unless the line's order is the caller's; then the line takes the new
      size and quantity and is answered. Neither the stock nor the order's status is checked. */
  method UpdateLine(db: Db, caller: int, id: int, size: Option<string>, quantity: Option<int>) returns (r: Result<ItemRow>)
    requires db.Valid()
    modifies db`items
    ensures db.Valid()
    ensures r.Fail? ==> unchanged(db)
    ensures !Present(size) || quantity.None? || quantity.value == 0 ==> r == Fail(BadRequest)
    ensures Present(size) && quantity.Some? && quantity.value != 0 ==>
      match ItemIndex(old(db.items), id)
      case None => r == Fail(NotFound)
      case Some(k) =>
        if !OwnsOrder(db.orders, old(db.items)[k].orderId, caller) then r == Fail(Forbidden)
        else
          && r == Ok(old(db.items)[k].(size := size.value, quantity := quantity.value))
          && db.items == SetLine(old(db.items), id, size.value, quantity.value)
  {
    if !Present(size) || quantity.None? || quantity.value == 0 {
      return Fail(BadRequest);
    }
    var k := ItemIndex(db.items, id);
    if k.None? {
      return Fail(NotFound);
    }
    var line := db.items[k.value];
    if !OwnsOrder(db.orders, line.orderId, caller) {
      return Fail(Forbidden);
    }
    db.items := SetLine(db.items, id, size.value, quantity.value);
    r := Ok(db.items[k.value]);
  }

  /** `DELETE /order-items/:id`: 404 without the line, 403 unless its order is the caller's;
      then the line goes, and its order goes too when it has no line left, or else has its
      `lastUpdated` bumped. */
  method DeleteLine(db: Db, caller: int, id: int, now: int) returns (r: Result<()>)
    requires db.Valid()
    modifies db`items, db`orders
    ensures db.Valid()
    ensures r.Fail? ==> unchanged(db)
    ensures match ItemIndex(old(db.items), id)
      case None => r == Fail(NotFound)
      case Some(k) =>
        var orderId := old(db.items)[k].orderId;
        if !OwnsOrder(old(db.orders), orderId, caller) then r == Fail(Forbidden)
        else
          && r == Ok(())
          && db.items == DropItem(old(db.items), id)
          && (LinesOf(db.items, orderId) == [] ==> db.orders == DropOrder(old(db.orders), orderId))
          && (LinesOf(db.items, orderId) != [] ==> db.orders == Touch(old(db.orders), orderId, now))
  {
    var k := ItemIndex(db.items, id);
    if k.None? {
      return Fail(NotFound);
    }
    var orderId := db.items[k.value].orderId;
    if !OwnsOrder(db.orders, orderId, caller) {
      return Fail(Forbidden);
    }
    RemoveLine(db, id, orderId, now);
    r := Ok(());
  }

  /** The writes of the delete route once the line and its order are known. */
  method RemoveLine(db: Db, id: int, orderId: int, now: int)
    requires db.Valid()
    modifies db`items, db`orders
    ensures db.Valid()
    ensures db.items == DropItem(old(db.items), id)
    ensures LinesOf(db.items, orderId) == [] ==> db.orders == DropOrder(old(db.orders), orderId)
    ensures LinesOf(db.items, orderId) != [] ==> db.orders == Touch(old(db.orders), orderId, now)
  {
    DropItemKeys(db.items, id, db.nextItemId, db.nextOrderId);
    db.items := DropItem(db.items, id);
    var remaining := LinesOf(db.items, orderId);
    if remaining == [] {
      DropOrderKeys(db.orders, orderId, db.nextOrderId);
      db.orders := DropOrder(db.orders, orderId);
    } else {
      TouchKeys(db.orders, orderId, now, db.nextOrderId);
      db.orders := Touch(db.orders, orderId, now);
    }
  }

  lemma TouchKeys(orders: seq<OrderRow>, id: int, now: int, next: int)
    requires OrderKeys(orders, next)
    ensures OrderKeys(Touch(orders, id, now), next)
  {
  }

  /** Removing the last line of the user's only cart leaves the user without a cart, so the next
      add creates a fresh one. */
  lemma {:induction false} LastLineDropsCart(orders: seq<OrderRow>, next: int, userId: int, k: nat)
    requires OrderKeys(orders, next)
    requires k < |orders| && IsCartOf(orders[k], userId) && CartCount(orders, userId) == 1
    ensures ActiveCart(DropOrder(orders, orders[k].orderId), userId).None?
  {
    var id := orders[k].orderId;
    var r := DropOrder(orders, id);
    forall j | 0 <= j < |r| ensures !IsCartOf(r[j], userId) {
      assert r[j] in orders;
      var i :| 0 <= i < |orders| && orders[i] == r[j];
      if IsCartOf(r[j], userId) {
        OneCartAt(orders, userId, k, i);
      }
    }
  }

  /** When the user has a single cart, any two cart rows of the user are the same row. */
  lemma {:induction false} OneCartAt(orders: seq<OrderRow>, userId: int, k: nat, i: nat)
    requires k < |orders| && i < |orders|
    requires IsCartOf(orders[k], userId) && IsCartOf(orders[i], userId)
    requires CartCount(orders, userId) == 1
    ensures i == k
  {
    if k != 0 && i != 0 {
      if IsCartOf(orders[0], userId) {
        CartCountAtLeastOne(orders[1..], userId, k - 1);
      } else {
        OneCartAt(orders[1..], userId, k - 1, i - 1);
      }
    } else if k != i {
      var j := if k == 0 then i else k;
      CartCountAtLeastOne(orders[1..], userId, j - 1);
    }
  }

  lemma {:induction false} CartCountAtLeastOne(orders: seq<OrderRow>, userId: int, j: nat)
    requires j < |orders| && IsCartOf(orders[j], userId)
    ensures CartCount(orders, userId) >= 1
  {
    if j > 0 {
      CartCountAtLeastOne(orders[1..], userId, j - 1);
    }
  }

  // ---- the listings ----

  /** Ids of the user's active carts. */
  function CartIds(orders: seq<OrderRow>, userId: int): set<int> {
    set i | 0 <= i < |orders| && IsCartOf(orders[i], userId) :: orders[i].orderId
  }

  /** Ids of the user's orders with a history status (2 to 5). */
  function HistoryIds(orders: seq<OrderRow>, userId: int): set<int> {
    set i | 0 <= i < |orders| && orders[i].userId == Some(userId) && InHistory(orders[i].status) :: orders[i].orderId
  }

  /** The lines whose order id is among `ids`, in table order: the inner join of the listings. */
  function LinesIn(items: seq<ItemRow>, ids: set<int>): (r: seq<ItemRow>)
    ensures forall it :: it in r <==> it in items && it.orderId in ids
    ensures |r| <= |items|
  {
    if items == [] then []
    else (if items[0].orderId in ids then [items[0]] else []) + LinesIn(items[1..], ids)
  }

  /** `GET /order-items` for a signed-in user: the lines of the user's active cart. */
  function CartLines(orders: seq<OrderRow>, items: seq<ItemRow>, userId: int): (r: seq<ItemRow>)
    ensures forall it :: it in r <==> it in items && exists o :: o in orders && IsCartOf(o, userId) && o.orderId == it.orderId
  {
    var r := LinesIn(items, CartIds(orders, userId));
    forall it ensures it in r <==> it in items && exists o :: o in orders && IsCartOf(o, userId) && o.orderId == it.orderId {
      if it in items && exists o :: o in orders && IsCartOf(o, userId) && o.orderId == it.orderId {
        var o :| o in orders && IsCartOf(o, userId) && o.orderId == it.orderId;
        var i :| 0 <= i < |orders| && orders[i] == o;
        assert it.orderId in CartIds(orders, userId);
      }
    }
    r
  }

  /** `GET /order-items/count`: the number of lines in the user's cart (not the sum of their
      quantities). */
  function CartLineCount(orders: seq<OrderRow>, items: seq<ItemRow>, userId: int): nat {
    |LinesIn(items, CartIds(orders, userId))|
  }

  /** `GET /order-items/history`: the lines of the user's orders with status 2 to 5. */
  function HistoryLines(orders: seq<OrderRow>, items: seq<ItemRow>, userId: int): (r: seq<ItemRow>)
    ensures forall it :: it in r <==> (it in items &&
      exists o :: o in orders && o.userId == Some(userId) && InHistory(o.status) && o.orderId == it.orderId)
  {
    var r := LinesIn(items, HistoryIds(orders, userId));
    forall it ensures it in r <==> (it in items &&
      exists o :: o in orders && o.userId == Some(userId) && InHistory(o.status) && o.orderId == it.orderId) {
      if it in items && exists o :: o in orders && o.userId == Some(userId) && InHistory(o.status) && o.orderId == it.orderId {
        var o :| o in orders && o.userId == Some(userId) && InHistory(o.status) && o.orderId == it.orderId;
        var i :| 0 <= i < |orders| && orders[i] == o;
        assert it.orderId in HistoryIds(orders, userId);
      }
    }
    r
  }

  lemma {:induction false} LinesInAppend(items: seq<ItemRow>, line: ItemRow, ids: set<int>)
    ensures LinesIn(items + [line], ids) == LinesIn(items, ids) + (if line.orderId in ids then [line] else [])
  {
    if items == [] {
      assert items + [line] == [line];
    } else {
      assert (items + [line])[1..] == items[1..] + [line];
      LinesInAppend(items[1..], line, ids);
    }
  }

  lemma {:induction false} LinesInConcat(a: seq<ItemRow>, b: seq<ItemRow>, ids: set<int>)
    ensures LinesIn(a + b, ids) == LinesIn(a, ids) + LinesIn(b, ids)
  {
    if a != [] {
      assert (a + b)[1..] == a[1..] + b;
      LinesInConcat(a[1..], b, ids);
    } else {
      assert a + b == b;
    }
  }

  /** Lines that all belong to the listed orders are listed in full. */
  lemma {:induction false} LinesInAll(lines: seq<ItemRow>, ids: set<int>)
    requires forall j :: 0 <= j < |lines| ==> lines[j].orderId in ids
    ensures LinesIn(lines, ids) == lines
  {
    if lines != [] {
      LinesInAll(lines[1..], ids);
    }
  }

  lemma {:induction false} LinesInSameOrders(a: seq<ItemRow>, b: seq<ItemRow>, ids: set<int>)
    requires |a| == |b|
    requires forall i :: 0 <= i < |a| ==> a[i].orderId == b[i].orderId
    ensures |LinesIn(a, ids)| == |LinesIn(b, ids)|
  {
    if a != [] {
      LinesInSameOrders(a[1..], b[1..], ids);
    }
  }

  lemma {:induction false} LinesInUnused(items: seq<ItemRow>, ids: set<int>, id: int)
    requires forall i :: 0 <= i < |items| ==> items[i].orderId != id
    ensures LinesIn(items, ids + {id}) == LinesIn(items, ids)
  {
    if items != [] {
      LinesInUnused(items[1..], ids, id);
    }
  }

  /** Getting or creating the cart header adds no line to the user's cart. */
  lemma OpenCartLineCount(t: CartTables, userId: int, now: int, touch: bool)
    requires CartKeys(t)
    ensures var (t1, cartId) := OpenCart(t, userId, now, touch);
      && cartId in CartIds(t1.orders, userId)
      && CartLineCount(t1.orders, t1.items, userId) == CartLineCount(t.orders, t.items, userId)
  {
    var (t1, cartId) := OpenCart(t, userId, now, touch);
    OpenCartFinds(t, userId, now, touch);
    var k1 := ActiveCart(t1.orders, userId).value;
    assert t1.orders[k1].orderId == cartId;
    match ActiveCart(t.orders, userId)
    case Some(k) =>
      if touch {
        TouchCartIds(t.orders, cartId, now, userId);
      }
    case None =>
      NewCartIds(t.orders, NewCart(t.nextOrderId, userId, now), userId);
      LinesInUnused(t.items, CartIds(t.orders, userId), cartId);
  }

  lemma TouchCartIds(orders: seq<OrderRow>, id: int, now: int, userId: int)
    ensures CartIds(Touch(orders, id, now), userId) == CartIds(orders, userId)
  {
    var r := Touch(orders, id, now);
    assert forall i :: 0 <= i < |orders| ==>
      r[i].orderId == orders[i].orderId && (IsCartOf(r[i], userId) <==> IsCartOf(orders[i], userId));
  }

  lemma NewCartIds(orders: seq<OrderRow>, o: OrderRow, userId: int)
    requires IsCartOf(o, userId)
    ensures CartIds(orders + [o], userId) == CartIds(orders, userId) + {o.orderId}
  {
    var r := orders + [o];
    assert r[|orders|] == o;
    assert forall i :: 0 <= i < |orders| ==> r[i] == orders[i];
  }

  /** Once the cart is known, only an inserted line changes the number of its lines. */
  lemma AddLineCount(items: seq<ItemRow>, nextItemId: int, cartId: int, a: string, s: string, q: int, stock: int, ids: set<int>)
    requires cartId in ids
    ensures var (items', _, r) := AddLine(items, nextItemId, cartId, a, s, q, stock);
      |LinesIn(items', ids)| == |LinesIn(items, ids)| + (if r.Ok? && r.value.AddedLine? then 1 else 0)
  {
    var (items', _, r) := AddLine(items, nextItemId, cartId, a, s, q, stock);
    if r == Ok(Merged) {
      LinesInSameOrders(items', items, ids);
    } else if r.Ok? {
      LinesInAppend(items, r.value.line, ids);
    }
  }

  /** The cart count grows by one exactly when an add inserts a new line: merging into an
      existing line, a refused add and the creation of the cart header leave it as it was. */
  lemma AddCount(t: CartTables, userId: int, a: string, s: string, q: int, stock: int, now: int)
    requires CartKeys(t)
    ensures var (t', r) := UserAdd(t, userId, a, s, q, stock, now);
      CartLineCount(t'.orders, t'.items, userId) ==
        CartLineCount(t.orders, t.items, userId) + (if r.Ok? && r.value.AddedLine? then 1 else 0)
  {
    var (t1, cartId) := OpenCart(t, userId, now, true);
    OpenCartLineCount(t, userId, now, true);
    AddLineCount(t1.items, t1.nextItemId, cartId, a, s, q, stock, CartIds(t1.orders, userId));
  }

  // ---- the guest's listing ----

  /** A session cart entry with the product details the guest listing adds. */
  datatype GuestLine = GuestLine(entry: CartEntry, name: string, imageUrls: seq<string>, price: int, discount: int)

  /** The name shown for an entry whose product is gone ("unknown product"). */
  const UnknownProduct: string := "Невідомий товар"

  /** One entry of the guest listing: the product's name, images, price and discount, or
      "unknown product", no images and 0 when the product is missing (and an empty name or a
      zero figure falls back the same way). */
  function GuestDetails(products: seq<ProductRow>, e: CartEntry): (g: GuestLine)
    ensures g.entry == e
    ensures ProductIndex(products, e.articleNumber).None? ==>
      g.name == UnknownProduct && g.imageUrls == [] && g.price == 0 && g.discount == 0
    ensures ProductIndex(products, e.articleNumber).Some? ==>
      var p := products[ProductIndex(products, e.articleNumber).value];
      && g.name == (if p.name != "" then p.name else UnknownProduct)
      && g.imageUrls == p.imageUrls && g.price == p.price && g.discount == p.discount
  {
    match ProductIndex(products, e.articleNumber)
    case None => GuestLine(e, UnknownProduct, [], 0, 0)
    case Some(j) =>
      var p := products[j];
      GuestLine(e, if p.name != "" then p.name else UnknownProduct, p.imageUrls, p.price, p.discount)
  }

  /** `GET /order-items` for a guest: every session entry in order, with its details. */
  function GuestListing(cart: seq<CartEntry>, products: seq<ProductRow>): (r: seq<GuestLine>)
    ensures |r| == |cart|
    ensures forall i :: 0 <= i < |cart| ==> r[i].entry == cart[i]
  {
    seq(|cart|, i requires 0 <= i < |cart| => GuestDetails(products, cart[i]))
  }
}
