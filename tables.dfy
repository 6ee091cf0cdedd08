/** The rows of the shop's database tables, the errors the handlers answer with, and the
    queries (`select ... where ... limit 1`, `update ... where`, `delete ... where`) the
    handlers run on them. A table is a sequence of rows in insertion order; a query that
    takes one row takes the first that matches. */
module Tables {

  datatype Option<T> = None | Some(value: T)

  /** The HTTP errors the routes raise with `createError`. */
  datatype Failure =
    | BadRequest    // 400
    | Unauthorized  // 401
    | Forbidden     // 403
    | NotFound      // 404
    | Conflict      // 409
    | ServerError   // 500

  datatype Result<T> = Ok(value: T) | Fail(failure: Failure)

  /** JavaScript truthiness of an optional text field: present and not "". */
  predicate Present(field: Option<string>) {
    field.Some? && field.value != ""
  }

  /** `orderStatusId` values the routes use: 1 is the active cart, 2 a placed order. */
  const CartStatus: int := 1
  const PlacedStatus: int := 2

  /** Statuses listed by the history routes. */
  predicate InHistory(status: int) {
    status == 2 || status == 3 || status == 4 || status == 5
  }

  /** A `productSizes` row. */
  datatype SizeRow = SizeRow(articleNumber: string, size: string, stock: int)

  /** An `orders` row; `userId` is null for a guest's order. */
  datatype OrderRow = OrderRow(
    orderId: int, userId: Option<int>, status: int,
    deliveryAddress: Option<string>, telephone: Option<string>, paymentMethod: Option<string>,
    email: Option<string>, name: Option<string>, lastUpdated: int)

  /** An `orderItems` row; `itemId` is `productOrderId`. */
  datatype ItemRow = ItemRow(itemId: int, orderId: int, articleNumber: string, size: string, quantity: int)

  /** An entry of the guest's session cart, and the shape of a client-supplied cart line. */
  datatype CartEntry = CartEntry(articleNumber: string, size: string, quantity: int)

  /** A `favorites` row. */
  datatype Favorite = Favorite(userId: int, articleNumber: string)

  /** A `users` row (the password hash is not modelled). */
  datatype UserRow = UserRow(userId: int, name: string, email: string, roleId: int)

  /** A `reviews` row; `reviewDate` is a time in milliseconds. */
  datatype ReviewRow = ReviewRow(reviewId: int, userId: int, articleNumber: string,
                                 rating: int, comment: string, reviewDate: int)

  /** A `products` row. */
  datatype ProductRow = ProductRow(articleNumber: string, brandId: int, price: int, discount: int,
                                   name: string, description: string, imageUrls: seq<string>,
                                   isActive: bool)

  datatype BrandRow = BrandRow(brandId: int, name: string)
  datatype CategoryRow = CategoryRow(categoryId: int, name: string, imageUrl: Option<string>)
  datatype ProductCategoryRow = ProductCategoryRow(articleNumber: string, categoryId: int,
                                                   imageUrl: Option<string>)

  // ---- productSizes ----

  predicate SizeMatches(row: SizeRow, a: string, s: string) {
    row.articleNumber == a && row.size == s
  }

  /** The stock of (article, size) as the routes read it: the first matching row's, None
      without a row. */
  function StockOf(rows: seq<SizeRow>, a: string, s: string): Option<int> {
    StockFrom(rows, a, s, 0)
  }

  /** The stock of the first row from `k` on that matches (article, size). */
  function StockFrom(rows: seq<SizeRow>, a: string, s: string, k: nat): Option<int>
    requires k <= |rows|
    decreases |rows| - k
  {
    if k == |rows| then None
    else if SizeMatches(rows[k], a, s) then Some(rows[k].stock)
    else StockFrom(rows, a, s, k + 1)
  }

  /** `update productSizes set stock = v where articleNumber = a and size = s` */
  function SetStock(rows: seq<SizeRow>, a: string, s: string, v: int): (r: seq<SizeRow>)
    ensures |r| == |rows|
  {
    seq(|rows|, i requires 0 <= i < |rows| => if SizeMatches(rows[i], a, s) then rows[i].(stock := v) else rows[i])
  }

  /** After setting the stock of (a, s), the routes read v for (a, s). */
  lemma StockOfSetSame(rows: seq<SizeRow>, a: string, s: string, v: int)
    requires StockOf(rows, a, s).Some?
    ensures StockOf(SetStock(rows, a, s, v), a, s) == Some(v)
  {
    StockFromSetSame(rows, a, s, v, 0);
  }

  lemma {:induction false} StockFromSetSame(rows: seq<SizeRow>, a: string, s: string, v: int, k: nat)
    requires k <= |rows| && StockFrom(rows, a, s, k).Some?
    ensures StockFrom(SetStock(rows, a, s, v), a, s, k) == Some(v)
    decreases |rows| - k
  {
    var r := SetStock(rows, a, s, v);
    assert r[k] == if SizeMatches(rows[k], a, s) then rows[k].(stock := v) else rows[k];
    if !SizeMatches(rows[k], a, s) {
      StockFromSetSame(rows, a, s, v, k + 1);
    }
  }

  /** Setting the stock of (a, s) leaves what the routes read for every other pair. */
  lemma StockOfSetOther(rows: seq<SizeRow>, a: string, s: string, v: int, a': string, s': string)
    requires a != a' || s != s'
    ensures StockOf(SetStock(rows, a, s, v), a', s') == StockOf(rows, a', s')
  {
    StockFromSetOther(rows, a, s, v, a', s', 0);
  }

  lemma {:induction false} StockFromSetOther(rows: seq<SizeRow>, a: string, s: string, v: int, a': string, s': string, k: nat)
    requires a != a' || s != s'
    requires k <= |rows|
    ensures StockFrom(SetStock(rows, a, s, v), a', s', k) == StockFrom(rows, a', s', k)
    decreases |rows| - k
  {
    if k < |rows| {
      var r := SetStock(rows, a, s, v);
      assert r[k] == if SizeMatches(rows[k], a, s) then rows[k].(stock := v) else rows[k];
      StockFromSetOther(rows, a, s, v, a', s', k + 1);
    }
  }

  /** Every stock count is non-negative. */
  ghost predicate StockNonNegative(rows: seq<SizeRow>) {
    forall i :: 0 <= i < |rows| ==> rows[i].stock >= 0
  }

  // ---- orders ----

  /** An order row that is the given user's active cart. */
  predicate IsCartOf(o: OrderRow, userId: int) {
    o.userId == Some(userId) && o.status == CartStatus
  }

  /** `select ... from orders where userId = u and orderStatusId = 1 limit 1` */
  function ActiveCart(orders: seq<OrderRow>, userId: int): (r: Option<nat>)
    ensures r.Some? ==> r.value < |orders| && IsCartOf(orders[r.value], userId)
    ensures r.Some? ==> forall j :: 0 <= j < r.value ==> !IsCartOf(orders[j], userId)
    ensures r.None? <==> forall j :: 0 <= j < |orders| ==> !IsCartOf(orders[j], userId)
  {
    CartFrom(orders, userId, 0)
  }

  function CartFrom(orders: seq<OrderRow>, userId: int, k: nat): (r: Option<nat>)
    requires k <= |orders|
    ensures r.Some? ==> k <= r.value < |orders| && IsCartOf(orders[r.value], userId)
    ensures r.Some? ==> forall j :: k <= j < r.value ==> !IsCartOf(orders[j], userId)
    ensures r.None? <==> forall j :: k <= j < |orders| ==> !IsCartOf(orders[j], userId)
    decreases |orders| - k
  {
    if k == |orders| then None
    else if IsCartOf(orders[k], userId) then Some(k)
    else CartFrom(orders, userId, k + 1)
  }

  /** Number of active carts the user has. */
  function CartCount(orders: seq<OrderRow>, userId: int): nat {
    if orders == [] then 0
    else (if IsCartOf(orders[0], userId) then 1 else 0) + CartCount(orders[1..], userId)
  }

  /** The get-or-create lookup finds a cart exactly when the user has one. */
  lemma {:induction false} ActiveCartIffCount(orders: seq<OrderRow>, userId: int)
    ensures ActiveCart(orders, userId).None? <==> CartCount(orders, userId) == 0
  {
    if orders != [] {
      ActiveCartIffCount(orders[1..], userId);
      if !IsCartOf(orders[0], userId) {
        assert ActiveCart(orders, userId).None? <==> ActiveCart(orders[1..], userId).None?;
      }
    }
  }

  /** Two order tables that agree row by row on which rows are the user's carts have the same
      carts for the lookup and the count. */
  lemma {:induction false} CartCountPointwise(a: seq<OrderRow>, b: seq<OrderRow>, userId: int)
    requires |a| == |b|
    requires forall i :: 0 <= i < |a| ==> (IsCartOf(a[i], userId) <==> IsCartOf(b[i], userId))
    ensures CartCount(a, userId) == CartCount(b, userId)
    ensures ActiveCart(a, userId) == ActiveCart(b, userId)
  {
    if a != [] {
      CartCountPointwise(a[1..], b[1..], userId);
    }
  }

  lemma {:induction false} CartCountAppend(orders: seq<OrderRow>, o: OrderRow, userId: int)
    ensures CartCount(orders + [o], userId) == CartCount(orders, userId) + (if IsCartOf(o, userId) then 1 else 0)
  {
    if orders != [] {
      assert (orders + [o])[1..] == orders[1..] + [o];
      CartCountAppend(orders[1..], o, userId);
    }
  }

  /** `select ... from orders where orderId = id` */
  function OrderIndex(orders: seq<OrderRow>, id: int): (r: Option<nat>)
    ensures r.Some? ==> r.value < |orders| && orders[r.value].orderId == id
    ensures r.None? <==> forall j :: 0 <= j < |orders| ==> orders[j].orderId != id
  {
    OrderFrom(orders, id, 0)
  }

  function OrderFrom(orders: seq<OrderRow>, id: int, k: nat): (r: Option<nat>)
    requires k <= |orders|
    ensures r.Some? ==> k <= r.value < |orders| && orders[r.value].orderId == id
    ensures r.Some? ==> forall j :: k <= j < r.value ==> orders[j].orderId != id
    ensures r.None? <==> forall j :: k <= j < |orders| ==> orders[j].orderId != id
    decreases |orders| - k
  {
    if k == |orders| then None
    else if orders[k].orderId == id then Some(k)
    else OrderFrom(orders, id, k + 1)
  }

  /** `update orders set lastUpdated = now where orderId = id` */
  function Touch(orders: seq<OrderRow>, id: int, now: int): (r: seq<OrderRow>)
    ensures |r| == |orders|
    ensures forall i :: 0 <= i < |orders| ==> r[i] == if orders[i].orderId == id then orders[i].(lastUpdated := now) else orders[i]
  {
    seq(|orders|, i requires 0 <= i < |orders| => if orders[i].orderId == id then orders[i].(lastUpdated := now) else orders[i])
  }

  /** A fresh active cart header. */
  function NewCart(id: int, userId: int, now: int): (o: OrderRow)
    ensures IsCartOf(o, userId) && o.orderId == id
  {
    OrderRow(id, Some(userId), CartStatus, None, None, None, None, None, now)
  }

  /** `delete from orders where orderId = id` */
  function DropOrder(orders: seq<OrderRow>, id: int): (r: seq<OrderRow>)
    ensures forall o :: o in r <==> o in orders && o.orderId != id
    ensures |r| <= |orders|
  {
    if orders == [] then []
    else (if orders[0].orderId != id then [orders[0]] else []) + DropOrder(orders[1..], id)
  }

  /** Primary key of `orders`: ids are distinct and below the id sequence. */
  ghost predicate OrderKeys(orders: seq<OrderRow>, next: int) {
    && (forall i :: 0 <= i < |orders| ==> orders[i].orderId < next)
    && (forall i, j :: 0 <= i < j < |orders| ==> orders[i].orderId != orders[j].orderId)
  }

  lemma {:induction false} DropOrderKeys(orders: seq<OrderRow>, id: int, next: int)
    requires OrderKeys(orders, next)
    ensures OrderKeys(DropOrder(orders, id), next)
  {
    if orders != [] {
      DropOrderKeys(orders[1..], id, next);
      var tail := DropOrder(orders[1..], id);
      forall o | o in tail ensures o.orderId != orders[0].orderId {
        var j :| 0 <= j < |orders[1..]| && orders[1..][j] == o;
        assert orders[j + 1] == o;
      }
    }
  }

  // ---- products ----

  /** `select ... from products where articleNumber = a limit 1` */
  function ProductIndex(products: seq<ProductRow>, a: string): (r: Option<nat>)
    ensures r.Some? ==> r.value < |products| && products[r.value].articleNumber == a
    ensures r.None? <==> forall j :: 0 <= j < |products| ==> products[j].articleNumber != a
  {
    ProductFrom(products, a, 0)
  }

  function ProductFrom(products: seq<ProductRow>, a: string, k: nat): (r: Option<nat>)
    requires k <= |products|
    ensures r.Some? ==> k <= r.value < |products| && products[r.value].articleNumber == a
    ensures r.Some? ==> forall j :: k <= j < r.value ==> products[j].articleNumber != a
    ensures r.None? <==> forall j :: k <= j < |products| ==> products[j].articleNumber != a
    decreases |products| - k
  {
    if k == |products| then None
    else if products[k].articleNumber == a then Some(k)
    else ProductFrom(products, a, k + 1)
  }

  // ---- orderItems ----

  /** `select ... from orderItems where productOrderId = id` */
  function ItemIndex(items: seq<ItemRow>, id: int): (r: Option<nat>)
    ensures r.Some? ==> r.value < |items| && items[r.value].itemId == id
    ensures r.None? <==> forall j :: 0 <= j < |items| ==> items[j].itemId != id
  {
    ItemFrom(items, id, 0)
  }

  function ItemFrom(items: seq<ItemRow>, id: int, k: nat): (r: Option<nat>)
    requires k <= |items|
    ensures r.Some? ==> k <= r.value < |items| && items[r.value].itemId == id
    ensures r.Some? ==> forall j :: k <= j < r.value ==> items[j].itemId != id
    ensures r.None? <==> forall j :: k <= j < |items| ==> items[j].itemId != id
    decreases |items| - k
  {
    if k == |items| then None
    else if items[k].itemId == id then Some(k)
    else ItemFrom(items, id, k + 1)
  }

  predicate LineMatches(it: ItemRow, orderId: int, a: string, s: string) {
    it.orderId == orderId && it.articleNumber == a && it.size == s
  }

  /** The existing line of an order for (article, size) that an add merges into. */
  function LineIndex(items: seq<ItemRow>, orderId: int, a: string, s: string): (r: Option<nat>)
    ensures r.Some? ==> r.value < |items| && LineMatches(items[r.value], orderId, a, s)
    ensures r.Some? ==> forall j :: 0 <= j < r.value ==> !LineMatches(items[j], orderId, a, s)
    ensures r.None? <==> forall j :: 0 <= j < |items| ==> !LineMatches(items[j], orderId, a, s)
  {
    LineFrom(items, orderId, a, s, 0)
  }

  function LineFrom(items: seq<ItemRow>, orderId: int, a: string, s: string, k: nat): (r: Option<nat>)
    requires k <= |items|
    ensures r.Some? ==> k <= r.value < |items| && LineMatches(items[r.value], orderId, a, s)
    ensures r.Some? ==> forall j :: k <= j < r.value ==> !LineMatches(items[j], orderId, a, s)
    ensures r.None? <==> forall j :: k <= j < |items| ==> !LineMatches(items[j], orderId, a, s)
    decreases |items| - k
  {
    if k == |items| then None
    else if LineMatches(items[k], orderId, a, s) then Some(k)
    else LineFrom(items, orderId, a, s, k + 1)
  }

  /** Quantity of the line of an order for (article, size); 0 when there is none. */
  function LineQuantity(items: seq<ItemRow>, orderId: int, a: string, s: string): int {
    match LineIndex(items, orderId, a, s)
    case None => 0
    case Some(k) => items[k].quantity
  }

  /** The lines of one order, in table order. */
  function LinesOf(items: seq<ItemRow>, orderId: int): (r: seq<ItemRow>)
    ensures forall it :: it in r <==> it in items && it.orderId == orderId
    ensures |r| <= |items|
  {
    if items == [] then []
    else (if items[0].orderId == orderId then [items[0]] else []) + LinesOf(items[1..], orderId)
  }

  lemma {:induction false} LinesOfAppend(items: seq<ItemRow>, extra: seq<ItemRow>, orderId: int)
    ensures LinesOf(items + extra, orderId) == LinesOf(items, orderId) + LinesOf(extra, orderId)
  {
    if items != [] {
      assert (items + extra)[1..] == items[1..] + extra;
      LinesOfAppend(items[1..], extra, orderId);
    } else {
      assert items + extra == extra;
    }
  }

  /** `delete from orderItems where productOrderId = id` */
  function DropItem(items: seq<ItemRow>, id: int): (r: seq<ItemRow>)
    ensures forall it :: it in r <==> it in items && it.itemId != id
    ensures |r| <= |items|
  {
    if items == [] then []
    else (if items[0].itemId != id then [items[0]] else []) + DropItem(items[1..], id)
  }

  /** `update orderItems set quantity = q where productOrderId = id` */
  function SetQuantity(items: seq<ItemRow>, id: int, q: int): (r: seq<ItemRow>)
    ensures |r| == |items|
    ensures forall i :: 0 <= i < |items| ==> r[i] == if items[i].itemId == id then items[i].(quantity := q) else items[i]
  {
    seq(|items|, i requires 0 <= i < |items| => if items[i].itemId == id then items[i].(quantity := q) else items[i])
  }

  /** Lines inserted verbatim for a list of entries, with consecutive fresh ids from `firstId`. */
  function LinesFor(orderId: int, firstId: int, entries: seq<CartEntry>): (r: seq<ItemRow>)
    ensures |r| == |entries|
    ensures forall j :: 0 <= j < |entries| ==>
      r[j] == ItemRow(firstId + j, orderId, entries[j].articleNumber, entries[j].size, entries[j].quantity)
  {
    seq(|entries|, j requires 0 <= j < |entries| =>
      ItemRow(firstId + j, orderId, entries[j].articleNumber, entries[j].size, entries[j].quantity))
  }

  /** The lines inserted for the first `n` entries of the cart. */
  ghost predicate LinesSoFar(lines: seq<ItemRow>, orderId: int, firstId: int, cart: seq<CartEntry>, n: nat) {
    && n <= |cart| && |lines| == n
    && forall j :: 0 <= j < n ==> lines[j] == ItemRow(firstId + j, orderId, cart[j].articleNumber, cart[j].size, cart[j].quantity)
  }

  lemma LinesSoFarNext(lines: seq<ItemRow>, orderId: int, firstId: int, cart: seq<CartEntry>, n: nat)
    requires LinesSoFar(lines, orderId, firstId, cart, n) && n < |cart|
    ensures LinesSoFar(lines + [ItemRow(firstId + n, orderId, cart[n].articleNumber, cart[n].size, cart[n].quantity)], orderId, firstId, cart, n + 1)
  {
  }

  lemma LinesSoFarAll(lines: seq<ItemRow>, orderId: int, firstId: int, cart: seq<CartEntry>)
    requires LinesSoFar(lines, orderId, firstId, cart, |cart|)
    ensures lines == LinesFor(orderId, firstId, cart)
  {
  }

  /** Primary key of `orderItems` (distinct ids below their sequence) and its reference to `orders`. */
  ghost predicate ItemKeys(items: seq<ItemRow>, nextItem: int, nextOrder: int) {
    && (forall i :: 0 <= i < |items| ==> items[i].itemId < nextItem && items[i].orderId < nextOrder)
    && DistinctItemIds(items)
  }

  ghost predicate DistinctItemIds(items: seq<ItemRow>) {
    forall i, j :: 0 <= i < j < |items| ==> items[i].itemId != items[j].itemId
  }

  lemma DistinctCons(x: ItemRow, tail: seq<ItemRow>)
    requires DistinctItemIds(tail)
    requires forall it :: it in tail ==> it.itemId != x.itemId
    ensures DistinctItemIds([x] + tail)
  {
    var r := [x] + tail;
    forall i, j | 0 <= i < j < |r| ensures r[i].itemId != r[j].itemId {
      assert r[j] == tail[j - 1];
      if i > 0 {
        assert r[i] == tail[i - 1];
      }
    }
  }

  lemma {:induction false} DropItemDistinct(items: seq<ItemRow>, id: int)
    requires DistinctItemIds(items)
    ensures DistinctItemIds(DropItem(items, id))
  {
    if items != [] {
      var rest := items[1..];
      assert DistinctItemIds(rest) by {
        forall i, j | 0 <= i < j < |rest| ensures rest[i].itemId != rest[j].itemId {
          assert rest[i] == items[i + 1] && rest[j] == items[j + 1];
        }
      }
      DropItemDistinct(rest, id);
      var tail := DropItem(rest, id);
      forall it | it in tail ensures it.itemId != items[0].itemId {
        var j :| 0 <= j < |rest| && rest[j] == it;
        assert items[j + 1] == it;
      }
      if items[0].itemId != id {
        DistinctCons(items[0], tail);
      }
    }
  }

  lemma DropItemKeys(items: seq<ItemRow>, id: int, nextItem: int, nextOrder: int)
    requires ItemKeys(items, nextItem, nextOrder)
    ensures ItemKeys(DropItem(items, id), nextItem, nextOrder)
  {
    var r := DropItem(items, id);
    DropItemDistinct(items, id);
    forall i | 0 <= i < |r| ensures r[i].itemId < nextItem && r[i].orderId < nextOrder {
      assert r[i] in items;
    }
  }

  lemma LinesForSnoc(orderId: int, firstId: int, entries: seq<CartEntry>, e: CartEntry)
    ensures LinesFor(orderId, firstId, entries + [e]) ==
      LinesFor(orderId, firstId, entries) + [ItemRow(firstId + |entries|, orderId, e.articleNumber, e.size, e.quantity)]
  {
  }

  /** Lines inserted with fresh consecutive ids for an allocated order keep the keys. */
  lemma LinesForKeys(items: seq<ItemRow>, nextItem: int, nextOrder: int, orderId: int, entries: seq<CartEntry>)
    requires ItemKeys(items, nextItem, nextOrder) && orderId < nextOrder
    ensures ItemKeys(items + LinesFor(orderId, nextItem, entries), nextItem + |entries|, nextOrder)
  {
    var r := items + LinesFor(orderId, nextItem, entries);
    forall i, j | 0 <= i < j < |r| ensures r[i].itemId != r[j].itemId {
      if j >= |items| && i < |items| {
        assert r[i].itemId < nextItem <= r[j].itemId;
      }
    }
  }

  // ---- session cart ----

  predicate EntryMatches(e: CartEntry, a: string, s: string) {
    e.articleNumber == a && e.size == s
  }

  /** `req.session.cart.findIndex(item => item.articleNumber === a && item.size === s)` */
  function EntryIndex(cart: seq<CartEntry>, a: string, s: string): (r: Option<nat>)
    ensures r.Some? ==> r.value < |cart| && EntryMatches(cart[r.value], a, s)
    ensures r.Some? ==> forall j :: 0 <= j < r.value ==> !EntryMatches(cart[j], a, s)
    ensures r.None? <==> forall j :: 0 <= j < |cart| ==> !EntryMatches(cart[j], a, s)
  {
    EntryFrom(cart, a, s, 0)
  }

  function EntryFrom(cart: seq<CartEntry>, a: string, s: string, k: nat): (r: Option<nat>)
    requires k <= |cart|
    ensures r.Some? ==> k <= r.value < |cart| && EntryMatches(cart[r.value], a, s)
    ensures r.Some? ==> forall j :: k <= j < r.value ==> !EntryMatches(cart[j], a, s)
    ensures r.None? <==> forall j :: k <= j < |cart| ==> !EntryMatches(cart[j], a, s)
    decreases |cart| - k
  {
    if k == |cart| then None
    else if EntryMatches(cart[k], a, s) then Some(k)
    else EntryFrom(cart, a, s, k + 1)
  }

  lemma EntryIndexSnoc(init: seq<CartEntry>, e: CartEntry, a: string, s: string)
    ensures EntryIndex(init + [e], a, s) ==
      if EntryIndex(init, a, s).Some? then EntryIndex(init, a, s)
      else if EntryMatches(e, a, s) then Some(|init|) else None
  {
    var c := init + [e];
    assert c[|init|] == e;
    assert forall j :: 0 <= j < |init| ==> c[j] == init[j];
  }

  /** Two carts holding the same (article, size) pairs at the same places find the same entry. */
  lemma EntryIndexSameKeys(c1: seq<CartEntry>, c2: seq<CartEntry>, a: string, s: string)
    requires |c1| == |c2|
    requires forall j :: 0 <= j < |c1| ==> c1[j].articleNumber == c2[j].articleNumber && c1[j].size == c2[j].size
    ensures EntryIndex(c1, a, s) == EntryIndex(c2, a, s)
  {
    var r1, r2 := EntryIndex(c1, a, s), EntryIndex(c2, a, s);
    if r1.Some? && r2.Some? {
      assert !(r1.value < r2.value) && !(r2.value < r1.value);
    }
  }

  /** Quantity the session cart holds of (article, size); 0 when it holds none. */
  function EntryQuantity(cart: seq<CartEntry>, a: string, s: string): int {
    match EntryIndex(cart, a, s)
    case None => 0
    case Some(j) => cart[j].quantity
  }

  /** At most one entry per (article, size). */
  ghost predicate SingleEntries(cart: seq<CartEntry>) {
    forall i, j :: 0 <= i < j < |cart| ==>
      !(cart[i].articleNumber == cart[j].articleNumber && cart[i].size == cart[j].size)
  }

  // ---- favorites ----

  /** No (user, article) pair is stored twice. */
  ghost predicate NoDuplicates<T>(s: seq<T>) {
    forall i, j :: 0 <= i < j < |s| ==> s[i] != s[j]
  }
}
