/** The checkout and history routes of `routes/orders.js`. A signed-in user's active cart is
    promoted to a placed order; a guest's session cart becomes a new placed order inside one
    transaction that checks and debits the stock line by line and is undone as a whole when a
    line cannot be served. */
module Orders {
  import opened Tables
  import opened Database

  /** The shipping fields of the checkout body. */
  datatype Shipping = Shipping(deliveryAddress: Option<string>, telephone: Option<string>,
                               paymentMethod: Option<string>, email: Option<string>, name: Option<string>)

  /** The checkout's validation: address and telephone, and for a guest also email and name. */
  predicate ShippingComplete(sh: Shipping, guest: bool) {
    Present(sh.deliveryAddress) && Present(sh.telephone) && (guest ==> Present(sh.email) && Present(sh.name))
  }

  // ---- the signed-in branch ----

  /** The cart row once placed: status 2 with the shipping fields; an absent payment method
      leaves that column as it was. */
  function Placed(o: OrderRow, sh: Shipping): OrderRow {
    o.(status := PlacedStatus, deliveryAddress := sh.deliveryAddress, telephone := sh.telephone,
       paymentMethod := if sh.paymentMethod.Some? then sh.paymentMethod else o.paymentMethod)
  }

  /** `update orders set orderStatusId = 2, deliveryAddress, telephone, paymentMethod where orderId = id` */
  function Promote(orders: seq<OrderRow>, id: int, sh: Shipping): (r: seq<OrderRow>)
    ensures |r| == |orders|
    ensures forall i :: 0 <= i < |orders| ==> r[i] == if orders[i].orderId == id then Placed(orders[i], sh) else orders[i]
  {
    seq(|orders|, i requires 0 <= i < |orders| => if orders[i].orderId == id then Placed(orders[i], sh) else orders[i])
  }

  lemma {:induction false} CartCountUpdate(orders: seq<OrderRow>, k: nat, o: OrderRow, userId: int)
    requires k < |orders|
    ensures CartCount(orders[k := o], userId) ==
      CartCount(orders, userId) - (if IsCartOf(orders[k], userId) then 1 else 0) + (if IsCartOf(o, userId) then 1 else 0)
  {
    if k == 0 {
      assert orders[k := o][1..] == orders[1..];
    } else {
      assert orders[k := o][1..] == orders[1..][k - 1 := o];
      CartCountUpdate(orders[1..], k - 1, o, userId);
    }
  }

  /** Placing the cart takes it out of the user's carts; when it was the user's only cart, a
      second checkout finds none and fails with 404. */
  lemma PromoteClosesCart(orders: seq<OrderRow>, next: int, userId: int, sh: Shipping)
    requires OrderKeys(orders, next) && ActiveCart(orders, userId).Some?
    ensures var id := orders[ActiveCart(orders, userId).value].orderId;
      && CartCount(Promote(orders, id, sh), userId) == CartCount(orders, userId) - 1
      && (CartCount(orders, userId) == 1 ==> ActiveCart(Promote(orders, id, sh), userId).None?)
  {
    var k := ActiveCart(orders, userId).value;
    var id := orders[k].orderId;
    assert Promote(orders, id, sh) == orders[k := Placed(orders[k], sh)];
    CartCountUpdate(orders, k, Placed(orders[k], sh), userId);
    ActiveCartIffCount(Promote(orders, id, sh), userId);
  }

  /** The placed cart shows in the user's order history, with the shipping fields. */
  lemma PromotedInHistory(orders: seq<OrderRow>, next: int, userId: int, sh: Shipping)
    requires OrderKeys(orders, next) && ActiveCart(orders, userId).Some?
    ensures var k := ActiveCart(orders, userId).value;
      Placed(orders[k], sh) in OrderHistory(Promote(orders, orders[k].orderId, sh), userId)
  {
    var k := ActiveCart(orders, userId).value;
    assert Promote(orders, orders[k].orderId, sh)[k] == Placed(orders[k], sh);
  }

  /** The signed-in branch: 404 without an active cart, else the cart is placed. */
  method CheckoutUser(db: Db, userId: int, sh: Shipping) returns (r: Result<int>)
    requires db.Valid()
    modifies db`orders
    ensures db.Valid()
    ensures match ActiveCart(old(db.orders), userId)
      case None => r == Fail(NotFound) && db.orders == old(db.orders)
      case Some(k) => r == Ok(old(db.orders)[k].orderId) && db.orders == Promote(old(db.orders), r.value, sh)
  {
    var k := ActiveCart(db.orders, userId);
    if k.None? {
      return Fail(NotFound);
    }
    var orderId := db.orders[k.value].orderId;
    db.orders := Promote(db.orders, orderId, sh);
    r := Ok(orderId);
  }

  // ---- the guest branch ----

  /** The order row a guest checkout inserts: no user, status 2, the shipping fields. */
  function GuestOrder(id: int, sh: Shipping, now: int): OrderRow {
    OrderRow(id, None, PlacedStatus, sh.deliveryAddress, sh.telephone, sh.paymentMethod, sh.email, sh.name, now)
  }

  /** One iteration of the guest loop on the stock table: without a stock row reading
      `productSize[0].stock` throws (500); a shortage aborts with 400; otherwise the stock just
      read is lowered by the entry's quantity. */
  function DebitStep(rows: seq<SizeRow>, e: CartEntry): Result<seq<SizeRow>> {
    match StockOf(rows, e.articleNumber, e.size)
    case None => Fail(ServerError)
    case Some(v) =>
      if v < e.quantity then Fail(BadRequest)
      else Ok(SetStock(rows, e.articleNumber, e.size, v - e.quantity))
  }

  /** The stock table once the loop has run over the first `n` entries of `cart`, or the
      failure it stopped at. */
  function DebitFirst(rows: seq<SizeRow>, cart: seq<CartEntry>, n: nat): Result<seq<SizeRow>>
    requires n <= |cart|
  {
    if n == 0 then Ok(rows)
    else match DebitFirst(rows, cart, n - 1) {
      case Fail(f) => Fail(f)
      case Ok(r) => DebitStep(r, cart[n - 1])
    }
  }

  /** The stock table once the loop has run over the whole cart, or the failure it stopped at. */
  function Debit(rows: seq<SizeRow>, cart: seq<CartEntry>): Result<seq<SizeRow>> {
    DebitFirst(rows, cart, |cart|)
  }

  /** The stock covers the entry. */
  predicate Covered(rows: seq<SizeRow>, e: CartEntry) {
    StockOf(rows, e.articleNumber, e.size).Some? && StockOf(rows, e.articleNumber, e.size).value >= e.quantity
  }

  /** What the routes read for (a, s) after a successful checkout of `cart`: the stock less the
      cart's quantity of (a, s). */
  function Remaining(rows: seq<SizeRow>, cart: seq<CartEntry>, a: string, s: string): Option<int> {
    match StockOf(rows, a, s)
    case None => None
    case Some(v) => Some(v - EntryQuantity(cart, a, s))
  }

  /** Once the loop has failed it stays failed with the same error. */
  lemma {:induction false} DebitStopsAt(rows: seq<SizeRow>, cart: seq<CartEntry>, i: nat, m: nat)
    requires i < m <= |cart| && DebitFirst(rows, cart, i + 1).Fail?
    ensures DebitFirst(rows, cart, m) == DebitFirst(rows, cart, i + 1)
    decreases m
  {
    if m != i + 1 {
      DebitStopsAt(rows, cart, i, m - 1);
    }
  }

  /** A guest checkout never drives a stock negative: each line is refused unless the stock it
      reads covers it. */
  lemma {:induction false} DebitKeepsStock(rows: seq<SizeRow>, cart: seq<CartEntry>, n: nat)
    requires n <= |cart| && StockNonNegative(rows)
    ensures DebitFirst(rows, cart, n).Ok? ==> StockNonNegative(DebitFirst(rows, cart, n).value)
  {
    if n != 0 {
      DebitKeepsStock(rows, cart, n - 1);
    }
  }

  /** After the entries `entries` went through, the stock `r` reads for every pair what the
      original stock `rows` read less what the entries ordered of it. */
  ghost predicate StockAfter(r: seq<SizeRow>, rows: seq<SizeRow>, entries: seq<CartEntry>) {
    forall a, s :: StockOf(r, a, s) == Remaining(rows, entries, a, s)
  }

  /** The stock covers each of the first `n` entries. */
  ghost predicate CoversFirst(rows: seq<SizeRow>, cart: seq<CartEntry>, n: nat)
    requires n <= |cart|
  {
    forall j :: 0 <= j < n ==> Covered(rows, cart[j])
  }

  /** With one entry per (article, size), the guest checkout succeeds exactly when the stock
      covers every entry, and then lowers the stock of each entry's pair by its quantity and no
      other stock. */
  lemma DebitExact(rows: seq<SizeRow>, cart: seq<CartEntry>)
    requires SingleEntries(cart)
    ensures Debit(rows, cart).Ok? <==> forall j :: 0 <= j < |cart| ==> Covered(rows, cart[j])
    ensures Debit(rows, cart).Ok? ==>
      forall a, s :: StockOf(Debit(rows, cart).value, a, s) == Remaining(rows, cart, a, s)
  {
    DebitFirstExact(rows, cart, |cart|);
    assert cart[..|cart|] == cart;
  }

  lemma {:induction false} DebitFirstExact(rows: seq<SizeRow>, cart: seq<CartEntry>, n: nat)
    requires n <= |cart| && SingleEntries(cart)
    ensures DebitFirst(rows, cart, n).Ok? <==> CoversFirst(rows, cart, n)
    ensures DebitFirst(rows, cart, n).Ok? ==> StockAfter(DebitFirst(rows, cart, n).value, rows, cart[..n])
  {
    if n == 0 {
      forall a, s ensures StockOf(rows, a, s) == Remaining(rows, cart[..0], a, s) {
      }
    } else {
      DebitFirstExact(rows, cart, n - 1);
      match DebitFirst(rows, cart, n - 1)
      case Fail(f) =>
      case Ok(r) =>
        var init, e := cart[..n - 1], cart[n - 1];
        assert cart[..n] == init + [e];
        forall j | 0 <= j < |init| ensures !EntryMatches(init[j], e.articleNumber, e.size) {
          assert init[j] == cart[j];
        }
        DebitExactStep(rows, init, e, r);
    }
  }

  /** One more entry, of a pair the earlier entries do not hold, for `DebitFirstExact`. */
  lemma DebitExactStep(rows: seq<SizeRow>, init: seq<CartEntry>, e: CartEntry, r: seq<SizeRow>)
    requires EntryIndex(init, e.articleNumber, e.size).None?
    requires StockAfter(r, rows, init)
    ensures DebitStep(r, e).Ok? <==> Covered(rows, e)
    ensures DebitStep(r, e).Ok? ==> StockAfter(DebitStep(r, e).value, rows, init + [e])
  {
    assert StockOf(r, e.articleNumber, e.size) == Remaining(rows, init, e.articleNumber, e.size);
    if Covered(rows, e) {
      var v := StockOf(rows, e.articleNumber, e.size).value;
      forall a, s ensures StockOf(SetStock(r, e.articleNumber, e.size, v - e.quantity), a, s) == Remaining(rows, init + [e], a, s) {
        assert StockOf(r, a, s) == Remaining(rows, init, a, s);
        if a == e.articleNumber && s == e.size {
          DebitSamePair(rows, init, e, r, v);
        } else {
          DebitOtherPair(rows, init, e, r, v - e.quantity, a, s);
        }
      }
    }
  }

  lemma DebitSamePair(rows: seq<SizeRow>, init: seq<CartEntry>, e: CartEntry, r: seq<SizeRow>, v: int)
    requires EntryIndex(init, e.articleNumber, e.size).None?
    requires StockOf(r, e.articleNumber, e.size) == StockOf(rows, e.articleNumber, e.size) == Some(v)
    ensures StockOf(SetStock(r, e.articleNumber, e.size, v - e.quantity), e.articleNumber, e.size)
      == Remaining(rows, init + [e], e.articleNumber, e.size)
  {
    EntryIndexSnoc(init, e, e.articleNumber, e.size);
    StockOfSetSame(r, e.articleNumber, e.size, v - e.quantity);
  }

  lemma DebitOtherPair(rows: seq<SizeRow>, init: seq<CartEntry>, e: CartEntry, r: seq<SizeRow>, v: int, a: string, s: string)
    requires a != e.articleNumber || s != e.size
    requires StockOf(r, a, s) == Remaining(rows, init, a, s)
    ensures StockOf(SetStock(r, e.articleNumber, e.size, v), a, s) == Remaining(rows, init + [e], a, s)
  {
    EntryIndexSnoc(init, e, a, s);
    StockOfSetOther(r, e.articleNumber, e.size, v, a, s);
  }

  /** One entry of the guest loop: read its stock, refuse it when there is no row (500) or too
      little (400), else lower the stock by its quantity. */
  method TakeStock(sizes: seq<SizeRow>, e: CartEntry) returns (r: Result<seq<SizeRow>>)
    ensures r == DebitStep(sizes, e)
  {
    var stock := StockOf(sizes, e.articleNumber, e.size);
    if stock.None? {
      return Fail(ServerError);
    }
    if stock.value < e.quantity {
      return Fail(BadRequest);
    }
    r := Ok(SetStock(sizes, e.articleNumber, e.size, stock.value - e.quantity));
  }

  /** The loop of the guest transaction, on the transaction's view of the stock and line
      tables: for each entry the stock row is read, the line inserted and the stock lowered.
      Answers the failure the loop stops at or the two tables it leaves. */
  method GuestLines(sizes0: seq<SizeRow>, items0: seq<ItemRow>, nextItemId0: int, orderId: int, cart: seq<CartEntry>)
    returns (r: Result<(seq<SizeRow>, seq<ItemRow>)>)
    ensures Debit(sizes0, cart).Fail? ==> r == Fail(Debit(sizes0, cart).failure)
    ensures Debit(sizes0, cart).Ok? ==> r == Ok((Debit(sizes0, cart).value, items0 + LinesFor(orderId, nextItemId0, cart)))
  {
    var lines := [];
    var nextItemId := nextItemId0;
    var sizes := sizes0;
    var i: nat := 0;
    while i < |cart|
      invariant i <= |cart|
      invariant DebitFirst(sizes0, cart, i) == Ok(sizes)
      invariant LinesSoFar(lines, orderId, nextItemId0, cart, i)
      invariant nextItemId == nextItemId0 + i
    {
      var e := cart[i];
      var step := TakeStock(sizes, e);
      if step.Fail? {
        DebitStopsAt(sizes0, cart, i, |cart|);
        return Fail(step.failure);
      }
      LinesSoFarNext(lines, orderId, nextItemId0, cart, i);
      lines := lines + [ItemRow(nextItemId, orderId, e.articleNumber, e.size, e.quantity)];
      nextItemId := nextItemId + 1;
      sizes := step.value;
      i := i + 1;
    }
    LinesSoFarAll(lines, orderId, nextItemId0, cart);
    r := Ok((sizes, items0 + lines));
  }

  /** The guest branch: 400 for an empty session cart; then the order and its lines are
      inserted and the stock lowered, all undone when an entry has no stock row (500) or too
      little stock (400). On success the session cart is emptied. */
  method CheckoutGuest(db: Db, session: Session, sh: Shipping, now: int) returns (r: Result<int>)
    requires db.Valid()
    modifies db`orders, db`nextOrderId, db`items, db`nextItemId, db`sizes, session`cart
    ensures db.Valid()
    ensures r.Fail? ==> unchanged(db, session)
    ensures old(session.cart) == [] ==> r == Fail(BadRequest)
    ensures old(session.cart) != [] ==>
      match Debit(old(db.sizes), old(session.cart))
      case Fail(f) => r == Fail(f)
      case Ok(sizes) =>
        && r == Ok(old(db.nextOrderId))
        && db.orders == old(db.orders) + [GuestOrder(r.value, sh, now)]
        && db.nextOrderId == old(db.nextOrderId) + 1
        && db.items == old(db.items) + LinesFor(r.value, old(db.nextItemId), old(session.cart))
        && db.nextItemId == old(db.nextItemId) + |old(session.cart)|
        && db.sizes == sizes
        && session.cart == []
  {
    var cart := session.cart;
    if cart == [] {
      return Fail(BadRequest);
    }
    var orderId := db.nextOrderId;
    var outcome := GuestLines(db.sizes, db.items, db.nextItemId, orderId, cart);
    if outcome.Fail? {
      return Fail(outcome.failure);
    }
    var (sizes, items) := outcome.value;
    LinesForKeys(db.items, db.nextItemId, orderId + 1, orderId, cart);
    db.orders, db.nextOrderId := db.orders + [GuestOrder(orderId, sh, now)], orderId + 1;
    db.items, db.nextItemId, db.sizes := items, db.nextItemId + |cart|, sizes;
    session.cart := [];
    r := Ok(orderId);
  }

  /** `POST /orders/checkout`: 400 before any write unless the shipping fields are complete,
      then the branch for a signed-in user or for a guest. */
  method Checkout(db: Db, session: Session, caller: Option<int>, sh: Shipping, now: int) returns (r: Result<int>)
    requires db.Valid()
    modifies db`orders, db`nextOrderId, db`items, db`nextItemId, db`sizes, session`cart
    ensures db.Valid()
    ensures r.Fail? ==> unchanged(db, session)
    ensures !ShippingComplete(sh, caller.None?) ==> r == Fail(BadRequest)
    ensures ShippingComplete(sh, caller.None?) && caller.Some? ==>
      && (match ActiveCart(old(db.orders), caller.value)
          case None => r == Fail(NotFound)
          case Some(k) => r == Ok(old(db.orders)[k].orderId) && db.orders == Promote(old(db.orders), r.value, sh))
      && unchanged(db`nextOrderId, db`items, db`nextItemId, db`sizes, session)
    ensures ShippingComplete(sh, caller.None?) && caller.None? ==>
      if old(session.cart) == [] then r == Fail(BadRequest)
      else match Debit(old(db.sizes), old(session.cart))
        case Fail(f) => r == Fail(f)
        case Ok(sizes) =>
          && r == Ok(old(db.nextOrderId))
          && db.orders == old(db.orders) + [GuestOrder(r.value, sh, now)]
          && db.nextOrderId == old(db.nextOrderId) + 1
          && db.items == old(db.items) + LinesFor(r.value, old(db.nextItemId), old(session.cart))
          && db.nextItemId == old(db.nextItemId) + |old(session.cart)|
          && db.sizes == sizes
          && session.cart == []
  {
    if !ShippingComplete(sh, caller.None?) {
      return Fail(BadRequest);
    }
    if caller.Some? {
      r := CheckoutUser(db, caller.value, sh);
    } else {
      r := CheckoutGuest(db, session, sh, now);
    }
  }

  // ---- GET /orders/history ----

  /** The user's orders with a status from 2 to 5, in table order. */
  function OrderHistory(orders: seq<OrderRow>, userId: int): (r: seq<OrderRow>)
    ensures forall o :: o in r <==> o in orders && o.userId == Some(userId) && InHistory(o.status)
    ensures |r| <= |orders|
  {
    if orders == [] then []
    else
      (if orders[0].userId == Some(userId) && InHistory(orders[0].status) then [orders[0]] else [])
      + OrderHistory(orders[1..], userId)
  }
}
