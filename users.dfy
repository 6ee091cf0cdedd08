/** `POST /register` and `POST /login` of `routes/users.js`: the address is normalised, the
    account is created or looked up, and then, in one transaction, the guest's favourites and
    cart lines move into the account. */
module Users {
  import opened Tables
  import opened Database
  import opened Text
  import opened OrderItems

  /** The `roleId` of a registered customer. */
  const CustomerRole: int := 2

  // ---- accounts ----

  /** `select ... from users where email = e limit 1` */
  function UserByEmail(users: seq<UserRow>, email: string): (r: Option<nat>)
    ensures r.Some? ==> r.value < |users| && users[r.value].email == email
    ensures r.None? <==> forall j :: 0 <= j < |users| ==> users[j].email != email
  {
    UserFrom(users, email, 0)
  }

  function UserFrom(users: seq<UserRow>, email: string, k: nat): (r: Option<nat>)
    requires k <= |users|
    ensures r.Some? ==> k <= r.value < |users| && users[r.value].email == email
    ensures r.None? <==> forall j :: k <= j < |users| ==> users[j].email != email
    decreases |users| - k
  {
    if k == |users| then None
    else if users[k].email == email then Some(k)
    else UserFrom(users, email, k + 1)
  }

  /** No address is held by two accounts. */
  ghost predicate DistinctEmails(users: seq<UserRow>) {
    forall i, j :: 0 <= i < j < |users| ==> users[i].email != users[j].email
  }

  /** The account the register route creates for `email`, or 409 when an account already holds
      the normalised address. */
  function NewAccount(users: seq<UserRow>, nextUserId: int, email: string): (r: Result<UserRow>)
    ensures r.Ok? ==> r.value.userId == nextUserId
  {
    var address := NormalizeEmail(email);
    if UserByEmail(users, address).Some? then Fail(Conflict)
    else Ok(UserRow(nextUserId, UserName(email), address, CustomerRole))
  }

  /** A new account is a customer stored under the normalised address, named by the text of
      that address before its first '@'; it is refused exactly when the address is taken. */
  lemma NewAccountShape(users: seq<UserRow>, nextUserId: int, email: string)
    ensures NewAccount(users, nextUserId, email).Fail? <==>
      exists j :: 0 <= j < |users| && users[j].email == NormalizeEmail(email)
    ensures NewAccount(users, nextUserId, email).Fail? ==> NewAccount(users, nextUserId, email) == Fail(Conflict)
    ensures match NewAccount(users, nextUserId, email)
      case Fail(_) => true
      case Ok(u) =>
        && u.userId == nextUserId && u.roleId == CustomerRole
        && u.email == NormalizeEmail(email) && Trimmed(u.email)
        && '@' !in u.name && u.email[..|u.name|] == u.name
  {
    NormalizedShape(email);
    var r := UserByEmail(users, NormalizeEmail(email));
    if r.Some? {
      assert users[r.value].email == NormalizeEmail(email);
    }
  }

  /** Registration keeps the addresses distinct, and a second registration under the same
      address, up to surrounding white space and the case of its letters, is refused. */
  lemma NewAccountDistinct(users: seq<UserRow>, nextUserId: int, email: string, email': string)
    requires DistinctEmails(users)
    requires NewAccount(users, nextUserId, email).Ok?
    requires NormalizeEmail(email') == NormalizeEmail(email)
    ensures DistinctEmails(users + [NewAccount(users, nextUserId, email).value])
    ensures NewAccount(users + [NewAccount(users, nextUserId, email).value], nextUserId + 1, email') == Fail(Conflict)
  {
    var u := NewAccount(users, nextUserId, email).value;
    var address := NormalizeEmail(email);
    assert u.email == address && UserByEmail(users, address).None?;
    EmailAppended(users, u);
  }

  lemma EmailAppended(users: seq<UserRow>, u: UserRow)
    requires DistinctEmails(users) && UserByEmail(users, u.email).None?
    ensures DistinctEmails(users + [u])
    ensures UserByEmail(users + [u], u.email).Some?
  {
    assert (users + [u])[|users|] == u;
  }

  // ---- favourites ----

  /** One pass of the favourites loop: the pair is inserted unless the user already has it. */
  function AddFavorite(favs: seq<Favorite>, userId: int, a: string): seq<Favorite> {
    if Favorite(userId, a) in favs then favs else favs + [Favorite(userId, a)]
  }

  /** The favourites after the loop has run over the first `n` article numbers of `list`. */
  function AddFavoritesFirst(favs: seq<Favorite>, userId: int, list: seq<string>, n: nat): seq<Favorite>
    requires n <= |list|
  {
    if n == 0 then favs else AddFavorite(AddFavoritesFirst(favs, userId, list, n - 1), userId, list[n - 1])
  }

  /** The favourites after the loop over all of `list`. */
  function AddFavorites(favs: seq<Favorite>, userId: int, list: seq<string>): seq<Favorite> {
    AddFavoritesFirst(favs, userId, list, |list|)
  }

  /** The loop keeps every stored favourite in place and appends only pairs of the user. */
  lemma {:induction false} AddFavoritesFirstKeeps(favs: seq<Favorite>, userId: int, list: seq<string>, n: nat)
    requires n <= |list|
    ensures var r := AddFavoritesFirst(favs, userId, list, n);
      && |favs| <= |r| <= |favs| + n
      && (forall i :: 0 <= i < |favs| ==> r[i] == favs[i])
      && (forall i :: |favs| <= i < |r| ==> r[i].userId == userId)
  {
    if n > 0 {
      AddFavoritesFirstKeeps(favs, userId, list, n - 1);
      var p := AddFavoritesFirst(favs, userId, list, n - 1);
      var r := AddFavoritesFirst(favs, userId, list, n);
      assert r == p || r == p + [Favorite(userId, list[n - 1])];
    }
  }

  /** After the loop the stored pairs are the old ones plus the user's pair for each listed
      article. */
  lemma {:induction false} AddFavoritesFirstContents(favs: seq<Favorite>, userId: int, list: seq<string>, n: nat)
    requires n <= |list|
    ensures forall f :: f in AddFavoritesFirst(favs, userId, list, n) <==>
      (f in favs || (f.userId == userId && exists j :: 0 <= j < n && list[j] == f.articleNumber))
  {
    if n > 0 {
      AddFavoritesFirstContents(favs, userId, list, n - 1);
      var r := AddFavoritesFirst(favs, userId, list, n);
      forall f ensures f in r <==> (f in favs || (f.userId == userId && exists j :: 0 <= j < n && list[j] == f.articleNumber)) {
        if f.userId == userId && list[n - 1] == f.articleNumber {
          assert f in r;
        }
        if f.userId == userId && (exists j :: 0 <= j < n && list[j] == f.articleNumber) && !(list[n - 1] == f.articleNumber) {
          var j :| 0 <= j < n && list[j] == f.articleNumber;
          assert j < n - 1;
        }
      }
    }
  }

  /** The existence check keeps the table free of repeated pairs, also when the list repeats
      an article. */
  lemma {:induction false} AddFavoritesFirstSingle(favs: seq<Favorite>, userId: int, list: seq<string>, n: nat)
    requires n <= |list| && NoDuplicates(favs)
    ensures NoDuplicates(AddFavoritesFirst(favs, userId, list, n))
  {
    if n > 0 {
      AddFavoritesFirstSingle(favs, userId, list, n - 1);
      NoDuplicatesSnoc(AddFavoritesFirst(favs, userId, list, n - 1), Favorite(userId, list[n - 1]));
    }
  }

  lemma NoDuplicatesSnoc(favs: seq<Favorite>, f: Favorite)
    requires NoDuplicates(favs)
    ensures NoDuplicates(if f in favs then favs else favs + [f])
  {
  }

  /** Migration of favourites: the user ends with the old pairs plus one pair for each listed
      article, none twice, and nobody else's favourites change. */
  lemma AddFavoritesShape(favs: seq<Favorite>, userId: int, list: seq<string>)
    ensures var r := AddFavorites(favs, userId, list);
      && (forall a :: Favorite(userId, a) in r <==> Favorite(userId, a) in favs || a in list)
      && (forall f :: f in r && f.userId != userId ==> f in favs)
      && |favs| <= |r| <= |favs| + |list|
      && (forall i :: 0 <= i < |favs| ==> r[i] == favs[i])
      && (NoDuplicates(favs) ==> NoDuplicates(r))
  {
    AddFavoritesFirstKeeps(favs, userId, list, |list|);
    AddFavoritesFirstContents(favs, userId, list, |list|);
    AddFavoritesFirstSingle2(favs, userId, list);
    var r := AddFavorites(favs, userId, list);
    forall a ensures Favorite(userId, a) in r <==> Favorite(userId, a) in favs || a in list {
      if a in list {
        var j :| 0 <= j < |list| && list[j] == a;
      }
    }
  }

  lemma AddFavoritesFirstSingle2(favs: seq<Favorite>, userId: int, list: seq<string>)
    ensures NoDuplicates(favs) ==> NoDuplicates(AddFavorites(favs, userId, list))
  {
    if NoDuplicates(favs) {
      AddFavoritesFirstSingle(favs, userId, list, |list|);
    }
  }

  /** Running the favourites loop on a list whose pairs are all stored changes nothing. */
  lemma {:induction false} AddFavoritesFirstPresent(favs: seq<Favorite>, userId: int, list: seq<string>, n: nat)
    requires n <= |list|
    requires forall j :: 0 <= j < n ==> Favorite(userId, list[j]) in favs
    ensures AddFavoritesFirst(favs, userId, list, n) == favs
  {
    if n > 0 {
      AddFavoritesFirstPresent(favs, userId, list, n - 1);
    }
  }

  /** Migrating the same favourites a second time (a second login with the same list) adds
      nothing. */
  lemma AddFavoritesIdempotent(favs: seq<Favorite>, userId: int, list: seq<string>)
    ensures AddFavorites(AddFavorites(favs, userId, list), userId, list) == AddFavorites(favs, userId, list)
  {
    var r := AddFavorites(favs, userId, list);
    AddFavoritesFirstContents(favs, userId, list, |list|);
    assert forall j :: 0 <= j < |list| ==> Favorite(userId, list[j]) in r;
    AddFavoritesFirstPresent(r, userId, list, |list|);
  }

  // ---- which list is migrated ----

  /** The list a migration block works on: the one of the request body when the body carries an
      array (even an empty one), else the session's list when it is non-empty, else none. */
  function Chosen<T>(client: Option<seq<T>>, session: seq<T>): Option<seq<T>> {
    if client.Some? then client else if |session| > 0 then Some(session) else None
  }

  /** The session list after the migration block: emptied unless the request body carried the
      list. */
  function SessionAfter<T>(client: Option<seq<T>>, session: seq<T>): seq<T> {
    if client.Some? then session else []
  }

  function MigratedFavorites(favs: seq<Favorite>, userId: int, client: Option<seq<string>>, session: seq<string>): seq<Favorite> {
    match Chosen(client, session)
    case None => favs
    case Some(list) => AddFavorites(favs, userId, list)
  }

  /** The body's list takes precedence: with a list in the body the session's favourites are
      neither read nor cleared, and the session's are migrated only without one. */
  lemma ClientListFirst(favs: seq<Favorite>, userId: int, client: Option<seq<string>>, session: seq<string>)
    ensures client.Some? ==>
      MigratedFavorites(favs, userId, client, session) == AddFavorites(favs, userId, client.value) &&
      SessionAfter(client, session) == session
    ensures client.None? ==>
      MigratedFavorites(favs, userId, client, session) == AddFavorites(favs, userId, session) &&
      SessionAfter(client, session) == []
  {
    if client.None? && session == [] {
      assert AddFavorites(favs, userId, session) == favs;
    }
  }

  // ---- cart lines ----

  /** The cart migration: the user's cart is looked up or created (without a `lastUpdated`
      bump) and one line per listed entry is inserted into it, verbatim. */
  function MigrateCart(t: CartTables, userId: int, list: seq<CartEntry>, now: int): CartTables {
    var (t1, cartId) := OpenCart(t, userId, now, false);
    t1.(items := t1.items + LinesFor(cartId, t1.nextItemId, list), nextItemId := t1.nextItemId + |list|)
  }

  function MigratedTables(t: CartTables, userId: int, client: Option<seq<CartEntry>>, session: seq<CartEntry>, now: int): CartTables {
    match Chosen(client, session)
    case None => t
    case Some(list) => MigrateCart(t, userId, list, now)
  }

  /** The migration reuses the user's cart or creates exactly one, appends one line per entry
      to it with no merge and no stock check, and keeps the keys. */
  lemma MigrateCartShape(t: CartTables, userId: int, list: seq<CartEntry>, now: int)
    requires CartKeys(t)
    ensures var t' := MigrateCart(t, userId, list, now);
      && CartKeys(t')
      && ActiveCart(t'.orders, userId).Some?
      && t'.items == t.items + LinesFor(t'.orders[ActiveCart(t'.orders, userId).value].orderId, t.nextItemId, list)
      && CartCount(t'.orders, userId) == (if CartCount(t.orders, userId) == 0 then 1 else CartCount(t.orders, userId))
      && (ActiveCart(t.orders, userId).Some? ==> t'.orders == t.orders)
  {
    var (t1, cartId) := OpenCart(t, userId, now, false);
    OpenCartFinds(t, userId, now, false);
    OpenCartBelowNext(t, userId, now, false);
    LinesForKeys(t1.items, t1.nextItemId, t1.nextOrderId, cartId, list);
  }

  /** The user's cart holds `|list|` more lines after the migration. */
  lemma MigrateCartCount(t: CartTables, userId: int, list: seq<CartEntry>, now: int)
    requires CartKeys(t)
    ensures var t' := MigrateCart(t, userId, list, now);
      CartLineCount(t'.orders, t'.items, userId) == CartLineCount(t.orders, t.items, userId) + |list|
  {
    var (t1, cartId) := OpenCart(t, userId, now, false);
    OpenCartLineCount(t, userId, now, false);
    var ids := CartIds(t1.orders, userId);
    var lines := LinesFor(cartId, t1.nextItemId, list);
    LinesInConcat(t1.items, lines, ids);
    LinesInAll(lines, ids);
  }

  // ---- the handlers ----

  /** The favourites loop: for each listed article the pair is looked up and inserted when
      absent. */
  method InsertFavorites(db: Db, userId: int, list: seq<string>)
    requires db.Valid()
    modifies db`favorites
    ensures db.Valid()
    ensures db.favorites == AddFavorites(old(db.favorites), userId, list)
  {
    ghost var favs0 := db.favorites;
    var i := 0;
    while i < |list|
      invariant i <= |list|
      invariant db.favorites == AddFavoritesFirst(favs0, userId, list, i)
      invariant db.Valid()
    {
      var f := Favorite(userId, list[i]);
      NoDuplicatesSnoc(db.favorites, f);
      if f !in db.favorites {
        db.favorites := db.favorites + [f];
      }
      i := i + 1;
    }
  }

  /** The cart loop: one line per entry, with consecutive fresh ids, in the order `cartId`. */
  method InsertLines(db: Db, cartId: int, list: seq<CartEntry>)
    requires db.Valid() && cartId < db.nextOrderId
    modifies db`items, db`nextItemId
    ensures db.Valid()
    ensures db.items == old(db.items) + LinesFor(cartId, old(db.nextItemId), list)
    ensures db.nextItemId == old(db.nextItemId) + |list|
  {
    ghost var items0, next0 := db.items, db.nextItemId;
    ghost var lines: seq<ItemRow> := [];
    var i := 0;
    while i < |list|
      invariant i <= |list|
      invariant LinesSoFar(lines, cartId, next0, list, i)
      invariant db.items == items0 + lines
      invariant db.nextItemId == next0 + i
    {
      var e := list[i];
      var line := ItemRow(db.nextItemId, cartId, e.articleNumber, e.size, e.quantity);
      LinesSoFarNext(lines, cartId, next0, list, i);
      db.items := db.items + [line];
      lines := lines + [line];
      db.nextItemId := db.nextItemId + 1;
      i := i + 1;
    }
    LinesSoFarAll(lines, cartId, next0, list);
    LinesForKeys(items0, next0, db.nextOrderId, cartId, list);
  }

  /** The favourites block of the transaction. */
  method MigrateFavorites(db: Db, session: Session, userId: int, client: Option<seq<string>>)
    requires db.Valid()
    modifies db`favorites, session`favorites
    ensures db.Valid()
    ensures db.favorites == MigratedFavorites(old(db.favorites), userId, client, old(session.favorites))
    ensures session.favorites == SessionAfter(client, old(session.favorites))
  {
    var list := Chosen(client, session.favorites);
    if list.Some? {
      InsertFavorites(db, userId, list.value);
      if client.None? {
        session.favorites := [];
      }
    }
  }

  /** The cart block of the transaction. */
  method MigrateCartLines(db: Db, session: Session, userId: int, client: Option<seq<CartEntry>>, now: int)
    requires db.Valid()
    modifies db`orders, db`nextOrderId, db`items, db`nextItemId, session`cart
    ensures db.Valid()
    ensures TablesOf(db) == MigratedTables(old(TablesOf(db)), userId, client, old(session.cart), now)
    ensures session.cart == SessionAfter(client, old(session.cart))
  {
    var list := Chosen(client, session.cart);
    if list.Some? {
      ghost var t0 := TablesOf(db);
      var cartId := GetOrCreateCart(db, userId, now, false);
      OpenCartBelowNext(t0, userId, now, false);
      InsertLines(db, cartId, list.value);
      if client.None? {
        session.cart := [];
      }
    }
  }

  /** The transaction both routes run once the account is known: the favourites block, then
      the cart block. */
  method Migrate(db: Db, session: Session, userId: int, cart: Option<seq<CartEntry>>,
                 favorites: Option<seq<string>>, now: int)
    requires db.Valid()
    modifies db`favorites, db`orders, db`nextOrderId, db`items, db`nextItemId, session`cart, session`favorites
    ensures db.Valid()
    ensures db.favorites == MigratedFavorites(old(db.favorites), userId, favorites, old(session.favorites))
    ensures TablesOf(db) == MigratedTables(old(TablesOf(db)), userId, cart, old(session.cart), now)
    ensures session.favorites == SessionAfter(favorites, old(session.favorites))
    ensures session.cart == SessionAfter(cart, old(session.cart))
  {
    MigrateFavorites(db, session, userId, favorites);
    MigrateCartLines(db, session, userId, cart, now);
  }

  /** The lookup and the `users` insert of the register route. */
  method CreateAccount(db: Db, email: string) returns (r: Result<UserRow>)
    requires db.Valid()
    modifies db`users, db`nextUserId
    ensures db.Valid()
    ensures r == NewAccount(old(db.users), old(db.nextUserId), email)
    ensures r.Fail? ==> unchanged(db)
    ensures r.Ok? ==> db.users == old(db.users) + [r.value] && db.nextUserId == old(db.nextUserId) + 1
  {
    r := NewAccount(db.users, db.nextUserId, email);
    if r.Ok? {
      InsertUser(db, r.value);
    }
  }

  /** `insert into users ... returning`: the row takes the next serial id. */
  method InsertUser(db: Db, u: UserRow)
    requires db.Valid() && u.userId == db.nextUserId
    modifies db`users, db`nextUserId
    ensures db.Valid()
    ensures db.users == old(db.users) + [u] && db.nextUserId == old(db.nextUserId) + 1
  {
    db.users := db.users + [u];
    db.nextUserId := db.nextUserId + 1;
  }

  /** `POST /register`: 400 without an address or a password, 409 when the normalised address
      is taken; then the customer account is inserted and the guest's favourites and cart
      migrate into it. Answers the new account. */
  method Register(db: Db, session: Session, email: Option<string>, password: Option<string>,
                  cart: Option<seq<CartEntry>>, favorites: Option<seq<string>>, now: int) returns (r: Result<UserRow>)
    requires db.Valid()
    modifies db`users, db`nextUserId, db`favorites, db`orders, db`nextOrderId, db`items, db`nextItemId
    modifies session`cart, session`favorites
    ensures db.Valid()
    ensures !(Present(email) && Present(password)) ==> r == Fail(BadRequest)
    ensures Present(email) && Present(password) ==> r == NewAccount(old(db.users), old(db.nextUserId), email.value)
    ensures r.Fail? ==> unchanged(db, session)
    ensures r.Ok? ==>
      && db.users == old(db.users) + [r.value] && db.nextUserId == old(db.nextUserId) + 1
      && db.favorites == MigratedFavorites(old(db.favorites), r.value.userId, favorites, old(session.favorites))
      && TablesOf(db) == MigratedTables(old(TablesOf(db)), r.value.userId, cart, old(session.cart), now)
      && session.favorites == SessionAfter(favorites, old(session.favorites))
      && session.cart == SessionAfter(cart, old(session.cart))
  {
    if !(Present(email) && Present(password)) {
      return Fail(BadRequest);
    }
    r := CreateAccount(db, email.value);
    if r.Ok? {
      Migrate(db, session, r.value.userId, cart, favorites, now);
    }
  }

  /** `POST /login`: 400 without an address or a password, 404 when no account holds the
      normalised address, 401 when the password does not match (`passwordMatches` is the
      outcome of the hash comparison); then the guest's favourites and cart migrate into the
      account. Answers the account's id, which the token carries. */
  method Login(db: Db, session: Session, email: Option<string>, password: Option<string>, passwordMatches: bool,
               cart: Option<seq<CartEntry>>, favorites: Option<seq<string>>, now: int) returns (r: Result<int>)
    requires db.Valid()
    modifies db`favorites, db`orders, db`nextOrderId, db`items, db`nextItemId, session`cart, session`favorites
    ensures db.Valid()
    ensures !(Present(email) && Present(password)) ==> r == Fail(BadRequest) && unchanged(db, session)
    ensures Present(email) && Present(password) ==>
      match UserByEmail(db.users, NormalizeEmail(email.value))
      case None => r == Fail(NotFound) && unchanged(db, session)
      case Some(k) =>
        if !passwordMatches then r == Fail(Unauthorized) && unchanged(db, session)
        else
          var userId := db.users[k].userId;
          && r == Ok(userId)
          && db.favorites == MigratedFavorites(old(db.favorites), userId, favorites, old(session.favorites))
          && TablesOf(db) == MigratedTables(old(TablesOf(db)), userId, cart, old(session.cart), now)
          && session.favorites == SessionAfter(favorites, old(session.favorites))
          && session.cart == SessionAfter(cart, old(session.cart))
  {
    if !(Present(email) && Present(password)) {
      return Fail(BadRequest);
    }
    var k := UserByEmail(db.users, NormalizeEmail(email.value));
    if k.None? {
      return Fail(NotFound);
    }
    if !passwordMatches {
      return Fail(Unauthorized);
    }
    var userId := db.users[k.value].userId;
    Migrate(db, session, userId, cart, favorites, now);
    r := Ok(userId);
  }
}
