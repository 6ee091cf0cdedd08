/** `routes/favorites.js`: the signed-in user's favourite articles, added with a duplicate
    check, removed, counted and listed. */
module Favorites {
  import opened Tables
  import opened Database

  /** `select articleNumber from favorites where userId = u`, in table order. */
  function FavoritesOf(favs: seq<Favorite>, userId: int): (r: seq<string>)
    ensures forall a :: a in r <==> Favorite(userId, a) in favs
    ensures |r| <= |favs|
  {
    if favs == [] then []
    else (if favs[0].userId == userId then [favs[0].articleNumber] else []) + FavoritesOf(favs[1..], userId)
  }

  /** `select count(*) from favorites where userId = u` */
  function FavoriteCount(favs: seq<Favorite>, userId: int): nat {
    |FavoritesOf(favs, userId)|
  }

  /** `delete from favorites where userId = f.userId and articleNumber = f.articleNumber` */
  function DropFavorite(favs: seq<Favorite>, f: Favorite): (r: seq<Favorite>)
    ensures forall g :: g in r <==> g in favs && g != f
    ensures |r| <= |favs|
  {
    if favs == [] then []
    else (if favs[0] != f then [favs[0]] else []) + DropFavorite(favs[1..], f)
  }

  lemma {:induction false} FavoritesOfAppend(favs: seq<Favorite>, f: Favorite, userId: int)
    ensures FavoritesOf(favs + [f], userId) ==
      FavoritesOf(favs, userId) + (if f.userId == userId then [f.articleNumber] else [])
  {
    if favs == [] {
      assert favs + [f] == [f];
    } else {
      assert (favs + [f])[1..] == favs[1..] + [f];
      FavoritesOfAppend(favs[1..], f, userId);
    }
  }

  /** An insert adds one to the count of its user and leaves every other user's count. */
  lemma AddedCount(favs: seq<Favorite>, f: Favorite, userId: int)
    ensures FavoriteCount(favs + [f], userId) == FavoriteCount(favs, userId) + (if f.userId == userId then 1 else 0)
  {
    FavoritesOfAppend(favs, f, userId);
  }

  /** Removing a stored pair from a table without repeats takes one from the count of its
      user and leaves every other user's count. */
  lemma {:induction false} DroppedCount(favs: seq<Favorite>, f: Favorite, userId: int)
    requires NoDuplicates(favs) && f in favs
    ensures FavoriteCount(DropFavorite(favs, f), userId) == FavoriteCount(favs, userId) - (if f.userId == userId then 1 else 0)
  {
    var rest := favs[1..];
    assert NoDuplicates(rest) by {
      forall i, j | 0 <= i < j < |rest| ensures rest[i] != rest[j] {
        assert rest[i] == favs[i + 1] && rest[j] == favs[j + 1];
      }
    }
    if favs[0] == f {
      assert f !in rest;
      DropAbsent(rest, f);
      assert DropFavorite(favs, f) == rest;
      assert FavoritesOf(favs, userId) == (if f.userId == userId then [f.articleNumber] else []) + FavoritesOf(rest, userId);
    } else {
      DroppedCount(rest, f, userId);
    }
  }

  lemma {:induction false} DropAbsent(favs: seq<Favorite>, f: Favorite)
    requires f !in favs
    ensures DropFavorite(favs, f) == favs
  {
    if favs != [] {
      DropAbsent(favs[1..], f);
    }
  }

  /** Removing keeps the table free of repeats. */
  lemma {:induction false} DropKeepsSingle(favs: seq<Favorite>, f: Favorite)
    requires NoDuplicates(favs)
    ensures NoDuplicates(DropFavorite(favs, f))
  {
    if favs != [] {
      var rest := favs[1..];
      assert NoDuplicates(rest) by {
        forall i, j | 0 <= i < j < |rest| ensures rest[i] != rest[j] {
          assert rest[i] == favs[i + 1] && rest[j] == favs[j + 1];
        }
      }
      DropKeepsSingle(rest, f);
      var tail := DropFavorite(rest, f);
      if favs[0] != f {
        assert favs[0] !in tail;
        var r := [favs[0]] + tail;
        forall i, j | 0 <= i < j < |r| ensures r[i] != r[j] {
          assert r[j] == tail[j - 1];
          if i > 0 {
            assert r[i] == tail[i - 1];
          }
        }
      }
    }
  }

  /** Adding a new favourite and then removing it gives the table back. */
  lemma AddThenRemove(favs: seq<Favorite>, f: Favorite)
    requires f !in favs
    ensures DropFavorite(favs + [f], f) == favs
  {
    DropAppend(favs, f);
    DropAbsent(favs, f);
  }

  lemma {:induction false} DropAppend(favs: seq<Favorite>, f: Favorite)
    ensures DropFavorite(favs + [f], f) == DropFavorite(favs, f)
  {
    if favs == [] {
      assert favs + [f] == [f];
    } else {
      assert (favs + [f])[1..] == favs[1..] + [f];
      DropAppend(favs[1..], f);
    }
  }

  /** `POST /favorites`: 400 without an article number and 400 when the pair is already stored;
      then the pair is inserted and answered with the user's new count. */
  method AddFavorite(db: Db, userId: int, articleNumber: Option<string>) returns (r: Result<(Favorite, nat)>)
    requires db.Valid()
    modifies db`favorites
    ensures db.Valid()
    ensures r.Fail? ==> r == Fail(BadRequest) && unchanged(db)
    ensures r.Fail? <==> !Present(articleNumber) || Favorite(userId, articleNumber.value) in old(db.favorites)
    ensures r.Ok? ==>
      && r.value.0 == Favorite(userId, articleNumber.value)
      && db.favorites == old(db.favorites) + [r.value.0]
      && r.value.1 == FavoriteCount(db.favorites, userId)
  {
    if !Present(articleNumber) {
      return Fail(BadRequest);
    }
    var f := Favorite(userId, articleNumber.value);
    if f in db.favorites {
      return Fail(BadRequest);
    }
    db.favorites := db.favorites + [f];
    r := Ok((f, FavoriteCount(db.favorites, userId)));
  }

  /** `DELETE /favorites/:articleNumber`: 404 when the pair is not stored; then it is deleted
      and the user's new count answered. */
  method RemoveFavorite(db: Db, userId: int, articleNumber: string) returns (r: Result<nat>)
    requires db.Valid()
    modifies db`favorites
    ensures db.Valid()
    ensures r.Fail? <==> Favorite(userId, articleNumber) !in old(db.favorites)
    ensures r.Fail? ==> r == Fail(NotFound) && unchanged(db)
    ensures r.Ok? ==>
      && db.favorites == DropFavorite(old(db.favorites), Favorite(userId, articleNumber))
      && r.value == FavoriteCount(db.favorites, userId)
  {
    var f := Favorite(userId, articleNumber);
    if f !in db.favorites {
      return Fail(NotFound);
    }
    DropKeepsSingle(db.favorites, f);
    db.favorites := DropFavorite(db.favorites, f);
    r := Ok(FavoriteCount(db.favorites, userId));
  }

  /** The counts the two write routes answer: one more, respectively one less, than before;
      nobody else's count moves. */
  lemma RouteCounts(favs: seq<Favorite>, userId: int, a: string, other: int)
    requires NoDuplicates(favs) && other != userId
    ensures Favorite(userId, a) !in favs ==>
      && FavoriteCount(favs + [Favorite(userId, a)], userId) == FavoriteCount(favs, userId) + 1
      && FavoriteCount(favs + [Favorite(userId, a)], other) == FavoriteCount(favs, other)
    ensures Favorite(userId, a) in favs ==>
      && FavoriteCount(DropFavorite(favs, Favorite(userId, a)), userId) == FavoriteCount(favs, userId) - 1
      && FavoriteCount(DropFavorite(favs, Favorite(userId, a)), other) == FavoriteCount(favs, other)
  {
    var f := Favorite(userId, a);
    AddedCount(favs, f, userId);
    AddedCount(favs, f, other);
    if f in favs {
      DroppedCount(favs, f, userId);
      DroppedCount(favs, f, other);
    }
  }
}
