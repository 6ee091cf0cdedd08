/** The shop's database as the route handlers see it, and the guest's HTTP session. */
module Database {
  import opened Tables

  /** The tables the routes read and write. Ids of the serial columns are drawn from the
      `next...` counters, which play the part of the database sequences. */
  class Db {
    var sizes: seq<SizeRow>                         // productSizes
    var orders: seq<OrderRow>
    var nextOrderId: int
    var items: seq<ItemRow>                         // orderItems
    var nextItemId: int
    var favorites: seq<Favorite>
    var users: seq<UserRow>
    var nextUserId: int
    var reviews: seq<ReviewRow>
    var nextReviewId: int
    var products: seq<ProductRow>
    var productCategories: seq<ProductCategoryRow>
    var brands: seq<BrandRow>
    var nextBrandId: int
    var categories: seq<CategoryRow>
    var nextCategoryId: int

    /** The keys the routes keep: distinct order ids, lines referring to allocated orders,
        no favourite stored twice, at most one review per user and article. */
    ghost predicate Valid()
      reads this
    {
      && OrderKeys(orders, nextOrderId)
      && ItemKeys(items, nextItemId, nextOrderId)
      && NoDuplicates(favorites)
      && OneReviewEach(reviews)
      && (forall i :: 0 <= i < |reviews| ==> reviews[i].reviewId < nextReviewId)
      && (forall i :: 0 <= i < |users| ==> users[i].userId < nextUserId)
    }

    /** An empty database. */
    constructor ()
      ensures Valid()
      ensures sizes == [] && orders == [] && items == [] && favorites == [] && users == []
      ensures reviews == [] && products == [] && productCategories == [] && brands == [] && categories == []
    {
      sizes, orders, nextOrderId, items, nextItemId := [], [], 1, [], 1;
      favorites, users, nextUserId, reviews, nextReviewId := [], [], 1, [], 1;
      products, productCategories := [], [];
      brands, nextBrandId, categories, nextCategoryId := [], 1, [], 1;
    }
  }

  /** At most one review for each (user, article) pair. */
  ghost predicate OneReviewEach(reviews: seq<ReviewRow>) {
    forall i, j :: 0 <= i < j < |reviews| ==>
      !(reviews[i].userId == reviews[j].userId && reviews[i].articleNumber == reviews[j].articleNumber)
  }

  /** `req.session`: the guest's cart and favourite article numbers. An absent list is the
      empty list; the routes treat them alike. */
  class Session {
    var cart: seq<CartEntry>
    var favorites: seq<string>

    constructor ()
      ensures cart == [] && favorites == []
    {
      cart, favorites := [], [];
    }
  }
}
