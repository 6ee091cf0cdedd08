/** `routes/products.js`: the catalogue routes. Products are listed with their size rows
    (all, active only, inactive only), shown one at a time when active, created with their
    category link and sizes, edited with a replacement of their sizes and images, and switched
    on and off. */
module Products {
  import opened Tables
  import opened Database

  // ---- size rows ----

  /** One element of a `sizes` list sent by the client: `{ size, stock }`. */
  datatype SizeEntry = SizeEntry(size: Option<string>, stock: Option<int>)

  /** `size && stock != null`: the entries that become rows; a stock of 0 is kept. */
  predicate Inserted(e: SizeEntry) {
    Present(e.size) && e.stock.Some?
  }

  function SizeRowOf(a: string, e: SizeEntry): SizeRow
    requires Inserted(e)
  {
    SizeRow(a, e.size.value, e.stock.value)
  }

  /** The rows the insert loop has written after the first `n` entries. */
  function KeptFirst(a: string, entries: seq<SizeEntry>, n: nat): seq<SizeRow>
    requires n <= |entries|
  {
    if n == 0 then []
    else KeptFirst(a, entries, n - 1) + (if Inserted(entries[n - 1]) then [SizeRowOf(a, entries[n - 1])] else [])
  }

  /** The rows the insert loop writes for a whole list. */
  function KeptSizes(a: string, entries: seq<SizeEntry>): seq<SizeRow> {
    KeptFirst(a, entries, |entries|)
  }

  /** The loop writes exactly the complete entries, in order, all under the product's article. */
  lemma {:induction false} KeptFirstRows(a: string, entries: seq<SizeEntry>, n: nat)
    requires n <= |entries|
    ensures |KeptFirst(a, entries, n)| <= n
    ensures forall x :: x in KeptFirst(a, entries, n) ==> x.articleNumber == a
    ensures forall x :: x in KeptFirst(a, entries, n) <==>
      exists j :: 0 <= j < n && Inserted(entries[j]) && x == SizeRowOf(a, entries[j])
  {
    if n > 0 {
      KeptFirstRows(a, entries, n - 1);
      var last := if Inserted(entries[n - 1]) then [SizeRowOf(a, entries[n - 1])] else [];
      assert KeptFirst(a, entries, n) == KeptFirst(a, entries, n - 1) + last;
      forall x | x in KeptFirst(a, entries, n)
        ensures exists j :: 0 <= j < n && Inserted(entries[j]) && x == SizeRowOf(a, entries[j])
      {
        if x !in KeptFirst(a, entries, n - 1) {
          assert x in last;
        }
      }
    }
  }

  /** `select ... from productSizes where articleNumber = a`, in table order. */
  function SizesOf(sizes: seq<SizeRow>, a: string): (r: seq<SizeRow>)
    ensures forall x :: x in r <==> x in sizes && x.articleNumber == a
    ensures |r| <= |sizes|
  {
    if sizes == [] then []
    else (if sizes[0].articleNumber == a then [sizes[0]] else []) + SizesOf(sizes[1..], a)
  }

  /** `delete from productSizes where articleNumber = a` */
  function DropSizes(sizes: seq<SizeRow>, a: string): (r: seq<SizeRow>)
    ensures forall x :: x in r <==> x in sizes && x.articleNumber != a
    ensures |r| <= |sizes|
  {
    if sizes == [] then []
    else (if sizes[0].articleNumber != a then [sizes[0]] else []) + DropSizes(sizes[1..], a)
  }

  /** The size table after an edit that sent a list: the article's rows deleted, the complete
      entries of the list inserted. */
  function ReplaceSizes(sizes: seq<SizeRow>, a: string, entries: seq<SizeEntry>): seq<SizeRow> {
    DropSizes(sizes, a) + KeptSizes(a, entries)
  }

  lemma {:induction false} SizesOfConcat(x: seq<SizeRow>, y: seq<SizeRow>, a: string)
    ensures SizesOf(x + y, a) == SizesOf(x, a) + SizesOf(y, a)
  {
    if x == [] {
      assert x + y == y;
    } else {
      assert (x + y)[1..] == x[1..] + y;
      SizesOfConcat(x[1..], y, a);
    }
  }

  lemma {:induction false} DropSizesConcat(x: seq<SizeRow>, y: seq<SizeRow>, a: string)
    ensures DropSizes(x + y, a) == DropSizes(x, a) + DropSizes(y, a)
  {
    if x == [] {
      assert x + y == y;
    } else {
      assert (x + y)[1..] == x[1..] + y;
      DropSizesConcat(x[1..], y, a);
    }
  }

  /** Filtering a table that holds only one article's rows. */
  lemma {:induction false} SizesOfUniform(rows: seq<SizeRow>, a: string, b: string)
    requires forall x :: x in rows ==> x.articleNumber == a
    ensures SizesOf(rows, a) == rows
    ensures DropSizes(rows, a) == []
    ensures b != a ==> SizesOf(rows, b) == [] && DropSizes(rows, b) == rows
  {
    if rows != [] {
      assert rows[0] in rows;
      SizesOfUniform(rows[1..], a, b);
    }
  }

  /** Filtering a table that holds no row of an article. */
  lemma {:induction false} SizesOfAbsent(rows: seq<SizeRow>, a: string)
    requires forall x :: x in rows ==> x.articleNumber != a
    ensures SizesOf(rows, a) == []
    ensures DropSizes(rows, a) == rows
  {
    if rows != [] {
      assert rows[0] in rows;
      SizesOfAbsent(rows[1..], a);
    }
  }

  lemma {:induction false} DropSizesOther(sizes: seq<SizeRow>, a: string, b: string)
    requires a != b
    ensures SizesOf(DropSizes(sizes, a), b) == SizesOf(sizes, b)
  {
    if sizes != [] {
      var head := if sizes[0].articleNumber != a then [sizes[0]] else [];
      var rest := DropSizes(sizes[1..], a);
      assert DropSizes(sizes, a) == head + rest;
      SizesOfConcat(head, rest, b);
      DropSizesOther(sizes[1..], a, b);
      assert sizes == [sizes[0]] + sizes[1..];
      SizesOfConcat([sizes[0]], sizes[1..], b);
    }
  }

  lemma ReplaceSizesOwn(sizes: seq<SizeRow>, a: string, entries: seq<SizeEntry>)
    ensures SizesOf(ReplaceSizes(sizes, a, entries), a) == KeptSizes(a, entries)
  {
    var dropped := DropSizes(sizes, a);
    var kept := KeptSizes(a, entries);
    KeptFirstRows(a, entries, |entries|);
    SizesOfConcat(dropped, kept, a);
    SizesOfUniform(kept, a, a);
    SizesOfAbsent(dropped, a);
  }

  lemma ReplaceSizesOther(sizes: seq<SizeRow>, a: string, entries: seq<SizeEntry>, b: string)
    requires b != a
    ensures SizesOf(ReplaceSizes(sizes, a, entries), b) == SizesOf(sizes, b)
  {
    var dropped := DropSizes(sizes, a);
    var kept := KeptSizes(a, entries);
    KeptFirstRows(a, entries, |entries|);
    SizesOfConcat(dropped, kept, b);
    SizesOfUniform(kept, a, b);
    DropSizesOther(sizes, a, b);
  }

  lemma ReplaceSizesTwice(sizes: seq<SizeRow>, a: string, entries: seq<SizeEntry>)
    ensures ReplaceSizes(ReplaceSizes(sizes, a, entries), a, entries) == ReplaceSizes(sizes, a, entries)
  {
    var dropped := DropSizes(sizes, a);
    var kept := KeptSizes(a, entries);
    assert ReplaceSizes(sizes, a, entries) == dropped + kept;
    KeptFirstRows(a, entries, |entries|);
    SizesOfUniform(kept, a, a);
    assert DropSizes(kept, a) == [];
    SizesOfAbsent(dropped, a);
    assert DropSizes(dropped, a) == dropped;
    DropSizesConcat(dropped, kept, a);
    assert DropSizes(dropped + kept, a) == dropped + [];
    assert dropped + [] == dropped;
  }

  /** After a replacement the article's sizes are exactly the complete entries of the list,
      every other article keeps its rows, and repeating the same edit changes nothing more. */
  lemma ReplaceSizesShape(sizes: seq<SizeRow>, a: string, entries: seq<SizeEntry>, b: string)
    ensures SizesOf(ReplaceSizes(sizes, a, entries), a) == KeptSizes(a, entries)
    ensures b != a ==> SizesOf(ReplaceSizes(sizes, a, entries), b) == SizesOf(sizes, b)
    ensures ReplaceSizes(ReplaceSizes(sizes, a, entries), a, entries) == ReplaceSizes(sizes, a, entries)
  {
    ReplaceSizesOwn(sizes, a, entries);
    if b != a {
      ReplaceSizesOther(sizes, a, entries, b);
    }
    ReplaceSizesTwice(sizes, a, entries);
  }

  /** An edit that sends an empty list leaves the article without sizes. */
  lemma EmptyListClears(sizes: seq<SizeRow>, a: string)
    ensures SizesOf(ReplaceSizes(sizes, a, []), a) == []
  {
    ReplaceSizesOwn(sizes, a, []);
  }

  /** The insert loop of the create and edit routes. */
  method InsertSizes(db: Db, a: string, entries: seq<SizeEntry>)
    modifies db`sizes
    ensures db.sizes == old(db.sizes) + KeptSizes(a, entries)
  {
    ghost var start := db.sizes;
    var i := 0;
    while i < |entries|
      invariant 0 <= i <= |entries|
      invariant db.sizes == start + KeptFirst(a, entries, i)
    {
      var e := entries[i];
      if e.size.Some? && e.size.value != "" && e.stock.Some? {
        db.sizes := db.sizes + [SizeRow(a, e.size.value, e.stock.value)];
      }
      i := i + 1;
    }
  }

  // ---- images ----

  /** `oldProduct.imageUrls.filter(url => !finalImageUrls.includes(url))`: the files an edit
      deletes from storage. */
  function ImagesToDelete(oldUrls: seq<string>, finalUrls: seq<string>): (r: seq<string>)
    ensures forall u :: u in r <==> u in oldUrls && u !in finalUrls
    ensures |r| <= |oldUrls|
  {
    if oldUrls == [] then []
    else (if oldUrls[0] !in finalUrls then [oldUrls[0]] else []) + ImagesToDelete(oldUrls[1..], finalUrls)
  }

  /** Keeping every old image deletes none of them, and keeping none deletes all of them. */
  lemma {:induction false} ImagesToDeleteBounds(oldUrls: seq<string>, uploaded: seq<string>)
    ensures ImagesToDelete(oldUrls, oldUrls + uploaded) == []
    ensures ImagesToDelete(oldUrls, []) == oldUrls
  {
    ImagesToDeleteKept(oldUrls, oldUrls + uploaded);
    ImagesToDeleteNone(oldUrls);
  }

  lemma {:induction false} ImagesToDeleteKept(oldUrls: seq<string>, finalUrls: seq<string>)
    requires forall u :: u in oldUrls ==> u in finalUrls
    ensures ImagesToDelete(oldUrls, finalUrls) == []
  {
    if oldUrls != [] {
      assert oldUrls[0] in oldUrls;
      ImagesToDeleteKept(oldUrls[1..], finalUrls);
    }
  }

  lemma {:induction false} ImagesToDeleteNone(oldUrls: seq<string>)
    ensures ImagesToDelete(oldUrls, []) == oldUrls
  {
    if oldUrls != [] {
      ImagesToDeleteNone(oldUrls[1..]);
    }
  }

  // ---- listings ----

  /** A product as the listing and detail routes answer it: the row and its size rows. */
  datatype Listed = Listed(product: ProductRow, sizes: seq<SizeRow>)

  /** The three listing routes: `/products`, `/products/active`, `/products/inactive`. */
  datatype Shelf = Everything | ActiveOnly | InactiveOnly

  predicate OnShelf(shelf: Shelf, p: ProductRow) {
    match shelf
    case Everything => true
    case ActiveOnly => p.isActive
    case InactiveOnly => !p.isActive
  }

  /** The listing query's `where` clause, in table order. */
  function Shown(products: seq<ProductRow>, shelf: Shelf): (r: seq<ProductRow>)
    ensures forall p :: p in r <==> p in products && OnShelf(shelf, p)
    ensures |r| <= |products|
  {
    if products == [] then []
    else (if OnShelf(shelf, products[0]) then [products[0]] else []) + Shown(products[1..], shelf)
  }

  /** `where inArray(productSizes.articleNumber, articleNumbers)` */
  function SizesIn(sizes: seq<SizeRow>, articles: seq<string>): (r: seq<SizeRow>)
    ensures forall x :: x in r <==> x in sizes && x.articleNumber in articles
  {
    if sizes == [] then []
    else (if sizes[0].articleNumber in articles then [sizes[0]] else []) + SizesIn(sizes[1..], articles)
  }

  function Articles(products: seq<ProductRow>): (r: seq<string>)
    ensures |r| == |products|
    ensures forall i :: 0 <= i < |r| ==> r[i] == products[i].articleNumber
  {
    seq(|products|, i requires 0 <= i < |products| => products[i].articleNumber)
  }

  /** What a listing route answers: the shown products, each with the rows of the size query
      that carry its article number. */
  function Listing(products: seq<ProductRow>, sizes: seq<SizeRow>, shelf: Shelf): seq<Listed> {
    var shown := Shown(products, shelf);
    var articles := Articles(shown);
    var fetched := if |articles| > 0 then SizesIn(sizes, articles) else [];
    seq(|shown|, i requires 0 <= i < |shown| => Listed(shown[i], SizesOf(fetched, shown[i].articleNumber)))
  }

  /** Restricting the size query to the listed articles loses none of a listed product's rows. */
  lemma {:induction false} SizesOfSizesIn(sizes: seq<SizeRow>, articles: seq<string>, a: string)
    requires a in articles
    ensures SizesOf(SizesIn(sizes, articles), a) == SizesOf(sizes, a)
  {
    if sizes != [] {
      var head := if sizes[0].articleNumber in articles then [sizes[0]] else [];
      assert SizesIn(sizes, articles) == head + SizesIn(sizes[1..], articles);
      SizesOfConcat(head, SizesIn(sizes[1..], articles), a);
      SizesOfSizesIn(sizes[1..], articles, a);
      assert sizes == [sizes[0]] + sizes[1..];
      SizesOfConcat([sizes[0]], sizes[1..], a);
    }
  }

  /** A listing holds exactly the products on its shelf, in table order, and each comes with
      all of its size rows. */
  lemma ListingShape(products: seq<ProductRow>, sizes: seq<SizeRow>, shelf: Shelf)
    ensures |Listing(products, sizes, shelf)| == |Shown(products, shelf)|
    ensures forall p :: p in Shown(products, shelf) <==> p in products && OnShelf(shelf, p)
    ensures forall i :: 0 <= i < |Listing(products, sizes, shelf)| ==>
      && Listing(products, sizes, shelf)[i].product == Shown(products, shelf)[i]
      && Listing(products, sizes, shelf)[i].sizes == SizesOf(sizes, Shown(products, shelf)[i].articleNumber)
  {
    var shown := Shown(products, shelf);
    var articles := Articles(shown);
    forall i | 0 <= i < |shown|
      ensures Listing(products, sizes, shelf)[i].sizes == SizesOf(sizes, shown[i].articleNumber)
    {
      assert articles[i] == shown[i].articleNumber;
      SizesOfSizesIn(sizes, articles, shown[i].articleNumber);
    }
  }

  /** The primary key of `products`. */
  ghost predicate DistinctArticles(products: seq<ProductRow>) {
    forall i, j :: 0 <= i < j < |products| ==> products[i].articleNumber != products[j].articleNumber
  }

  // ---- detail ----

  /** `GET /product/:articleNumber`: 404 when there is no such product or it is switched off. */
  function Detail(products: seq<ProductRow>, sizes: seq<SizeRow>, a: string): Result<Listed> {
    match ProductIndex(products, a)
    case None => Fail(NotFound)
    case Some(k) =>
      if !products[k].isActive then Fail(NotFound)
      else Ok(Listed(products[k], SizesOf(sizes, a)))
  }

  lemma ListingAt(products: seq<ProductRow>, sizes: seq<SizeRow>, shelf: Shelf, i: nat)
    requires i < |Shown(products, shelf)|
    ensures |Listing(products, sizes, shelf)| == |Shown(products, shelf)|
    ensures Listing(products, sizes, shelf)[i] ==
      Listed(Shown(products, shelf)[i], SizesOf(sizes, Shown(products, shelf)[i].articleNumber))
  {
    ListingShape(products, sizes, shelf);
  }

  /** A product the detail route shows is in the active listing, with the same sizes. */
  lemma DetailListed(products: seq<ProductRow>, sizes: seq<SizeRow>, a: string)
    ensures Detail(products, sizes, a).Ok? ==> Detail(products, sizes, a).value in Listing(products, sizes, ActiveOnly)
  {
    var d := Detail(products, sizes, a);
    if d.Ok? {
      var p := d.value.product;
      var shown := Shown(products, ActiveOnly);
      assert p in shown;
      var i :| 0 <= i < |shown| && shown[i] == p;
      ListingAt(products, sizes, ActiveOnly, i);
    }
  }

  /** An entry of the active listing is what the detail route shows for its article. */
  lemma ListedDetail(products: seq<ProductRow>, sizes: seq<SizeRow>, l: Listed)
    requires DistinctArticles(products)
    requires l in Listing(products, sizes, ActiveOnly)
    ensures Detail(products, sizes, l.product.articleNumber) == Ok(l)
  {
    var listing := Listing(products, sizes, ActiveOnly);
    var shown := Shown(products, ActiveOnly);
    ListingShape(products, sizes, ActiveOnly);
    var i :| 0 <= i < |listing| && listing[i] == l;
    ListingAt(products, sizes, ActiveOnly, i);
    assert shown[i] in shown;
    var j :| 0 <= j < |products| && products[j] == shown[i];
    var a := l.product.articleNumber;
    var k := ProductIndex(products, a).value;
    assert k == j;
  }

  /** An article in the inactive listing is not found by the detail route. */
  lemma InactiveNotFound(products: seq<ProductRow>, sizes: seq<SizeRow>, p: ProductRow)
    requires DistinctArticles(products)
    requires p in Shown(products, InactiveOnly)
    ensures Detail(products, sizes, p.articleNumber) == Fail(NotFound)
  {
    var j :| 0 <= j < |products| && products[j] == p;
    var k := ProductIndex(products, p.articleNumber).value;
    assert k == j;
  }

  // ---- create ----

  /** The multipart form of `POST /products`. `None` is an absent or empty field; the
      numbers arrive already converted. `sizes` is `None` when the parsed field is not a list,
      and an absent field is the empty list. */
  datatype ProductForm = ProductForm(
    articleNumber: Option<string>, brandId: Option<int>, categoryId: Option<int>,
    price: Option<int>, discount: Option<int>, name: Option<string>,
    description: Option<string>, sizes: Option<seq<SizeEntry>>)

  predicate FormComplete(form: ProductForm) {
    && Present(form.articleNumber) && form.brandId.Some? && form.categoryId.Some?
    && form.price.Some? && Present(form.name) && Present(form.description)
  }

  /** The outcome of `POST /products` for the product table as it stands and the stored
      image URLs of the uploaded files: 400 for a missing field, 400 without files, 409 for a
      taken article number, otherwise the inserted row. */
  function NewProduct(products: seq<ProductRow>, form: ProductForm, images: seq<string>): (r: Result<ProductRow>)
    ensures r.Fail? <==> !FormComplete(form) || images == [] || ProductIndex(products, form.articleNumber.value).Some?
    ensures r.Fail? ==> r.failure == (if FormComplete(form) && images != [] then Conflict else BadRequest)
    ensures r.Ok? ==>
      && ProductIndex(products, r.value.articleNumber).None?
      && r.value == ProductRow(form.articleNumber.value, form.brandId.value, form.price.value,
                               if form.discount.Some? then form.discount.value else 0,
                               form.name.value, form.description.value, images, true)
  {
    if !FormComplete(form) then Fail(BadRequest)
    else if images == [] then Fail(BadRequest)
    else if ProductIndex(products, form.articleNumber.value).Some? then Fail(Conflict)
    else
      Ok(ProductRow(form.articleNumber.value, form.brandId.value, form.price.value,
                    if form.discount.Some? then form.discount.value else 0,
                    form.name.value, form.description.value, images, true))
  }

  /** Appending a product under a new article number keeps the keys distinct, and the
      article is then found at the new row. */
  lemma AppendProduct(products: seq<ProductRow>, p: ProductRow)
    requires DistinctArticles(products)
    requires ProductIndex(products, p.articleNumber).None?
    ensures DistinctArticles(products + [p])
    ensures ProductIndex(products + [p], p.articleNumber) == Some(|products|)
  {
    var ps := products + [p];
    assert ps[|products|] == p;
    assert ProductFrom(ps, p.articleNumber, |products|) == Some(|products|);
    ProductPrefix(products, p, p.articleNumber, 0);
  }

  /** The detail route shows a new product with exactly the complete entries of its list. */
  lemma AppendedDetail(products: seq<ProductRow>, sizes: seq<SizeRow>, p: ProductRow, entries: seq<SizeEntry>)
    requires ProductIndex(products + [p], p.articleNumber) == Some(|products|) && p.isActive
    requires forall x :: x in sizes ==> x.articleNumber != p.articleNumber
    ensures Detail(products + [p], sizes + KeptSizes(p.articleNumber, entries), p.articleNumber)
      == Ok(Listed(p, KeptSizes(p.articleNumber, entries)))
  {
    assert (products + [p])[|products|] == p;
    AppendedSizes(sizes, p.articleNumber, entries);
  }

  lemma AppendedSizes(sizes: seq<SizeRow>, a: string, entries: seq<SizeEntry>)
    requires forall x :: x in sizes ==> x.articleNumber != a
    ensures SizesOf(sizes + KeptSizes(a, entries), a) == KeptSizes(a, entries)
  {
    var kept := KeptSizes(a, entries);
    KeptFirstRows(a, entries, |entries|);
    SizesOfConcat(sizes, kept, a);
    SizesOfUniform(kept, a, a);
    SizesOfAbsent(sizes, a);
    assert SizesOf(sizes + kept, a) == [] + kept;
  }

  /** A created product keeps the article numbers distinct, is active, and the detail route
      then shows it with exactly the complete entries of its size list. */
  lemma NewProductKeys(products: seq<ProductRow>, sizes: seq<SizeRow>, form: ProductForm, images: seq<string>)
    requires DistinctArticles(products)
    requires NewProduct(products, form, images).Ok?
    requires forall x :: x in sizes ==> x.articleNumber != form.articleNumber.value
    ensures var p := NewProduct(products, form, images).value;
      && DistinctArticles(products + [p])
      && Detail(products + [p], sizes + KeptSizes(p.articleNumber, if form.sizes.Some? then form.sizes.value else []), p.articleNumber)
         == Ok(Listed(p, KeptSizes(p.articleNumber, if form.sizes.Some? then form.sizes.value else [])))
  {
    var p := NewProduct(products, form, images).value;
    AppendProduct(products, p);
    AppendedDetail(products, sizes, p, if form.sizes.Some? then form.sizes.value else []);
  }

  lemma {:induction false} ProductPrefix(products: seq<ProductRow>, p: ProductRow, a: string, k: nat)
    requires k <= |products|
    requires forall j :: k <= j < |products| ==> products[j].articleNumber != a
    ensures ProductFrom(products + [p], a, k) == ProductFrom(products + [p], a, |products|)
    decreases |products| - k
  {
    if k < |products| {
      ProductPrefix(products, p, a, k + 1);
    }
  }

  /** `POST /products`: the product row, its category link (whose picture is the first image)
      and its size rows are inserted together. */
  method CreateProduct(db: Db, form: ProductForm, images: seq<string>) returns (r: Result<ProductRow>)
    modifies db`products, db`productCategories, db`sizes
    ensures r == NewProduct(old(db.products), form, images)
    ensures r.Fail? ==> unchanged(db)
    ensures r.Ok? ==>
      && db.products == old(db.products) + [r.value]
      && db.productCategories == old(db.productCategories) +
           [ProductCategoryRow(r.value.articleNumber, form.categoryId.value, Some(images[0]))]
      && db.sizes == old(db.sizes) + KeptSizes(r.value.articleNumber, if form.sizes.Some? then form.sizes.value else [])
  {
    r := NewProduct(db.products, form, images);
    if r.Ok? {
      var a := r.value.articleNumber;
      db.products := db.products + [r.value];
      db.productCategories := db.productCategories + [ProductCategoryRow(a, form.categoryId.value, Some(images[0]))];
      if form.sizes.Some? {
        InsertSizes(db, a, form.sizes.value);
      } else {
        assert KeptSizes(a, []) == [];
      }
    }
  }

  // ---- edit ----

  /** The fields of `PUT /product/:articleNumber`. A number is `None` when `Number()` gives
      `NaN`, which an absent field also does. An absent name or description is `None`. */
  datatype ProductEdit = ProductEdit(brandId: Option<int>, price: Option<int>, discount: Option<int>,
                                     name: Option<string>, description: Option<string>)

  /** The integer columns refuse `NaN`, so the update needs all three numbers. */
  predicate Converted(edit: ProductEdit) {
    edit.brandId.Some? && edit.price.Some? && edit.discount.Some?
  }

  /** The row `set(updatedFields)` leaves: `set` skips an `undefined` name or description. */
  function Edited(p: ProductRow, edit: ProductEdit, images: seq<string>): ProductRow
    requires Converted(edit)
  {
    p.(brandId := edit.brandId.value, price := edit.price.value, discount := edit.discount.value,
       name := if edit.name.Some? then edit.name.value else p.name,
       description := if edit.description.Some? then edit.description.value else p.description,
       imageUrls := images)
  }

  /** `update products set ... where articleNumber = a` */
  function EditProducts(products: seq<ProductRow>, a: string, edit: ProductEdit, images: seq<string>): (r: seq<ProductRow>)
    requires Converted(edit)
    ensures |r| == |products|
    ensures forall i :: 0 <= i < |r| ==>
      r[i] == if products[i].articleNumber == a then Edited(products[i], edit, images) else products[i]
  {
    seq(|products|, i requires 0 <= i < |products| =>
      if products[i].articleNumber == a then Edited(products[i], edit, images) else products[i])
  }

  /** `PUT /product/:articleNumber`: 404 for an unknown article. Otherwise the old images that
      the final list (the kept URLs, then the uploaded ones) no longer holds are returned in
      `discarded` for the storage deletion, which happens before the transaction. A number that
      did not convert makes the update throw: the transaction rolls back and the route answers
      500. Otherwise the fields and the final list are written, the size rows are replaced
      when the parsed `sizes` is a list, and the updated row is answered. */
  method UpdateProduct(db: Db, a: string, edit: ProductEdit, kept: seq<string>, uploaded: seq<string>,
                       sizes: Option<seq<SizeEntry>>)
    returns (r: Result<ProductRow>, discarded: seq<string>)
    modifies db`products, db`sizes
    ensures ProductIndex(old(db.products), a).None? ==> r == Fail(NotFound) && discarded == [] && unchanged(db)
    ensures ProductIndex(old(db.products), a).Some? ==>
      discarded == ImagesToDelete(old(db.products)[ProductIndex(old(db.products), a).value].imageUrls, kept + uploaded)
    ensures ProductIndex(old(db.products), a).Some? && !Converted(edit) ==> r == Fail(ServerError) && unchanged(db)
    ensures r.Ok? <==> ProductIndex(old(db.products), a).Some? && Converted(edit)
    ensures r.Ok? ==>
      var k := ProductIndex(old(db.products), a).value;
      && r.value == Edited(old(db.products)[k], edit, kept + uploaded)
      && db.products == EditProducts(old(db.products), a, edit, kept + uploaded)
      && db.sizes == (if sizes.Some? then ReplaceSizes(old(db.sizes), a, sizes.value) else old(db.sizes))
  {
    var k := ProductIndex(db.products, a);
    if k.None? {
      return Fail(NotFound), [];
    }
    var finalUrls := kept + uploaded;
    discarded := ImagesToDelete(db.products[k.value].imageUrls, finalUrls);
    if !Converted(edit) {
      return Fail(ServerError), discarded;
    }
    var updated := Edited(db.products[k.value], edit, finalUrls);
    db.products := EditProducts(db.products, a, edit, finalUrls);
    if sizes.Some? {
      db.sizes := DropSizes(db.sizes, a);
      InsertSizes(db, a, sizes.value);
    }
    r := Ok(updated);
  }

  /** An edit keeps every article number and active flag, and a name or description left out
      of the form keeps the stored one in every row. */
  lemma EditKeepsOmitted(products: seq<ProductRow>, a: string, edit: ProductEdit, images: seq<string>)
    requires Converted(edit)
    ensures Articles(EditProducts(products, a, edit, images)) == Articles(products)
    ensures forall i :: 0 <= i < |products| ==>
      && EditProducts(products, a, edit, images)[i].isActive == products[i].isActive
      && (edit.name.None? ==> EditProducts(products, a, edit, images)[i].name == products[i].name)
      && (edit.description.None? ==> EditProducts(products, a, edit, images)[i].description == products[i].description)
  {
  }

  /** Sending the same edit twice changes nothing more. */
  lemma EditTwice(products: seq<ProductRow>, a: string, edit: ProductEdit, images: seq<string>)
    requires Converted(edit)
    ensures EditProducts(EditProducts(products, a, edit, images), a, edit, images) == EditProducts(products, a, edit, images)
  {
  }

  /** After an edit the detail route shows the new fields and, when a list was sent, exactly its
      complete entries. */
  lemma EditThenDetail(products: seq<ProductRow>, sizes: seq<SizeRow>, a: string, edit: ProductEdit,
                       images: seq<string>, entries: seq<SizeEntry>)
    requires Converted(edit)
    requires ProductIndex(products, a).Some? && products[ProductIndex(products, a).value].isActive
    ensures Detail(EditProducts(products, a, edit, images), ReplaceSizes(sizes, a, entries), a)
      == Ok(Listed(Edited(products[ProductIndex(products, a).value], edit, images), KeptSizes(a, entries)))
  {
    var k := ProductIndex(products, a).value;
    var ps := EditProducts(products, a, edit, images);
    EditIndex(products, a, edit, images, 0);
    ReplaceSizesOwn(sizes, a, entries);
  }

  lemma EditIndex(products: seq<ProductRow>, a: string, edit: ProductEdit, images: seq<string>, k: nat)
    requires Converted(edit) && k <= |products|
    ensures ProductFrom(EditProducts(products, a, edit, images), a, k) == ProductFrom(products, a, k)
  {
    var ps := EditProducts(products, a, edit, images);
    SameArticlesIndex(ps, products, a, k);
  }

  /** The article search only looks at article numbers. */
  lemma {:induction false} SameArticlesIndex(p1: seq<ProductRow>, p2: seq<ProductRow>, a: string, k: nat)
    requires |p1| == |p2| && k <= |p1|
    requires forall i :: 0 <= i < |p1| ==> p1[i].articleNumber == p2[i].articleNumber
    ensures ProductFrom(p1, a, k) == ProductFrom(p2, a, k)
    decreases |p1| - k
  {
    if k < |p1| {
      SameArticlesIndex(p1, p2, a, k + 1);
    }
  }

  // ---- active flag ----

  /** `update products set isActive = v where articleNumber = a` */
  function SetActiveFlag(products: seq<ProductRow>, a: string, v: bool): (r: seq<ProductRow>)
    ensures |r| == |products|
    ensures forall i :: 0 <= i < |r| ==>
      r[i] == if products[i].articleNumber == a then products[i].(isActive := v) else products[i]
  {
    seq(|products|, i requires 0 <= i < |products| =>
      if products[i].articleNumber == a then products[i].(isActive := v) else products[i])
  }

  /** Switching a product off hides it from the detail route; switching a stored product on
      shows it there. Either way the product table keeps its length and article numbers. */
  lemma SwitchThenDetail(products: seq<ProductRow>, sizes: seq<SizeRow>, a: string, v: bool)
    ensures Articles(SetActiveFlag(products, a, v)) == Articles(products)
    ensures !v ==> Detail(SetActiveFlag(products, a, v), sizes, a) == Fail(NotFound)
    ensures v && ProductIndex(products, a).Some? ==>
      Detail(SetActiveFlag(products, a, v), sizes, a) ==
        Ok(Listed(products[ProductIndex(products, a).value].(isActive := true), SizesOf(sizes, a)))
  {
    SwitchIndex(products, a, v, 0);
  }

  lemma SwitchIndex(products: seq<ProductRow>, a: string, v: bool, k: nat)
    requires k <= |products|
    ensures ProductFrom(SetActiveFlag(products, a, v), a, k) == ProductFrom(products, a, k)
  {
    SameArticlesIndex(SetActiveFlag(products, a, v), products, a, k);
  }

  /** `PATCH /product/:articleNumber/active`: 400 unless the body carries a boolean, 404 when no
      row matched; otherwise every row of the article gets the flag and the first is answered. */
  method SetActive(db: Db, a: string, isActive: Option<bool>) returns (r: Result<ProductRow>)
    modifies db`products
    ensures isActive.None? ==> r == Fail(BadRequest)
    ensures isActive.Some? && ProductIndex(old(db.products), a).None? ==> r == Fail(NotFound)
    ensures r.Fail? ==> unchanged(db)
    ensures r.Ok? ==>
      && isActive.Some? && ProductIndex(old(db.products), a).Some?
      && r.value == old(db.products)[ProductIndex(old(db.products), a).value].(isActive := isActive.value)
      && db.products == SetActiveFlag(old(db.products), a, isActive.value)
  {
    if isActive.None? {
      return Fail(BadRequest);
    }
    var k := ProductIndex(db.products, a);
    if k.None? {
      return Fail(NotFound);
    }
    r := Ok(db.products[k.value].(isActive := isActive.value));
    db.products := SetActiveFlag(db.products, a, isActive.value);
  }
}
