# neposidko-backend: the shop's bookkeeping rules in Dafny

This project models the route handlers of the neposidko shop backend (an Express and Drizzle
service) that keep the order lines, the stock and the catalogue consistent. It also proves
properties of those handlers. The modelled handlers are:

- the cart: add, change and remove a line, plus the cart, count and history listings;
- checkout, for a signed-in user and for a guest;
- the guest-to-account migration of favourites and cart lines on register and login;
- the favourites routes;
- the review rules;
- the administrator's spreadsheet import and order edit;
- the product catalogue routes.

The database is a single class `Database.Db`:

- each table is a field holding a sequence of rows in insertion order, so a `.limit(1)` query
  means the first matching row;
- each serial key is a counter such as `nextOrderId`;
- `Db.Valid()` holds the key facts the handlers rely on.

The guest's session is a second class, `Database.Session`, with the `cart` and `favorites`
arrays.

Each handler is a method:

- it modifies exactly the fields the route writes;
- it returns a `Result` whose `Fail` carries the HTTP error the route answers (400, 401, 403,
  404, 409, 500);
- each database transaction is one atomic step: on failure nothing changes
  (`unchanged(db, session)`).

Where a route loops (guest checkout, migration, size inserts, the three import sheets), the
method keeps the loop. It is proved against a recursive function over the first `n` records.
That function and the pure transitions beside it (`UserAdd`, `GuestAdd`, `Debit`, `BrandStep`,
`CategoryStep`, `ProductStep`, `Upload`) carry the lemmas: stock bounds, merge on add,
one cart per user, deduplication, the import report and idempotent imports.

`Upload` and `UploadExcel` are the spreadsheet import as the route evidently intends it. As
written, `routes/admin.js` uses schema tables it never imports, so every record that reaches
a lookup makes the import fail. `UploadAsWritten` models that behaviour, and "## Findings"
records it.

Modules follow the route files:

| module | file | models |
|---|---|---|
| `Tables` | `tables.dfy` | row types, get-or-create cart lookup, stock lookup and update, line tables |
| `Database` | `database.dfy` | the `Db` and `Session` classes and their key invariant |
| `Text` | `text.dfy` | `trim`, ASCII `toLowerCase`, `split`, email normalisation |
| `OrderItems` | `orderitems.dfy` | `routes/orderItems.js` |
| `Orders` | `orders.dfy` | `routes/orders.js` |
| `Users` | `users.dfy` | `routes/users.js` register and login |
| `Favorites` | `favorites.dfy` | `routes/favorites.js` |
| `Reviews` | `reviews.dfy` | `routes/reviews.js` |
| `Products` | `products.dfy` | `routes/products.js` |
| `Admin` | `admin.dfy` | `routes/admin.js` upload-excel and `PUT /orders/:orderId` |

These routes take environment values as parameters:

- The caller's identity is an `Option<int>`, where `None` is a guest.
- The password comparison is a boolean parameter of `Login`.
- The clock (`new Date()`, `Date.now()`) is an integer `now` in milliseconds.
- The stored URLs of uploaded files and the parsed spreadsheet rows are given to the route as
  data.

## Model

| member | source | states |
|---|---|---|
| Text.TrimStart | routes/users.js:19 | the result is a suffix of the input, everything dropped is white space, and it does not start with white space |
| Text.TrimEnd | routes/users.js:19 | the result is a prefix of the input, everything dropped is white space, and it does not end with white space |
| Text.TrimIsTrimmed | routes/users.js:19 | `trim()` leaves white space at neither end |
| Text.Lower | routes/users.js:19 | `toLowerCase()` keeps the length, maps each character on its own, and leaves no upper-case ASCII letter |
| Text.NormalizeIdempotent | routes/users.js:19 | normalising an address that is already normalised changes nothing |
| Text.NormalizedShape | routes/users.js:121 | the address both routes look up is trimmed and has no upper-case ASCII letter |
| Text.UserName | routes/users.js:20 | the new user's name has no '@', is a prefix of the normalised address, and is followed there by '@' when it is shorter |
| Text.Split | routes/admin.js:415 | `split(",")` gives at least one part, and no part holds the separator |
| Text.JoinSplit | routes/admin.js:413-417 | splitting loses nothing: joining the parts with the separator gives the text back |
| Text.TrimWithin | routes/admin.js:416 | trimming a part never introduces a character, so a trimmed URL holds no comma |
| Tables.ActiveCart | routes/orderItems.js:127-133 | the cart lookup finds the user's first status-1 order, or none exactly when the user has no status-1 order |
| Tables.ActiveCartIffCount | routes/orderItems.js:127-139 | the lookup finds no cart exactly when the user has no cart at all |
| Tables.CartCountAppend | routes/orderItems.js:135-139 | inserting an order adds one to the user's cart count exactly when it is a status-1 order of the user |
| Tables.StockOfSetSame | routes/orders.js:124-132 | after the stock update, the route reads back the value it wrote for that (article, size) |
| Tables.StockOfSetOther | routes/orders.js:124-132 | the stock update leaves what is read for every other (article, size) |
| Tables.DropOrderKeys | routes/orderItems.js:288-289 | deleting an order header keeps the order ids distinct and allocated |
| Tables.DropItemKeys | routes/orderItems.js:280-282 | deleting a line keeps the line ids distinct and every line tied to an allocated order |
| Tables.LinesForKeys | routes/users.js:74-81 | lines inserted with fresh consecutive ids into an allocated order keep the line keys |
| Tables.EntryIndexSnoc | routes/orderItems.js:194-196 | `findIndex` on a session cart with one entry pushed finds the earlier entry if there is one, else the pushed entry when it matches |
| OrderItems.OpenCart | routes/orderItems.js:127-145 | get-or-create of the cart writes no line and keeps the order and line keys |
| OrderItems.TouchKeepsCarts | routes/orderItems.js:141-144 | bumping `lastUpdated` changes neither the cart lookup nor the user's cart count |
| OrderItems.OpenCartFinds | routes/orderItems.js:127-145 | afterwards the lookup finds the cart whose id get-or-create answered; the user has exactly one cart if there was none, and as many as before otherwise |
| OrderItems.AddLineQuantity | routes/orderItems.js:147-190 | every accepted add leaves the cart's line for (article, size) holding the requested quantity more |
| OrderItems.UserAddStock | routes/orderItems.js:123-190 | the signed-in add is refused with 400 exactly when the merged or the fresh quantity exceeds the stock, and then no line changes, although the cart header has already been created or bumped; an accepted add merges exactly when a line existed |
| OrderItems.UserAddWrites | routes/orderItems.js:160-189 | a merge changes only the quantity of the matching line and adds no line; a fresh add appends one line with the next id and exactly the requested fields |
| OrderItems.GuestAddStock | routes/orderItems.js:193-217 | the guest add is refused with 400, leaving the session as it was, exactly when the session quantity plus the request exceeds the stock; a merge happens exactly when the entry existed; only a fresh add grows the cart |
| OrderItems.GuestAddQuantities | routes/orderItems.js:198-215 | an accepted guest add raises the quantity of (article, size) by the request and leaves every other pair |
| OrderItems.GuestAddSingle | routes/orderItems.js:194-215 | the session cart keeps at most one entry per (article, size) |
| OrderItems.GetOrCreateCart | routes/orderItems.js:127-145 | the method writes the orders table exactly as `OpenCart` says and keeps `Db.Valid()` |
| OrderItems.AddToCart | routes/orderItems.js:101-222 | 400 for missing fields and 404 without a stock row, both before any cart is created or bumped; then the signed-in or the guest add; the stock is never written |
| OrderItems.AddToUserCart | routes/orderItems.js:123-190 | the signed-in branch, exactly `UserAdd` |
| OrderItems.AddToOrder | routes/orderItems.js:147-190 | merge or insert on the open cart, exactly `AddLine`, keeping the line keys |
| OrderItems.AddToSessionCart | routes/orderItems.js:192-218 | the guest branch, exactly `GuestAdd` on the session cart |
| OrderItems.OpenCartBelowNext | routes/orderItems.js:134-139 | the cart id get-or-create answers belongs to an allocated order |
| OrderItems.AddLineKeys | routes/orderItems.js:180-188 | an add keeps the line ids distinct and below their sequence |
| OrderItems.UpdateLine | routes/orderItems.js:224-257 | 400 without a size or a non-zero quantity, 404 without the line, 403 unless the line's order is the caller's; then only that line's size and quantity change, with no stock check |
| OrderItems.DeleteLine | routes/orderItems.js:259-301 | 404 without the line, 403 unless its order is the caller's; then the line goes, and the order header goes with it when no line is left, else its `lastUpdated` is bumped |
| OrderItems.RemoveLine | routes/orderItems.js:280-295 | the writes of the delete once its checks passed, keeping `Db.Valid()` |
| OrderItems.TouchKeys | routes/orderItems.js:291-294 | bumping `lastUpdated` keeps the order keys |
| OrderItems.LastLineDropsCart | routes/orderItems.js:284-289 | deleting the last line of the user's only cart leaves the user without a cart |
| OrderItems.OneCartAt | routes/orderItems.js:127-133 | when the user has one cart, any two of the user's cart rows are the same row |
| OrderItems.CartCountAtLeastOne | routes/orderItems.js:127-133 | a user with a cart row has a cart count of at least one |
| OrderItems.LinesIn | routes/orderItems.js:60-66 | the inner join keeps exactly the lines whose order is among the given ones |
| OrderItems.CartLines | routes/orderItems.js:44-67 | the signed-in cart listing holds exactly the lines of the user's status-1 orders |
| OrderItems.HistoryLines | routes/orderItems.js:11-38 | the history listing holds exactly the lines of the user's orders with status 2 to 5 |
| OrderItems.LinesInAppend | routes/orderItems.js:24-37 | appending a line appends it to the listing exactly when its order is listed |
| OrderItems.LinesInConcat | routes/orderItems.js:24-37 | the listing of two concatenated tables is the concatenation of their listings |
| OrderItems.LinesInAll | routes/orderItems.js:60-66 | lines that all belong to listed orders are all listed |
| OrderItems.LinesInSameOrders | routes/orderItems.js:60-66 | changing fields other than the order id does not change the number of listed lines |
| OrderItems.LinesInUnused | routes/orderItems.js:60-66 | listing one more order that has no lines changes nothing |
| OrderItems.OpenCartLineCount | routes/orderItems.js:303-311 | creating or bumping the cart header does not change the line count |
| OrderItems.TouchCartIds | routes/orderItems.js:141-144 | bumping `lastUpdated` keeps the set of the user's cart ids |
| OrderItems.NewCartIds | routes/orderItems.js:135-139 | a new cart adds its id to the user's cart ids |
| OrderItems.AddLineCount | routes/orderItems.js:160-189 | once the cart is known, only a freshly inserted line changes the number of its lines |
| OrderItems.AddCount | routes/orderItems.js:306-311 | the count answer rises by one exactly when an add inserts a new line; a merge, a refusal or a new cart header leave it, so it counts lines and not quantities |
| OrderItems.GuestDetails | routes/orderItems.js:72-91 | each guest entry keeps its fields and shows the product's name, images, price and discount, or "unknown product", no images and 0 when the product is missing |
| OrderItems.GuestListing | routes/orderItems.js:69-94 | the guest listing has one element per session entry, in order |
| Orders.CartCountUpdate | routes/orders.js:80-83 | replacing one order row moves the cart count by that row's standing before and after |
| Orders.PromoteClosesCart | routes/orders.js:70-83 | placing the cart takes one cart away from the user, so after a checkout of the only cart a second checkout finds none and answers 404 |
| Orders.PromotedInHistory | routes/orders.js:80-83 | the placed order, with status 2 and the shipping fields, is in the user's history |
| Orders.CheckoutUser | routes/orders.js:68-83 | 404 without an active cart, else that cart is promoted and its id answered; no line and no stock changes |
| Orders.DebitStopsAt | routes/orders.js:115-120 | once an entry aborts the loop, the outcome stays that failure |
| Orders.DebitKeepsStock | routes/orders.js:105-132 | a successful guest checkout leaves every stock non-negative if it started so |
| Orders.DebitExact | routes/orders.js:103-133 | with one entry per (article, size), the guest checkout succeeds exactly when the stock covers every entry, and then each pair's stock is lowered by the quantity ordered of it and no other stock changes |
| Orders.DebitFirstExact | routes/orders.js:103-133 | the same, for the loop after its first `n` entries |
| Orders.DebitExactStep | routes/orders.js:104-132 | one more entry, for a pair not seen before, succeeds exactly when the original stock covers it |
| Orders.DebitSamePair | routes/orders.js:124-132 | the pair an entry debits reads its original stock less the entry's quantity |
| Orders.DebitOtherPair | routes/orders.js:124-132 | every other pair keeps what it read before the entry |
| Orders.TakeStock | routes/orders.js:104-132 | one loop step: 500 without a stock row, 400 for too little stock, else the stock read minus the quantity |
| Orders.GuestLines | routes/orders.js:103-133 | the loop fails as `Debit` fails, or leaves the debited stock and one line per entry |
| Orders.CheckoutGuest | routes/orders.js:84-135 | 400 for an empty session cart; an aborted loop writes nothing and keeps the session cart; a successful one inserts one status-2 order with no user, one line per entry and the debited stock, then empties the session cart |
| Orders.Checkout | routes/orders.js:59-142 | 400 before any write for missing shipping fields (email and name too for a guest), then the signed-in or the guest branch |
| Orders.OrderHistory | routes/orders.js:144-170 | the history holds exactly the user's orders with status 2 to 5 |
| Users.UserByEmail | routes/users.js:21-23 | the lookup finds a row with the address, or none exactly when no row has it |
| Users.NewAccountShape | routes/users.js:19-33 | registering is refused with 409 exactly when an account holds the normalised address; a new account has the next id, role 2, the normalised address and the name before '@' |
| Users.NewAccountDistinct | routes/users.js:21-24 | registration keeps addresses distinct, and a second registration of the same address up to white space and letter case is refused |
| Users.EmailAppended | routes/users.js:30-33 | inserting an account under a free address keeps addresses distinct and finds it |
| Users.AddFavoritesFirstKeeps | routes/users.js:36-46 | the favourites loop keeps every stored pair in place and appends only pairs of the user, at most one per listed article |
| Users.AddFavoritesFirstContents | routes/users.js:36-46 | after the loop, the stored pairs are the old ones plus the user's pair for each listed article |
| Users.AddFavoritesFirstSingle | routes/users.js:38-45 | the existence check keeps the table free of repeated pairs even when the list repeats an article |
| Users.NoDuplicatesSnoc | routes/users.js:43-45 | an insert guarded by the existence check keeps the table free of repeats |
| Users.AddFavoritesShape | routes/users.js:131-141 | migration leaves the user with the old favourites plus the listed ones, none twice, and no other user's favourites change |
| Users.AddFavoritesFirstPresent | routes/users.js:131-141 | running the loop on articles already stored changes nothing |
| Users.AddFavoritesIdempotent | routes/users.js:131-141 | migrating the same list a second time adds nothing |
| Users.ClientListFirst | routes/users.js:36-59 | a list in the body is migrated and the session list is neither used nor cleared; otherwise the session list is migrated and cleared |
| Users.MigrateCartShape | routes/users.js:61-81 | cart migration reuses the user's cart or creates exactly one, and appends one line per entry verbatim with no merge and no stock check |
| Users.MigrateCartCount | routes/users.js:74-81 | the user's cart holds one more line per migrated entry |
| Users.InsertFavorites | routes/users.js:37-46 | the loop leaves the favourites as `AddFavorites` says and keeps `Db.Valid()` |
| Users.InsertLines | routes/users.js:74-81 | the loop appends one line per entry with consecutive ids |
| Users.MigrateFavorites | routes/users.js:36-59 | the favourites block: the chosen list migrated, the session list cleared only when it was the one used |
| Users.MigrateCartLines | routes/users.js:61-104 | the cart block: the chosen list migrated into the cart, the session cart cleared only when it was the one used |
| Users.Migrate | routes/users.js:29-105 | the transaction both routes run: the favourites block, then the cart block |
| Users.CreateAccount | routes/users.js:21-34 | 409 with nothing written when the address is taken, else the account is appended with the next id |
| Users.InsertUser | routes/users.js:30-34 | the account insert keeps `Db.Valid()` |
| Users.Register | routes/users.js:13-113 | 400 without an address or a password, 409 for a taken address, both writing nothing; else the account is created and the guest's favourites and cart migrate into it |
| Users.Login | routes/users.js:115-208 | 400, then 404 for an unknown address, then 401 for a wrong password, all without migration; else the migration runs for the account found |
| Favorites.FavoritesOf | routes/favorites.js:108-117 | the listing holds exactly the user's articles |
| Favorites.DropFavorite | routes/favorites.js:64-72 | the delete removes exactly the given pair |
| Favorites.FavoritesOfAppend | routes/favorites.js:36-44 | an insert appends the article to its user's listing only |
| Favorites.AddedCount | routes/favorites.js:36-48 | an insert raises its user's count by one and no other user's |
| Favorites.DroppedCount | routes/favorites.js:64-85 | deleting a stored pair lowers its user's count by one and no other user's |
| Favorites.DropAbsent | routes/favorites.js:64-76 | deleting a pair that is not stored changes nothing |
| Favorites.DropKeepsSingle | routes/favorites.js:64-72 | the delete keeps the table free of repeats |
| Favorites.DropAppend | routes/favorites.js:64-72 | deleting a pair just appended is the same as deleting it from the table before |
| Favorites.AddThenRemove | routes/favorites.js:36-72 | adding a new favourite and then removing it gives the table back |
| Favorites.AddFavorite | routes/favorites.js:12-53 | 400 without an article and 400 for a stored pair, both writing nothing; else exactly that pair is appended and the user's new count answered |
| Favorites.RemoveFavorite | routes/favorites.js:56-91 | 404 when the pair is not stored; else it is deleted and the user's new count answered |
| Favorites.RouteCounts | routes/favorites.js:36-86 | the count the write routes answer is one more after an add and one less after a remove, and no other user's count moves |
| Reviews.ReviewIndex | routes/reviews.js:75-81 | the lookup by id finds the review with that id, or none exactly when there is none |
| Reviews.UserReview | routes/reviews.js:20-31 | the lookup of the user's review of the article finds one, or none exactly when none exists |
| Reviews.CreateChecks | routes/reviews.js:14-18 | create passes its checks exactly when the article number is present, a rating and a comment are given and the rating is 1 to 5; else 400 |
| Reviews.CreateAsWrittenRefusesAll | routes/reviews.js:20-31 | as written, no review can be created: a request that passes the field and rating checks fails with 500 |
| Reviews.NewReviewShape | routes/reviews.js:11-46 | the intended create admits exactly a valid first review of the user for the article, stores it with its rating, author and date, and keeps one review per user and article |
| Reviews.SecondReviewRefused | routes/reviews.js:20-33 | a second create by the same user for the same article is refused whatever it carries |
| Reviews.CreateReview | routes/reviews.js:11-50 | the intended create route: the outcome of `NewReview`, with the row appended on success and nothing written on failure |
| Reviews.EditShape | routes/reviews.js:66-96 | an accepted edit is by the author, within 600000 ms of writing, with a rating of 1 to 5, and changes only the rating and comment, keeping one review per user and article |
| Reviews.EditReview | routes/reviews.js:66-100 | 400, 404, 403 for another author and 403 after the window, each writing nothing; else only that review's rating and comment change |
| Reviews.DropReview | routes/reviews.js:116 | the delete removes exactly the reviews with the id |
| Reviews.OneReviewCons | routes/reviews.js:20-33 | a review by a user with no other review of the article keeps one review per user and article |
| Reviews.DropReviewKeeps | routes/reviews.js:116 | the delete keeps one review per user and article |
| Reviews.DeleteOutcome | routes/reviews.js:105-114 | delete is allowed exactly for the author of an existing review |
| Reviews.DeleteAfterWindow | routes/reviews.js:102-117 | the author can delete a review whose edit window has passed, which the edit route refuses with 403 |
| Reviews.DeleteReview | routes/reviews.js:102-121 | 404 or 403 writing nothing; else the review is deleted, however old it is |
| Products.KeptFirstRows | routes/products.js:138-148 | the size loop writes exactly the entries with a size and a stock, in order, under the product's article |
| Products.SizesOf | routes/products.js:58-63 | the size filter keeps exactly the rows of the article |
| Products.DropSizes | routes/products.js:376-378 | the delete removes exactly the rows of the article |
| Products.SizesOfConcat | routes/products.js:58-63 | filtering two concatenated tables is concatenating their filters |
| Products.DropSizesConcat | routes/products.js:376-378 | the same for the delete |
| Products.SizesOfUniform | routes/products.js:379-386 | the rows the loop writes for one article all match that article and no other |
| Products.SizesOfAbsent | routes/products.js:376-378 | a table with no row of an article has no sizes of it and loses nothing to its delete |
| Products.DropSizesOther | routes/products.js:376-378 | deleting one article's sizes leaves every other article's sizes |
| Products.ReplaceSizesOwn | routes/products.js:374-387 | after an edit with a list, the product's sizes are exactly the complete entries of that list |
| Products.ReplaceSizesOther | routes/products.js:374-387 | an edit leaves every other product's sizes as they were |
| Products.ReplaceSizesTwice | routes/products.js:374-387 | repeating the same size replacement changes nothing more |
| Products.ReplaceSizesShape | routes/products.js:374-387 | the three above together: replaced wholesale, others untouched, idempotent |
| Products.EmptyListClears | routes/products.js:374 | an edit without a sizes field clears the product's sizes |
| Products.InsertSizes | routes/products.js:140-147 | the size loop appends exactly `KeptSizes` |
| Products.ImagesToDelete | routes/products.js:351-353 | the images deleted are exactly the old URLs missing from the final list |
| Products.ImagesToDeleteBounds | routes/products.js:349-353 | keeping every old image deletes none, and keeping none deletes all |
| Products.ImagesToDeleteKept | routes/products.js:349-353 | when the final list contains every old URL, nothing is deleted |
| Products.ImagesToDeleteNone | routes/products.js:349-353 | with an empty final list, every old image is deleted |
| Products.Shown | routes/products.js:176 | a listing keeps exactly the products on its shelf (all, active or inactive), in table order |
| Products.SizesIn | routes/products.js:46-56 | the prefetch keeps exactly the size rows of the listed articles |
| Products.SizesOfSizesIn | routes/products.js:45-61 | restricting the size query to the listed articles loses none of a listed product's sizes |
| Products.ListingShape | routes/products.js:58-63 | each listing has one entry per shown product, in order, carrying exactly that product's size rows in row order |
| Products.ListingAt | routes/products.js:200-205 | the same, for one entry |
| Products.DetailListed | routes/products.js:290-319 | a product the detail route shows is in the active listing with the same sizes |
| Products.ListedDetail | routes/products.js:290-319 | an entry of the active listing is exactly what the detail route shows for its article |
| Products.InactiveNotFound | routes/products.js:311-312 | a product of the inactive listing gets 404 from the detail route |
| Products.NewProduct | routes/products.js:88-126 | create fails exactly for a missing field or no image (400) or a taken article (409); else the row has the form's fields, discount 0 when absent, the images, and is active |
| Products.AppendProduct | routes/products.js:101-127 | inserting under a new article keeps article numbers distinct and finds the new row |
| Products.AppendedDetail | routes/products.js:115-148 | the detail route shows a new product with exactly the complete entries of its list |
| Products.AppendedSizes | routes/products.js:138-148 | a new article's sizes are exactly the rows its loop wrote |
| Products.NewProductKeys | routes/products.js:101-148 | a created product keeps article numbers distinct and then shows, active, with exactly its listed sizes |
| Products.ProductPrefix | routes/products.js:101-105 | when no row from the start point on holds the article, the lookup in the table with one row appended goes straight to that row |
| Products.CreateProduct | routes/products.js:71-157 | the route writes nothing on failure; on success it appends the product, its category link with the first image as picture, and its size rows |
| Products.UpdateProduct | routes/products.js:325-395 | 404 exactly for an unknown article, with nothing written and nothing to delete; otherwise the old images missing from the final list (kept, then uploaded) are handed to the storage deletion even when the update then fails; a number that did not convert gives 500 with nothing written; else the fields are written, an absent name or description keeping the stored one, the sizes are replaced when a list was parsed, and the updated row is answered |
| Products.EditKeepsOmitted | routes/products.js:356-371 | the update keeps every article number and active flag, and a name or description missing from the form keeps the stored one |
| Products.EditTwice | routes/products.js:367-371 | sending the same edit twice changes nothing more |
| Products.EditThenDetail | routes/products.js:356-387 | after an edit the detail route shows the new fields and exactly the new sizes |
| Products.EditIndex | routes/products.js:367-371 | the edit does not move any article |
| Products.SameArticlesIndex | routes/products.js:332-336 | the article lookup depends only on article numbers |
| Products.SwitchThenDetail | routes/products.js:277-312 | switching off hides the product from the detail route, and switching on shows it; the table keeps its articles |
| Products.SwitchIndex | routes/products.js:277-281 | the toggle does not move any article |
| Products.SetActive | routes/products.js:267-288 | 400 for a non-boolean, 404 for an unknown article, both writing nothing; else the flag is set and the first row answered |
| Admin.BrandByName | routes/admin.js:315-319 | the brand lookup finds a brand with the name, or none exactly when there is none |
| Admin.BrandStepShape | routes/admin.js:310-326 | each brand record is counted exactly once, only the brand table changes, a record is added exactly when its name is new, and the name is found afterwards |
| Admin.BrandsTally | routes/admin.js:310-326 | the Brands sheet adds one report entry per record |
| Admin.BrandFromPrefix | routes/admin.js:315-324 | a brand found stays found at the same row after inserts |
| Admin.BrandsLearned | routes/admin.js:315-324 | after the sheet every named record finds its brand, and no stored brand is lost |
| Admin.BrandsIdle | routes/admin.js:315-324 | a sheet whose names are all stored changes no table and adds nothing |
| Admin.BrandsTwice | routes/admin.js:315-324 | importing the same Brands sheet a second time changes no table and adds nothing |
| Admin.ImportBrand | routes/admin.js:311-325 | one iteration of the brand loop, exactly `BrandStep` |
| Admin.ImportBrands | routes/admin.js:310-326 | the brand loop, exactly `BrandsFirst` over the sheet |
| Admin.CategoryByName | routes/admin.js:333-337 | the category lookup finds one with the name, or none exactly when there is none |
| Admin.SameNamesFrom | routes/admin.js:333-337 | the category lookup depends only on the names |
| Admin.CategoryStepShape | routes/admin.js:328-360 | a stored category is updated exactly when the record brings a non-empty, different picture, and skipped otherwise; names never change and each record counts once |
| Admin.CategoriesTally | routes/admin.js:328-360 | the Categories sheet adds one report entry per record |
| Admin.CategoryFromPrefix | routes/admin.js:333-359 | a category found stays found at the same row after inserts |
| Admin.CategoryStepKeeps | routes/admin.js:333-359 | a category name found before a record is still found after it |
| Admin.CategoriesLearned | routes/admin.js:333-359 | after the sheet every named record finds its category |
| Admin.CategoriesIdle | routes/admin.js:333-359 | a sheet whose names are all stored inserts no category |
| Admin.CategoriesTwice | routes/admin.js:333-359 | importing the same Categories sheet a second time adds no category and leaves the names |
| Admin.ImportCategory | routes/admin.js:329-359 | one iteration of the category loop, exactly `CategoryStep` |
| Admin.ImportCategories | routes/admin.js:328-360 | the category loop, exactly `CategoriesFirst` over the sheet |
| Admin.ImageListShape | routes/admin.js:413-417 | an absent cell gives no images, and a present one gives trimmed parts without commas |
| Admin.VetShape | routes/admin.js:363-406 | a product record passes exactly when its fields are present, its price is a number and its brand and category are stored, and it then carries their ids |
| Admin.RejectedWritesNothing | routes/admin.js:363-406 | a rejected record writes nothing and logs exactly its error |
| Admin.DuplicateIgnoresRest | routes/admin.js:419-430 | a duplicate is skipped with no write, whatever its brand, category, discount and sizes say |
| Admin.UpdateKeepsOmitted | routes/admin.js:432-487 | an update from a record without description, discount and images keeps the stored ones and switches the product on; a size list replaces the whole size set |
| Admin.ProductStepTally | routes/admin.js:362-528 | each product record counts once, or twice when it reached a write with an unreadable sizes cell |
| Admin.ProductStepKeys | routes/admin.js:408-498 | the import keeps article numbers distinct |
| Admin.ProductsKeys | routes/admin.js:362-529 | the same, over the whole Products sheet |
| Admin.ProductsTally | routes/admin.js:362-529 | the Products sheet adds between one and two report entries per record |
| Admin.UpdateFromRow | routes/admin.js:432-487 | the writes of an update and its report entries |
| Admin.InsertFromRow | routes/admin.js:489-527 | the writes of an insert and its report entries |
| Admin.ImportProduct | routes/admin.js:363-528 | one iteration of the product loop, exactly `ProductStep` |
| Admin.ImportProducts | routes/admin.js:362-529 | the product loop, exactly `ProductsFirst` over the sheet |
| Admin.BrandsCatalog | routes/admin.js:310-326 | the Brands sheet does not touch the product table |
| Admin.CategoriesCatalog | routes/admin.js:328-360 | the Categories sheet does not touch the product table |
| Admin.UploadReport | routes/admin.js:288-529 | the intended import (see Findings) succeeds exactly when the file has all three sheets; the report counts each brand and category record once and each product record once or twice; article numbers stay distinct |
| Admin.UploadExcel | routes/admin.js:282-538 | the intended route (see Findings): 400 with nothing written for a missing file or sheet; else the catalogue and the report are those of `Upload` |
| Admin.UploadAsWrittenShape | routes/admin.js:288-536 | as written, the route answers 200 exactly when the three sheets are present and no record reaches a query on `brands` or `categories`; the answer then equals the intended import, with the catalogue untouched and only the checks' errors reported; otherwise it answers 500 and writes nothing |
| Admin.UploadAsWrittenOneBrand | routes/admin.js:310-318 | a workbook with one named brand and empty Categories and Products sheets is answered 500 as written, while the intended import adds or skips the brand |
| Admin.BrandsAsWritten | routes/admin.js:310-318 | as written, the Brands loop gets through exactly when no record has a name, and then it logs what the intended loop logs and writes nothing |
| Admin.CategoriesAsWritten | routes/admin.js:328-336 | the same for the Categories loop |
| Admin.ProductsAsWritten | routes/admin.js:362-388 | the same for the Products loop, where a record with its fields and a numeric price reaches the brand query |
| Admin.ThrownStays | routes/admin.js:309-536 | once a record has thrown, no later record runs |
| Admin.EditOrdersShape | routes/admin.js:101-106 | the edit keeps the order keys and every order's place, writes the four fields whatever the old status was, leaves the other orders, and repeating it changes nothing more |
| Admin.EditOrder | routes/admin.js:96-106 | 404 exactly when no order has the id, with nothing written; else the four fields are overwritten, with no transition check and no change to lines or stock |

## Left out

- Password hashing and tokens: `bcrypt` and `jwt` are replaced by a boolean comparison outcome and the caller's id. The authentication middleware is not part of this model.
- File and image storage: the upload middleware, the storage client, `deleteFiles` and `fs.unlink` are left out. The update route returns the URLs it hands to the deletion, as `discarded`. Uploaded files enter as their stored URLs.
- Spreadsheet reading and the report download: the sheets enter as parsed records. A text cell that holds a number, or a name that is not a string, is an absent field. A price cell is `Empty`, a `Number` or a `Label`. A non-integer or `NaN` price is not modelled.
- JSON parsing of `sizes` and of the kept image list: a parsed size list is a sequence of `(size, stock)` options. A size given as a number, a `null` element and other unusual JSON shapes are not modelled. A parse that throws in `POST /products` or `PUT /product` (a 500 there) is not modelled.
- `Number()` conversions in `POST /products`: the form's fields arrive already converted to integers, so a `NaN` brand, price or discount, which the integer columns refuse with a 500, is not modelled there. `PUT /product` does model it: a number that did not convert is `None` and the route answers 500.
- Products.UpdateProduct: the numbers enter already converted by `Number()`, with `None` for `NaN`. The conversion itself is not modelled: `""` becomes 0, and an absent field or other text becomes `NaN`.
- The JSON shape of answers: join columns such as brand and category names, and the row multiplication a left join would cause when a product has several category links, are not modelled. Listings carry the product row and its size rows.
- `DELETE /product/:articleNumber` and `GET /search`: the delete only removes storage files and rows; the search's `ilike` matching lives in the database.
- `GET /orders`, `POST /orders` and `GET /orders/all`: plain selects and an unchecked insert with no rule to state.
- `PUT /orders/:orderId`: a field absent from the body is written as given. Drizzle's skipping of `undefined` fields in `set` is not modelled.
- `GET /reviews/:articleNumber`: a plain select ordered by date.
- The rest of `routes/users.js` (`/protected`, `PUT` and `DELETE /user`, `/getUserRole`, `/user/:userId`): profile CRUD with no rule to state.
- Unexpected exceptions and the 500 answers of the `catch` blocks are modelled only where a rule produces them: the guest checkout of an entry without a stock row, an unconverted number in `PUT /product`, and reviews `POST` and `upload-excel` as written. Everything else is the rollback of an atomic step.
- Concurrency: racing get-or-create calls and concurrent checkouts are not modelled; each transaction is one atomic step.
- Wall-clock time is an integer parameter. JavaScript `Date` parsing of the stored review date is not modelled; the review date is already a millisecond count.
- Numbers are unbounded integers. Quantities are not required to be positive, as in the code, and JavaScript's floating-point arithmetic on prices and stock is not modelled.
- Text.Lower: restricted to ASCII letters; `toLowerCase` on other scripts is not modelled.
- `server.js` holds an older, conflicting set of handlers and is not part of this model. Neither are the declarative `db/schema.js` nor the plain CRUD routes for brands, categories and sizes.
- Module linking: the model assumes that the route modules load. As written, four of the seven modelled route files import names their helper modules do not export. `middleware/upload.js` has only a default export (line 47), yet named imports of it appear in `routes/admin.js:14` (`uploadExcel`), `routes/products.js:13` (`uploadMultipleImages`) and `routes/categories.js:7` (`uploadSingleImage`). `db/schema.js` exports no `favorites` table, yet `routes/users.js:6` and `routes/favorites.js:5` import one, and it also lacks columns that the routes use.

## Findings

| source | as written | input that shows it | evidently intended | confidence | as-written member | corrected member |
|---|---|---|---|---|---|---|
| routes/reviews.js:25 | the duplicate lookup of `POST /reviews` calls `and(...)`, but line 5 imports only `eq` from drizzle-orm, so the handler throws and its `catch` answers 500 | a first review `{articleNumber: "A1", rating: 5, comment: "ok"}` by a signed-in user | 400 when the user already reviewed the article, else the review is inserted and answered with 201 | not executed | Reviews.CreateAsWrittenRefusesAll | Reviews.NewReviewShape |
| routes/admin.js:317 | lines 4-11 import neither `brands`, `categories`, `productCategories` nor `productSizes` from the schema, so the first record that reaches a query on them (lines 317, 335, 386) throws a `ReferenceError`; the transaction rolls back and the `catch` at lines 534-535 answers 500 | a workbook whose Brands sheet is `[{name: "Nike"}]` and whose Categories and Products sheets are empty | each record is matched against the stored brands, categories and products, and the route answers the report with 200 | not executed | Admin.UploadAsWrittenOneBrand | Admin.UploadReport |
