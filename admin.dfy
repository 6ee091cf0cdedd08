/** `routes/admin.js`: the spreadsheet import that reconciles brands, categories and products
    (with their category links and sizes) against the catalogue and reports what it did, and
    the administrator's order edit. */
module Admin {
  import opened Tables
  import opened Database
  import opened Text
  import opened Products

  // ---- the import report ----

  /** The entries the import pushes onto `log.errors`. */
  datatype ImportError =
    | BrandNameMissing
    | CategoryNameMissing
    | ProductFieldsMissing
    | PriceNotNumber(articleNumber: string)
    | UnknownBrand(articleNumber: string, brand: string)
    | UnknownCategory(articleNumber: string, category: string)
    | SizesUnreadable(articleNumber: string)

  /** `{ added, updated, skipped, errors }` */
  datatype ImportLog = ImportLog(added: nat, updated: nat, skipped: nat, errors: seq<ImportError>)

  /** Every outcome the report counts. */
  function Tally(log: ImportLog): nat {
    log.added + log.updated + log.skipped + |log.errors|
  }

  function AddError(log: ImportLog, e: ImportError): ImportLog {
    log.(errors := log.errors + [e])
  }

  // ---- the parsed sheets ----

  /** A spreadsheet cell that may hold a number. */
  datatype Cell = Empty | Number(n: int) | Label(s: string)

  /** JavaScript truthiness of a cell. */
  predicate Truthy(c: Cell) {
    match c
    case Empty => false
    case Number(n) => n != 0
    case Label(s) => s != ""
  }

  /** The `sizes` cell: absent or empty, not JSON, JSON that is not a list, or a list. */
  datatype SizesCell = NoSizes | Unreadable | NotAList | SizeList(entries: seq<SizeEntry>)

  /** A record of a sheet; a text field is `None` when it is absent, empty or not text. */
  datatype BrandSheetRow = BrandSheetRow(name: Option<string>)
  datatype CategorySheetRow = CategorySheetRow(name: Option<string>, imageUrl: Option<string>)
  datatype ProductSheetRow = ProductSheetRow(
    articleNumber: Option<string>, brand: Option<string>, category: Option<string>,
    price: Cell, name: Option<string>, description: Option<string>, discount: Option<int>,
    imageUrls: Option<string>, sizes: SizesCell)

  /** The three sheets of the uploaded workbook; a missing sheet is `None`. */
  datatype Workbook = Workbook(brands: Option<seq<BrandSheetRow>>,
                               categories: Option<seq<CategorySheetRow>>,
                               products: Option<seq<ProductSheetRow>>)

  /** The tables the import reads and writes. */
  datatype Catalog = Catalog(
    brands: seq<BrandRow>, nextBrandId: int, categories: seq<CategoryRow>, nextCategoryId: int,
    products: seq<ProductRow>, productCategories: seq<ProductCategoryRow>, sizes: seq<SizeRow>)

  function CatalogOf(db: Db): Catalog
    reads db
  {
    Catalog(db.brands, db.nextBrandId, db.categories, db.nextCategoryId,
            db.products, db.productCategories, db.sizes)
  }

  /** The state an import step goes from and to: the tables and the report so far. */
  datatype Import = Import(cat: Catalog, log: ImportLog)

  // ---- brands ----

  /** `select ... from brands where name = n limit 1` */
  function BrandByName(brands: seq<BrandRow>, name: string): (r: Option<nat>)
    ensures r.Some? ==> r.value < |brands| && brands[r.value].name == name
    ensures r.None? <==> forall j :: 0 <= j < |brands| ==> brands[j].name != name
  {
    BrandFrom(brands, name, 0)
  }

  function BrandFrom(brands: seq<BrandRow>, name: string, k: nat): (r: Option<nat>)
    requires k <= |brands|
    ensures r.Some? ==> k <= r.value < |brands| && brands[r.value].name == name
    ensures r.None? <==> forall j :: k <= j < |brands| ==> brands[j].name != name
    decreases |brands| - k
  {
    if k == |brands| then None
    else if brands[k].name == name then Some(k)
    else BrandFrom(brands, name, k + 1)
  }

  /** One record of the Brands sheet: an error without a name, skipped when the name is
      stored, otherwise inserted. */
  function BrandStep(s: Import, row: BrandSheetRow): Import {
    if !Present(row.name) then Import(s.cat, AddError(s.log, BrandNameMissing))
    else if BrandByName(s.cat.brands, row.name.value).Some? then Import(s.cat, s.log.(skipped := s.log.skipped + 1))
    else
      Import(s.cat.(brands := s.cat.brands + [BrandRow(s.cat.nextBrandId, row.name.value)],
                    nextBrandId := s.cat.nextBrandId + 1),
             s.log.(added := s.log.added + 1))
  }

  /** The state after the first `n` records of the Brands sheet. */
  function BrandsFirst(s: Import, rows: seq<BrandSheetRow>, n: nat): Import
    requires n <= |rows|
  {
    if n == 0 then s else BrandStep(BrandsFirst(s, rows, n - 1), rows[n - 1])
  }

  /** Each record counts exactly once in the report, only the brand table changes, and a
      record is inserted exactly when its name is new. */
  lemma BrandStepShape(s: Import, row: BrandSheetRow)
    ensures Tally(BrandStep(s, row).log) == Tally(s.log) + 1
    ensures BrandStep(s, row).cat.(brands := s.cat.brands, nextBrandId := s.cat.nextBrandId) == s.cat
    ensures BrandStep(s, row).log.added == s.log.added + 1 <==>
      Present(row.name) && forall j :: 0 <= j < |s.cat.brands| ==> s.cat.brands[j].name != row.name.value
    ensures Present(row.name) ==> BrandByName(BrandStep(s, row).cat.brands, row.name.value).Some?
    ensures s.cat.brands <= BrandStep(s, row).cat.brands
  {
    if Present(row.name) && BrandByName(s.cat.brands, row.name.value).None? {
      var bs := BrandStep(s, row).cat.brands;
      assert bs[|s.cat.brands|].name == row.name.value;
    }
  }

  /** The sheet as a whole: one report entry per record. */
  lemma {:induction false} BrandsTally(s: Import, rows: seq<BrandSheetRow>, n: nat)
    requires n <= |rows|
    ensures Tally(BrandsFirst(s, rows, n).log) == Tally(s.log) + n
  {
    if n > 0 {
      BrandsTally(s, rows, n - 1);
      BrandStepShape(BrandsFirst(s, rows, n - 1), rows[n - 1]);
    }
  }

  lemma {:induction false} BrandFromPrefix(brands: seq<BrandRow>, extra: seq<BrandRow>, name: string, k: nat)
    requires k <= |brands|
    requires BrandFrom(brands, name, k).Some?
    ensures BrandFrom(brands + extra, name, k) == BrandFrom(brands, name, k)
    decreases |brands| - k
  {
    assert (brands + extra)[k] == brands[k];
    if brands[k].name != name {
      BrandFromPrefix(brands, extra, name, k + 1);
    }
  }

  /** Every named record of the first `n` finds its brand by name. */
  ghost predicate BrandsKnown(brands: seq<BrandRow>, rows: seq<BrandSheetRow>, n: nat)
    requires n <= |rows|
  {
    forall j :: 0 <= j < n && Present(rows[j].name) ==> BrandByName(brands, rows[j].name.value).Some?
  }

  lemma {:induction false} BrandsLearned(s: Import, rows: seq<BrandSheetRow>, n: nat)
    requires n <= |rows|
    ensures BrandsKnown(BrandsFirst(s, rows, n).cat.brands, rows, n)
    ensures s.cat.brands <= BrandsFirst(s, rows, n).cat.brands
  {
    if n > 0 {
      var prev := BrandsFirst(s, rows, n - 1);
      BrandsLearned(s, rows, n - 1);
      BrandStepShape(prev, rows[n - 1]);
      var bs := BrandsFirst(s, rows, n).cat.brands;
      var extra := bs[|prev.cat.brands|..];
      assert bs == prev.cat.brands + extra;
      forall j | 0 <= j < n && Present(rows[j].name)
        ensures BrandByName(bs, rows[j].name.value).Some?
      {
        if j < n - 1 {
          BrandFromPrefix(prev.cat.brands, extra, rows[j].name.value, 0);
        }
      }
    }
  }

  /** Importing records whose names are all stored changes no table and adds nothing. */
  lemma {:induction false} BrandsIdle(s: Import, rows: seq<BrandSheetRow>, n: nat)
    requires n <= |rows|
    requires BrandsKnown(s.cat.brands, rows, |rows|)
    ensures BrandsFirst(s, rows, n).cat == s.cat
    ensures BrandsFirst(s, rows, n).log.added == s.log.added
  {
    if n > 0 {
      BrandsIdle(s, rows, n - 1);
    }
  }

  /** Importing the same Brands sheet a second time changes no table and adds nothing. */
  lemma BrandsTwice(s: Import, rows: seq<BrandSheetRow>, log: ImportLog)
    ensures var once := BrandsFirst(s, rows, |rows|);
      var twice := BrandsFirst(Import(once.cat, log), rows, |rows|);
      twice.cat == once.cat && twice.log.added == log.added
  {
    var once := BrandsFirst(s, rows, |rows|);
    BrandsLearned(s, rows, |rows|);
    BrandsIdle(Import(once.cat, log), rows, |rows|);
  }

  /** One record of the Brands sheet, as the loop body runs it. */
  method ImportBrand(db: Db, row: BrandSheetRow, log: ImportLog) returns (next: ImportLog)
    modifies db`brands, db`nextBrandId
    ensures Import(CatalogOf(db), next) == BrandStep(Import(old(CatalogOf(db)), log), row)
  {
    if row.name.None? || row.name.value == "" {
      return AddError(log, BrandNameMissing);
    }
    var existing := BrandByName(db.brands, row.name.value);
    if existing.Some? {
      return log.(skipped := log.skipped + 1);
    }
    db.brands := db.brands + [BrandRow(db.nextBrandId, row.name.value)];
    db.nextBrandId := db.nextBrandId + 1;
    next := log.(added := log.added + 1);
  }

  method ImportBrands(db: Db, rows: seq<BrandSheetRow>, log: ImportLog) returns (next: ImportLog)
    modifies db`brands, db`nextBrandId
    ensures Import(CatalogOf(db), next) == BrandsFirst(Import(old(CatalogOf(db)), log), rows, |rows|)
  {
    ghost var start := Import(CatalogOf(db), log);
    next := log;
    var i := 0;
    while i < |rows|
      invariant 0 <= i <= |rows|
      invariant Import(CatalogOf(db), next) == BrandsFirst(start, rows, i)
    {
      next := ImportBrand(db, rows[i], next);
      i := i + 1;
    }
  }

  // ---- categories ----

  /** `select ... from categories where name = n limit 1` */
  function CategoryByName(categories: seq<CategoryRow>, name: string): (r: Option<nat>)
    ensures r.Some? ==> r.value < |categories| && categories[r.value].name == name
    ensures r.None? <==> forall j :: 0 <= j < |categories| ==> categories[j].name != name
  {
    CategoryFrom(categories, name, 0)
  }

  function CategoryFrom(categories: seq<CategoryRow>, name: string, k: nat): (r: Option<nat>)
    requires k <= |categories|
    ensures r.Some? ==> k <= r.value < |categories| && categories[r.value].name == name
    ensures r.None? <==> forall j :: k <= j < |categories| ==> categories[j].name != name
    decreases |categories| - k
  {
    if k == |categories| then None
    else if categories[k].name == name then Some(k)
    else CategoryFrom(categories, name, k + 1)
  }

  /** `update categories set imageUrl = u where categoryId = id` */
  function SetCategoryImage(categories: seq<CategoryRow>, id: int, url: string): (r: seq<CategoryRow>)
    ensures |r| == |categories|
    ensures forall i :: 0 <= i < |r| ==>
      r[i] == if categories[i].categoryId == id then categories[i].(imageUrl := Some(url)) else categories[i]
  {
    seq(|categories|, i requires 0 <= i < |categories| =>
      if categories[i].categoryId == id then categories[i].(imageUrl := Some(url)) else categories[i])
  }

  /** `category.imageUrl && category.imageUrl !== existing.imageUrl` */
  predicate NewPicture(row: CategorySheetRow, stored: CategoryRow) {
    Present(row.imageUrl) && Some(row.imageUrl.value) != stored.imageUrl
  }

  /** One record of the Categories sheet: an error without a name; for a stored name, an
      update of the picture when the record brings a different one and skipped otherwise;
      a new name is inserted with its picture, an empty one stored as null. */
  function CategoryStep(s: Import, row: CategorySheetRow): Import {
    if !Present(row.name) then Import(s.cat, AddError(s.log, CategoryNameMissing))
    else
      match CategoryByName(s.cat.categories, row.name.value)
      case Some(k) =>
        if NewPicture(row, s.cat.categories[k]) then
          Import(s.cat.(categories := SetCategoryImage(s.cat.categories, s.cat.categories[k].categoryId, row.imageUrl.value)),
                 s.log.(updated := s.log.updated + 1))
        else Import(s.cat, s.log.(skipped := s.log.skipped + 1))
      case None =>
        Import(s.cat.(categories := s.cat.categories +
                        [CategoryRow(s.cat.nextCategoryId, row.name.value,
                                     if Present(row.imageUrl) then Some(row.imageUrl.value) else None)],
                      nextCategoryId := s.cat.nextCategoryId + 1),
               s.log.(added := s.log.added + 1))
  }

  function CategoriesFirst(s: Import, rows: seq<CategorySheetRow>, n: nat): Import
    requires n <= |rows|
  {
    if n == 0 then s else CategoryStep(CategoriesFirst(s, rows, n - 1), rows[n - 1])
  }

  /** Two category tables with the same names, row for row. */
  ghost predicate SameNames(c1: seq<CategoryRow>, c2: seq<CategoryRow>) {
    |c1| == |c2| && forall i :: 0 <= i < |c1| ==> c1[i].name == c2[i].name
  }

  lemma {:induction false} SameNamesFrom(c1: seq<CategoryRow>, c2: seq<CategoryRow>, name: string, k: nat)
    requires SameNames(c1, c2) && k <= |c1|
    ensures CategoryFrom(c1, name, k) == CategoryFrom(c2, name, k)
    decreases |c1| - k
  {
    if k < |c1| {
      SameNamesFrom(c1, c2, name, k + 1);
    }
  }

  /** A stored category is updated exactly when the record brings a non-empty picture that
      differs from the stored one, and the name then finds the new picture; otherwise the
      record is skipped. The names of the table never change and each record counts once. */
  lemma CategoryStepShape(s: Import, row: CategorySheetRow)
    ensures Tally(CategoryStep(s, row).log) == Tally(s.log) + 1
    ensures CategoryStep(s, row).cat.(categories := s.cat.categories, nextCategoryId := s.cat.nextCategoryId) == s.cat
    ensures Present(row.name) && CategoryByName(s.cat.categories, row.name.value).Some? ==>
      var k := CategoryByName(s.cat.categories, row.name.value).value;
      var after := CategoryStep(s, row);
      && SameNames(after.cat.categories, s.cat.categories)
      && after.cat.nextCategoryId == s.cat.nextCategoryId
      && (after.log.updated == s.log.updated + 1 <==> NewPicture(row, s.cat.categories[k]))
      && (after.log.skipped == s.log.skipped + 1 <==> !NewPicture(row, s.cat.categories[k]))
      && (NewPicture(row, s.cat.categories[k]) ==>
            CategoryByName(after.cat.categories, row.name.value) == Some(k)
            && after.cat.categories[k].imageUrl == row.imageUrl)
      && (!NewPicture(row, s.cat.categories[k]) ==> after.cat == s.cat)
  {
    if Present(row.name) && CategoryByName(s.cat.categories, row.name.value).Some? {
      var k := CategoryByName(s.cat.categories, row.name.value).value;
      var after := CategoryStep(s, row);
      if NewPicture(row, s.cat.categories[k]) {
        SameNamesFrom(after.cat.categories, s.cat.categories, row.name.value, 0);
      }
    }
  }

  lemma {:induction false} CategoriesTally(s: Import, rows: seq<CategorySheetRow>, n: nat)
    requires n <= |rows|
    ensures Tally(CategoriesFirst(s, rows, n).log) == Tally(s.log) + n
  {
    if n > 0 {
      CategoriesTally(s, rows, n - 1);
      CategoryStepShape(CategoriesFirst(s, rows, n - 1), rows[n - 1]);
    }
  }

  ghost predicate CategoriesKnown(categories: seq<CategoryRow>, rows: seq<CategorySheetRow>, n: nat)
    requires n <= |rows|
  {
    forall j :: 0 <= j < n && Present(rows[j].name) ==> CategoryByName(categories, rows[j].name.value).Some?
  }

  lemma {:induction false} CategoryFromPrefix(cs: seq<CategoryRow>, extra: seq<CategoryRow>, name: string, k: nat)
    requires k <= |cs|
    requires CategoryFrom(cs, name, k).Some?
    ensures CategoryFrom(cs + extra, name, k) == CategoryFrom(cs, name, k)
    decreases |cs| - k
  {
    assert (cs + extra)[k] == cs[k];
    if cs[k].name != name {
      CategoryFromPrefix(cs, extra, name, k + 1);
    }
  }

  /** After one record, every name found before is still found. */
  lemma CategoryStepKeeps(s: Import, row: CategorySheetRow, name: string)
    requires CategoryByName(s.cat.categories, name).Some?
    ensures CategoryByName(CategoryStep(s, row).cat.categories, name).Some?
  {
    var cs := s.cat.categories;
    var after := CategoryStep(s, row).cat.categories;
    if Present(row.name) {
      match CategoryByName(cs, row.name.value)
      case Some(k) =>
        if NewPicture(row, cs[k]) {
          SameNamesFrom(after, cs, name, 0);
        }
      case None =>
        CategoryFromPrefix(cs, after[|cs|..], name, 0);
        assert after == cs + after[|cs|..];
    }
  }

  lemma {:induction false} CategoriesLearned(s: Import, rows: seq<CategorySheetRow>, n: nat)
    requires n <= |rows|
    ensures CategoriesKnown(CategoriesFirst(s, rows, n).cat.categories, rows, n)
  {
    if n > 0 {
      var prev := CategoriesFirst(s, rows, n - 1);
      CategoriesLearned(s, rows, n - 1);
      var row := rows[n - 1];
      var cs := CategoriesFirst(s, rows, n).cat.categories;
      forall j | 0 <= j < n && Present(rows[j].name)
        ensures CategoryByName(cs, rows[j].name.value).Some?
      {
        if j < n - 1 {
          CategoryStepKeeps(prev, row, rows[j].name.value);
        } else if CategoryByName(prev.cat.categories, row.name.value).Some? {
          CategoryStepKeeps(prev, row, row.name.value);
        } else {
          assert cs[|prev.cat.categories|].name == row.name.value;
        }
      }
    }
  }

  /** Importing records whose names are all stored inserts no category. */
  lemma {:induction false} CategoriesIdle(s: Import, rows: seq<CategorySheetRow>, n: nat)
    requires n <= |rows|
    requires CategoriesKnown(s.cat.categories, rows, |rows|)
    ensures SameNames(CategoriesFirst(s, rows, n).cat.categories, s.cat.categories)
    ensures CategoriesFirst(s, rows, n).cat.nextCategoryId == s.cat.nextCategoryId
    ensures CategoriesFirst(s, rows, n).log.added == s.log.added
  {
    if n > 0 {
      CategoriesIdle(s, rows, n - 1);
      var prev := CategoriesFirst(s, rows, n - 1);
      var row := rows[n - 1];
      if Present(row.name) {
        SameNamesFrom(prev.cat.categories, s.cat.categories, row.name.value, 0);
        CategoryStepShape(prev, row);
      }
    }
  }

  /** Importing the same Categories sheet a second time adds no category: the table keeps its
      rows and names, and the report adds nothing. */
  lemma CategoriesTwice(s: Import, rows: seq<CategorySheetRow>, log: ImportLog)
    ensures var once := CategoriesFirst(s, rows, |rows|);
      var twice := CategoriesFirst(Import(once.cat, log), rows, |rows|);
      && SameNames(twice.cat.categories, once.cat.categories)
      && twice.cat.nextCategoryId == once.cat.nextCategoryId
      && twice.log.added == log.added
  {
    var once := CategoriesFirst(s, rows, |rows|);
    CategoriesLearned(s, rows, |rows|);
    CategoriesIdle(Import(once.cat, log), rows, |rows|);
  }

  method ImportCategory(db: Db, row: CategorySheetRow, log: ImportLog) returns (next: ImportLog)
    modifies db`categories, db`nextCategoryId
    ensures Import(CatalogOf(db), next) == CategoryStep(Import(old(CatalogOf(db)), log), row)
  {
    if row.name.None? || row.name.value == "" {
      return AddError(log, CategoryNameMissing);
    }
    var existing := CategoryByName(db.categories, row.name.value);
    if existing.Some? {
      var stored := db.categories[existing.value];
      if row.imageUrl.Some? && row.imageUrl.value != "" && Some(row.imageUrl.value) != stored.imageUrl {
        db.categories := SetCategoryImage(db.categories, stored.categoryId, row.imageUrl.value);
        next := log.(updated := log.updated + 1);
      } else {
        next := log.(skipped := log.skipped + 1);
      }
    } else {
      var picture := if row.imageUrl.Some? && row.imageUrl.value != "" then row.imageUrl else None;
      db.categories := db.categories + [CategoryRow(db.nextCategoryId, row.name.value, picture)];
      db.nextCategoryId := db.nextCategoryId + 1;
      next := log.(added := log.added + 1);
    }
  }

  method ImportCategories(db: Db, rows: seq<CategorySheetRow>, log: ImportLog) returns (next: ImportLog)
    modifies db`categories, db`nextCategoryId
    ensures Import(CatalogOf(db), next) == CategoriesFirst(Import(old(CatalogOf(db)), log), rows, |rows|)
  {
    ghost var start := Import(CatalogOf(db), log);
    next := log;
    var i := 0;
    while i < |rows|
      invariant 0 <= i <= |rows|
      invariant Import(CatalogOf(db), next) == CategoriesFirst(start, rows, i)
    {
      next := ImportCategory(db, rows[i], next);
      i := i + 1;
    }
  }

  // ---- products ----

  /** `String(cell).split(",").map(url => url.trim())` for a truthy cell, `[]` otherwise. */
  function ImageList(cell: Option<string>): seq<string> {
    if Present(cell) then TrimAll(Split(cell.value, ',')) else []
  }

  /** An absent cell gives no images; a present one gives at least one part, each trimmed and
      free of commas. */
  lemma ImageListShape(cell: Option<string>)
    ensures !Present(cell) <==> ImageList(cell) == []
    ensures forall i :: 0 <= i < |ImageList(cell)| ==> Trimmed(ImageList(cell)[i]) && ',' !in ImageList(cell)[i]
  {
    if Present(cell) {
      var parts := Split(cell.value, ',');
      forall i | 0 <= i < |parts|
        ensures Trimmed(ImageList(cell)[i]) && ',' !in ImageList(cell)[i]
      {
        TrimIsTrimmed(parts[i]);
        TrimWithin(parts[i], ',');
      }
    }
  }

  /** The outcome of the checks a product record passes before anything is written. */
  datatype Vetted =
    | Rejected(error: ImportError)
    | Accepted(articleNumber: string, brandId: int, categoryId: int, price: int, images: seq<string>)

  predicate FieldsPresent(row: ProductSheetRow) {
    && Present(row.articleNumber) && Present(row.brand) && Present(row.category)
    && Truthy(row.price) && Present(row.name)
  }

  /** Required fields, a numeric price, a stored brand and a stored category, in that order. */
  function Vet(cat: Catalog, row: ProductSheetRow): Vetted {
    if !FieldsPresent(row) then Rejected(ProductFieldsMissing)
    else if !row.price.Number? then Rejected(PriceNotNumber(row.articleNumber.value))
    else
      match BrandByName(cat.brands, row.brand.value)
      case None => Rejected(UnknownBrand(row.articleNumber.value, row.brand.value))
      case Some(b) =>
        match CategoryByName(cat.categories, row.category.value)
        case None => Rejected(UnknownCategory(row.articleNumber.value, row.category.value))
        case Some(c) =>
          Accepted(row.articleNumber.value, cat.brands[b].brandId, cat.categories[c].categoryId,
                   row.price.n, ImageList(row.imageUrls))
  }

  /** A record is accepted exactly when its fields are present, its price is a number and its
      brand and category are stored; it then carries that brand's and category's ids. */
  lemma VetShape(cat: Catalog, row: ProductSheetRow)
    ensures Vet(cat, row).Accepted? <==>
      && FieldsPresent(row) && row.price.Number?
      && BrandByName(cat.brands, row.brand.value).Some?
      && CategoryByName(cat.categories, row.category.value).Some?
    ensures Vet(cat, row).Accepted? ==>
      var v := Vet(cat, row);
      && v.articleNumber == row.articleNumber.value && v.price == row.price.n
      && (exists i :: 0 <= i < |cat.brands| && cat.brands[i] == BrandRow(v.brandId, row.brand.value))
      && (exists i :: 0 <= i < |cat.categories| && cat.categories[i].categoryId == v.categoryId
                      && cat.categories[i].name == row.category.value)
  {
    if Vet(cat, row).Accepted? {
      var b := BrandByName(cat.brands, row.brand.value).value;
      var c := CategoryByName(cat.categories, row.category.value).value;
      assert cat.brands[b] == BrandRow(Vet(cat, row).brandId, row.brand.value);
      assert cat.categories[c].categoryId == Vet(cat, row).categoryId;
    }
  }

  /** `x || fallback` for a text field. */
  function OrElse(field: Option<string>, fallback: string): string {
    if Present(field) then field.value else fallback
  }

  /** `product.discount ? Number(product.discount) : fallback` */
  function DiscountOr(discount: Option<int>, fallback: int): int {
    if discount.Some? && discount.value != 0 then discount.value else fallback
  }

  /** The duplicate test: name, price, description (default "") and image list all equal. */
  predicate Duplicate(p: ProductRow, row: ProductSheetRow, v: Vetted)
    requires v.Accepted? && Present(row.name)
  {
    p.name == row.name.value && p.price == v.price && p.description == OrElse(row.description, "")
    && p.imageUrls == v.images
  }

  /** The stored product after an update: the record's brand, price and name, the old discount,
      description and images where the record leaves them out, and switched on. */
  function UpdatedRow(p: ProductRow, row: ProductSheetRow, v: Vetted): ProductRow
    requires v.Accepted? && Present(row.name)
  {
    ProductRow(p.articleNumber, v.brandId, v.price, DiscountOr(row.discount, p.discount), row.name.value,
               OrElse(row.description, p.description), if |v.images| > 0 then v.images else p.imageUrls, true)
  }

  function NewRow(row: ProductSheetRow, v: Vetted): ProductRow
    requires v.Accepted? && Present(row.name)
  {
    ProductRow(v.articleNumber, v.brandId, v.price, DiscountOr(row.discount, 0), row.name.value,
               OrElse(row.description, ""), v.images, true)
  }

  /** `imageUrls[0] || null` */
  function Picture(images: seq<string>): Option<string> {
    if |images| > 0 && images[0] != "" then Some(images[0]) else None
  }

  /** `update products set ... where articleNumber = a` with the values of one row. */
  function SetProductRows(products: seq<ProductRow>, a: string, p: ProductRow): (r: seq<ProductRow>)
    ensures |r| == |products|
    ensures forall i :: 0 <= i < |r| ==> r[i] == if products[i].articleNumber == a then p else products[i]
  {
    seq(|products|, i requires 0 <= i < |products| => if products[i].articleNumber == a then p else products[i])
  }

  /** `update productCategories set categoryId = c, imageUrl = u where articleNumber = a` */
  function SetProductCategory(links: seq<ProductCategoryRow>, a: string, categoryId: int, picture: Option<string>)
    : (r: seq<ProductCategoryRow>)
    ensures |r| == |links|
    ensures forall i :: 0 <= i < |r| ==>
      r[i] == if links[i].articleNumber == a then ProductCategoryRow(a, categoryId, picture) else links[i]
  {
    seq(|links|, i requires 0 <= i < |links| =>
      if links[i].articleNumber == a then ProductCategoryRow(a, categoryId, picture) else links[i])
  }

  /** A stored product's sizes: replaced when the cell holds a list, else left alone. */
  function SizesAfterUpdate(sizes: seq<SizeRow>, a: string, cell: SizesCell): seq<SizeRow> {
    if cell.SizeList? then ReplaceSizes(sizes, a, cell.entries) else sizes
  }

  /** A new product's sizes: appended when the cell holds a list. */
  function SizesAfterInsert(sizes: seq<SizeRow>, a: string, cell: SizesCell): seq<SizeRow> {
    if cell.SizeList? then sizes + KeptSizes(a, cell.entries) else sizes
  }

  function SizeErrors(a: string, cell: SizesCell): seq<ImportError> {
    if cell.Unreadable? then [SizesUnreadable(a)] else []
  }

  /** One record of the Products sheet. */
  function ProductStep(s: Import, row: ProductSheetRow): Import {
    var v := Vet(s.cat, row);
    if v.Rejected? then Import(s.cat, AddError(s.log, v.error))
    else
      var a := v.articleNumber;
      var log := s.log.(errors := s.log.errors + SizeErrors(a, row.sizes));
      match ProductIndex(s.cat.products, a)
      case Some(k) =>
        if Duplicate(s.cat.products[k], row, v) then Import(s.cat, s.log.(skipped := s.log.skipped + 1))
        else
          Import(s.cat.(products := SetProductRows(s.cat.products, a, UpdatedRow(s.cat.products[k], row, v)),
                        productCategories := SetProductCategory(s.cat.productCategories, a, v.categoryId, Picture(v.images)),
                        sizes := SizesAfterUpdate(s.cat.sizes, a, row.sizes)),
                 log.(updated := log.updated + 1))
      case None =>
        Import(s.cat.(products := s.cat.products + [NewRow(row, v)],
                      productCategories := s.cat.productCategories + [ProductCategoryRow(a, v.categoryId, Picture(v.images))],
                      sizes := SizesAfterInsert(s.cat.sizes, a, row.sizes)),
               log.(added := log.added + 1))
  }

  function ProductsFirst(s: Import, rows: seq<ProductSheetRow>, n: nat): Import
    requires n <= |rows|
  {
    if n == 0 then s else ProductStep(ProductsFirst(s, rows, n - 1), rows[n - 1])
  }

  /** A rejected record writes nothing and logs exactly its error. */
  lemma RejectedWritesNothing(s: Import, row: ProductSheetRow)
    requires Vet(s.cat, row).Rejected?
    ensures ProductStep(s, row) == Import(s.cat, AddError(s.log, Vet(s.cat, row).error))
  {
  }

  /** A duplicate writes nothing and is skipped, whatever its brand, category, discount and
      sizes say: two records that agree on article, name, price, description and image cell
      and both pass the checks have the same effect on a product they duplicate. */
  lemma DuplicateIgnoresRest(s: Import, row: ProductSheetRow, other: ProductSheetRow)
    requires Vet(s.cat, row).Accepted? && Vet(s.cat, other).Accepted?
    requires other.articleNumber == row.articleNumber && other.name == row.name && other.price == row.price
    requires OrElse(other.description, "") == OrElse(row.description, "") && other.imageUrls == row.imageUrls
    requires ProductIndex(s.cat.products, row.articleNumber.value).Some?
    requires Duplicate(s.cat.products[ProductIndex(s.cat.products, row.articleNumber.value).value], row, Vet(s.cat, row))
    ensures ProductStep(s, other) == ProductStep(s, row) == Import(s.cat, s.log.(skipped := s.log.skipped + 1))
  {
    var v := Vet(s.cat, row);
    var w := Vet(s.cat, other);
    var p := s.cat.products[ProductIndex(s.cat.products, row.articleNumber.value).value];
    assert w.articleNumber == v.articleNumber && w.price == v.price && w.images == v.images;
    assert Duplicate(p, other, w);
  }

  /** Updating an existing product from a record that leaves out the description, the discount
      and the images keeps the stored ones and switches the product on; the record's size
      list, when it has one, becomes the product's whole size set. */
  lemma UpdateKeepsOmitted(s: Import, row: ProductSheetRow)
    requires Vet(s.cat, row).Accepted?
    requires !Present(row.description) && DiscountOr(row.discount, 0) == 0 && !Present(row.imageUrls)
    requires ProductIndex(s.cat.products, row.articleNumber.value).Some?
    ensures var k := ProductIndex(s.cat.products, row.articleNumber.value).value;
      var p := s.cat.products[k];
      var after := ProductStep(s, row).cat;
      && |after.products| == |s.cat.products|
      && after.products[k] == (if Duplicate(p, row, Vet(s.cat, row)) then p
                              else p.(brandId := Vet(s.cat, row).brandId, price := row.price.n,
                                      name := row.name.value, isActive := true))
      && (row.sizes.SizeList? && !Duplicate(p, row, Vet(s.cat, row)) ==>
            SizesOf(after.sizes, p.articleNumber) == KeptSizes(p.articleNumber, row.sizes.entries))
  {
    var v := Vet(s.cat, row);
    var k := ProductIndex(s.cat.products, row.articleNumber.value).value;
    assert ImageList(row.imageUrls) == [];
    if row.sizes.SizeList? {
      ReplaceSizesOwn(s.cat.sizes, v.articleNumber, row.sizes.entries);
    }
  }

  /** Each record counts once in the added/updated/skipped/error report, and once more only
      when it reached the write with a sizes cell that is not JSON. */
  lemma ProductStepTally(s: Import, row: ProductSheetRow)
    ensures Tally(s.log) + 1 <= Tally(ProductStep(s, row).log) <= Tally(s.log) + 2
    ensures !row.sizes.Unreadable? ==> Tally(ProductStep(s, row).log) == Tally(s.log) + 1
  {
  }

  /** The import keeps article numbers distinct: a record inserts only an article that is not
      stored, and an update keeps every row's article. */
  lemma ProductStepKeys(s: Import, row: ProductSheetRow)
    requires DistinctArticles(s.cat.products)
    ensures DistinctArticles(ProductStep(s, row).cat.products)
  {
    var v := Vet(s.cat, row);
    if v.Accepted? {
      match ProductIndex(s.cat.products, v.articleNumber)
      case Some(k) =>
        var ps := ProductStep(s, row).cat.products;
        forall i, j | 0 <= i < j < |ps| ensures ps[i].articleNumber != ps[j].articleNumber {
          assert ps[i].articleNumber == s.cat.products[i].articleNumber;
          assert ps[j].articleNumber == s.cat.products[j].articleNumber;
        }
      case None =>
        AppendProduct(s.cat.products, NewRow(row, v));
    }
  }

  lemma {:induction false} ProductsKeys(s: Import, rows: seq<ProductSheetRow>, n: nat)
    requires n <= |rows|
    requires DistinctArticles(s.cat.products)
    ensures DistinctArticles(ProductsFirst(s, rows, n).cat.products)
  {
    if n > 0 {
      ProductsKeys(s, rows, n - 1);
      ProductStepKeys(ProductsFirst(s, rows, n - 1), rows[n - 1]);
    }
  }

  /** A record for a stored product, once it passed the checks and is not a duplicate. */
  method UpdateFromRow(db: Db, row: ProductSheetRow, v: Vetted, k: nat, log: ImportLog) returns (next: ImportLog)
    requires v.Accepted? && Present(row.name) && k < |db.products|
    modifies db`products, db`productCategories, db`sizes
    ensures CatalogOf(db) == old(CatalogOf(db)).(
      products := SetProductRows(old(db.products), v.articleNumber, UpdatedRow(old(db.products)[k], row, v)),
      productCategories := SetProductCategory(old(db.productCategories), v.articleNumber, v.categoryId, Picture(v.images)),
      sizes := SizesAfterUpdate(old(db.sizes), v.articleNumber, row.sizes))
    ensures next == log.(errors := log.errors + SizeErrors(v.articleNumber, row.sizes), updated := log.updated + 1)
  {
    var a := v.articleNumber;
    db.products := SetProductRows(db.products, a, UpdatedRow(db.products[k], row, v));
    db.productCategories := SetProductCategory(db.productCategories, a, v.categoryId, Picture(v.images));
    next := log;
    match row.sizes {
      case SizeList(entries) =>
        db.sizes := DropSizes(db.sizes, a);
        InsertSizes(db, a, entries);
      case Unreadable =>
        next := AddError(next, SizesUnreadable(a));
      case _ =>
    }
    next := next.(updated := next.updated + 1);
  }

  /** A record for a new article, once it passed the checks. */
  method InsertFromRow(db: Db, row: ProductSheetRow, v: Vetted, log: ImportLog) returns (next: ImportLog)
    requires v.Accepted? && Present(row.name)
    modifies db`products, db`productCategories, db`sizes
    ensures CatalogOf(db) == old(CatalogOf(db)).(
      products := old(db.products) + [NewRow(row, v)],
      productCategories := old(db.productCategories) + [ProductCategoryRow(v.articleNumber, v.categoryId, Picture(v.images))],
      sizes := SizesAfterInsert(old(db.sizes), v.articleNumber, row.sizes))
    ensures next == log.(errors := log.errors + SizeErrors(v.articleNumber, row.sizes), added := log.added + 1)
  {
    var a := v.articleNumber;
    db.products := db.products + [NewRow(row, v)];
    db.productCategories := db.productCategories + [ProductCategoryRow(a, v.categoryId, Picture(v.images))];
    next := log;
    match row.sizes {
      case SizeList(entries) =>
        InsertSizes(db, a, entries);
      case Unreadable =>
        next := AddError(next, SizesUnreadable(a));
      case _ =>
    }
    next := next.(added := next.added + 1);
  }

  method ImportProduct(db: Db, row: ProductSheetRow, log: ImportLog) returns (next: ImportLog)
    modifies db`products, db`productCategories, db`sizes
    ensures Import(CatalogOf(db), next) == ProductStep(Import(old(CatalogOf(db)), log), row)
  {
    var v := Vet(CatalogOf(db), row);
    if v.Rejected? {
      return AddError(log, v.error);
    }
    var existing := ProductIndex(db.products, v.articleNumber);
    if existing.Some? {
      if Duplicate(db.products[existing.value], row, v) {
        return log.(skipped := log.skipped + 1);
      }
      next := UpdateFromRow(db, row, v, existing.value, log);
    } else {
      next := InsertFromRow(db, row, v, log);
    }
  }

  method ImportProducts(db: Db, rows: seq<ProductSheetRow>, log: ImportLog) returns (next: ImportLog)
    modifies db`products, db`productCategories, db`sizes
    ensures Import(CatalogOf(db), next) == ProductsFirst(Import(old(CatalogOf(db)), log), rows, |rows|)
  {
    ghost var start := Import(CatalogOf(db), log);
    next := log;
    var i := 0;
    while i < |rows|
      invariant 0 <= i <= |rows|
      invariant Import(CatalogOf(db), next) == ProductsFirst(start, rows, i)
    {
      next := ImportNthProduct(db, rows, i, next, start);
      i := i + 1;
    }
  }

  /** The loop body: record `i` applied to the state after the records before it. */
  method ImportNthProduct(db: Db, rows: seq<ProductSheetRow>, i: nat, log: ImportLog, ghost start: Import)
    returns (next: ImportLog)
    requires i < |rows| && Import(CatalogOf(db), log) == ProductsFirst(start, rows, i)
    modifies db`products, db`productCategories, db`sizes
    ensures Import(CatalogOf(db), next) == ProductsFirst(start, rows, i + 1)
  {
    ghost var before := Import(CatalogOf(db), log);
    next := ImportProduct(db, rows[i], log);
    ProductsFirstNext(start, rows, i, before, Import(CatalogOf(db), next));
  }

  lemma ProductsFirstNext(s: Import, rows: seq<ProductSheetRow>, i: nat, before: Import, after: Import)
    requires i < |rows|
    requires before == ProductsFirst(s, rows, i) && after == ProductStep(before, rows[i])
    ensures after == ProductsFirst(s, rows, i + 1)
  {
  }

  // ---- the route ----

  /** The whole import: 400 without a file or without one of the three sheets; otherwise the
      sheets are applied in order, brands, then categories, then products. */
  function Upload(cat: Catalog, file: Option<Workbook>): Result<Import> {
    if file.None? then Fail(BadRequest)
    else
      var wb := file.value;
      if wb.brands.None? || wb.categories.None? || wb.products.None? then Fail(BadRequest)
      else
        var s1 := BrandsFirst(Import(cat, ImportLog(0, 0, 0, [])), wb.brands.value, |wb.brands.value|);
        var s2 := CategoriesFirst(s1, wb.categories.value, |wb.categories.value|);
        Ok(ProductsFirst(s2, wb.products.value, |wb.products.value|))
  }

  /** The report of a successful import counts every record of the Brands and Categories
      sheets once and every record of the Products sheet once or twice, and the import keeps
      article numbers distinct. */
  lemma UploadReport(cat: Catalog, file: Option<Workbook>)
    requires DistinctArticles(cat.products)
    ensures Upload(cat, file).Ok? <==>
      file.Some? && file.value.brands.Some? && file.value.categories.Some? && file.value.products.Some?
    ensures Upload(cat, file).Ok? ==>
      var wb := file.value;
      var sheets := |wb.brands.value| + |wb.categories.value|;
      var r := Upload(cat, file).value;
      && sheets + |wb.products.value| <= Tally(r.log) <= sheets + 2 * |wb.products.value|
      && DistinctArticles(r.cat.products)
  {
    if Upload(cat, file).Ok? {
      var wb := file.value;
      var s0 := Import(cat, ImportLog(0, 0, 0, []));
      var s1 := BrandsFirst(s0, wb.brands.value, |wb.brands.value|);
      var s2 := CategoriesFirst(s1, wb.categories.value, |wb.categories.value|);
      BrandsTally(s0, wb.brands.value, |wb.brands.value|);
      CategoriesTally(s1, wb.categories.value, |wb.categories.value|);
      ProductsTally(s2, wb.products.value, |wb.products.value|);
      BrandsCatalog(s0, wb.brands.value, |wb.brands.value|);
      CategoriesCatalog(s1, wb.categories.value, |wb.categories.value|);
      ProductsKeys(s2, wb.products.value, |wb.products.value|);
    }
  }

  /** The report grew by between one and two entries per record. */
  ghost predicate TallyWithin(before: ImportLog, after: ImportLog, n: nat) {
    Tally(before) + n <= Tally(after) <= Tally(before) + 2 * n
  }

  lemma TallyWithinTrans(a: ImportLog, b: ImportLog, c: ImportLog, m: nat, n: nat)
    requires TallyWithin(a, b, m) && TallyWithin(b, c, n)
    ensures TallyWithin(a, c, m + n)
  {
  }

  lemma {:induction false} ProductsTally(s: Import, rows: seq<ProductSheetRow>, n: nat)
    requires n <= |rows|
    ensures TallyWithin(s.log, ProductsFirst(s, rows, n).log, n)
  {
    if n > 0 {
      ProductsTally(s, rows, n - 1);
      ProductsTallyStep(s, rows, n);
      TallyWithinTrans(s.log, ProductsFirst(s, rows, n - 1).log, ProductsFirst(s, rows, n).log, n - 1, 1);
    }
  }

  lemma ProductsTallyStep(s: Import, rows: seq<ProductSheetRow>, n: nat)
    requires 0 < n <= |rows|
    ensures TallyWithin(ProductsFirst(s, rows, n - 1).log, ProductsFirst(s, rows, n).log, 1)
  {
    ProductStepTally(ProductsFirst(s, rows, n - 1), rows[n - 1]);
  }

  /** The Brands sheet touches only the brand table. */
  lemma {:induction false} BrandsCatalog(s: Import, rows: seq<BrandSheetRow>, n: nat)
    requires n <= |rows|
    ensures BrandsFirst(s, rows, n).cat.products == s.cat.products
  {
    if n > 0 {
      BrandsCatalog(s, rows, n - 1);
    }
  }

  /** The Categories sheet touches only the category table. */
  lemma {:induction false} CategoriesCatalog(s: Import, rows: seq<CategorySheetRow>, n: nat)
    requires n <= |rows|
    ensures CategoriesFirst(s, rows, n).cat.products == s.cat.products
  {
    if n > 0 {
      CategoriesCatalog(s, rows, n - 1);
    }
  }

  /** `POST /upload-excel`: everything is written in one transaction and the report answered. */
  method UploadExcel(db: Db, file: Option<Workbook>) returns (r: Result<ImportLog>)
    modifies db`brands, db`nextBrandId, db`categories, db`nextCategoryId
    modifies db`products, db`productCategories, db`sizes
    ensures Upload(old(CatalogOf(db)), file).Fail? ==> r == Fail(BadRequest) && unchanged(db)
    ensures Upload(old(CatalogOf(db)), file).Ok? ==>
      r == Ok(Upload(old(CatalogOf(db)), file).value.log) && CatalogOf(db) == Upload(old(CatalogOf(db)), file).value.cat
  {
    if file.None? {
      return Fail(BadRequest);
    }
    var wb := file.value;
    if wb.brands.None? || wb.categories.None? || wb.products.None? {
      return Fail(BadRequest);
    }
    var log := ImportLog(0, 0, 0, []);
    log := ImportBrands(db, wb.brands.value, log);
    log := ImportCategories(db, wb.categories.value, log);
    log := ImportProducts(db, wb.products.value, log);
    r := Ok(log);
  }

  // ---- the import as written ----

  /* Lines 4-11 of `routes/admin.js` import `orders`, `orderItems`, `products`, `reviews`,
     `users` and `orderStatus` from the schema, but not `brands`, `categories`,
     `productCategories` or `productSizes`. The first record that gets past its own checks
     evaluates one of those names in a query (lines 317, 335 and 386) and throws a
     `ReferenceError`; the transaction rolls back and the `catch` answers 500. `Upload` above
     is the import the route evidently intends; the functions below are the route as written. */

  /** A record that reaches a lookup on `brands` or `categories`. */
  predicate BrandReaches(row: BrandSheetRow) { Present(row.name) }
  predicate CategoryReaches(row: CategorySheetRow) { Present(row.name) }
  predicate ProductReaches(row: ProductSheetRow) { FieldsPresent(row) && row.price.Number? }

  /** One record as written: its own check's error, or `None` once it throws. */
  function BrandCheck(log: ImportLog, row: BrandSheetRow): Option<ImportLog> {
    if BrandReaches(row) then None else Some(AddError(log, BrandNameMissing))
  }

  function CategoryCheck(log: ImportLog, row: CategorySheetRow): Option<ImportLog> {
    if CategoryReaches(row) then None else Some(AddError(log, CategoryNameMissing))
  }

  function ProductCheck(log: ImportLog, row: ProductSheetRow): Option<ImportLog> {
    if !FieldsPresent(row) then Some(AddError(log, ProductFieldsMissing))
    else if !row.price.Number? then Some(AddError(log, PriceNotNumber(row.articleNumber.value)))
    else None
  }

  /** The report after the first `n` records of a sheet as written; `None` once one threw. */
  function SheetAsWritten<R>(start: Option<ImportLog>, rows: seq<R>, n: nat,
                             check: (ImportLog, R) -> Option<ImportLog>): Option<ImportLog>
    requires n <= |rows|
  {
    if n == 0 then start
    else
      match SheetAsWritten(start, rows, n - 1, check)
      case None => None
      case Some(log) => check(log, rows[n - 1])
  }

  /** `POST /upload-excel` as written: 400 as intended; 500 with nothing written once a record
      reaches a lookup; otherwise the report of the checks alone. */
  function UploadAsWritten(cat: Catalog, file: Option<Workbook>): Result<Import> {
    if file.None? then Fail(BadRequest)
    else
      var wb := file.value;
      if wb.brands.None? || wb.categories.None? || wb.products.None? then Fail(BadRequest)
      else
        var l1 := SheetAsWritten(Some(ImportLog(0, 0, 0, [])), wb.brands.value, |wb.brands.value|, BrandCheck);
        var l2 := SheetAsWritten(l1, wb.categories.value, |wb.categories.value|, CategoryCheck);
        var l3 := SheetAsWritten(l2, wb.products.value, |wb.products.value|, ProductCheck);
        if l3.None? then Fail(ServerError) else Ok(Import(cat, l3.value))
  }

  /** No record reaches a lookup. */
  predicate NoneReaches(wb: Workbook)
    requires wb.brands.Some? && wb.categories.Some? && wb.products.Some?
  {
    && (forall i :: 0 <= i < |wb.brands.value| ==> !BrandReaches(wb.brands.value[i]))
    && (forall i :: 0 <= i < |wb.categories.value| ==> !CategoryReaches(wb.categories.value[i]))
    && (forall i :: 0 <= i < |wb.products.value| ==> !ProductReaches(wb.products.value[i]))
  }

  /** A one-brand workbook: the route as written answers 500, the intended import answers the
      report with the brand added or skipped. */
  lemma UploadAsWrittenOneBrand(cat: Catalog)
    ensures var wb := Workbook(Some([BrandSheetRow(Some("Nike"))]), Some([]), Some([]));
      && UploadAsWritten(cat, Some(wb)) == Fail(ServerError)
      && Upload(cat, Some(wb)).Ok?
      && Upload(cat, Some(wb)).value.log.added + Upload(cat, Some(wb)).value.log.skipped == 1
  {
    var wb := Workbook(Some([BrandSheetRow(Some("Nike"))]), Some([]), Some([]));
    var s0 := Import(cat, ImportLog(0, 0, 0, []));
    var row := BrandSheetRow(Some("Nike"));
    assert wb.brands.value[0] == row;
    assert BrandsFirst(s0, wb.brands.value, 0) == s0;
    var s1 := BrandsFirst(s0, wb.brands.value, 1);
    assert s1 == BrandStep(s0, row);
    assert CategoriesFirst(s1, [], 0) == s1;
    assert ProductsFirst(s1, [], 0) == s1;
  }

  /** As written, the route answers 200 exactly when the file has the three sheets and no record
      reaches a lookup, and then it agrees with the intended import: the catalogue is untouched
      and the report holds only the checks' errors. Otherwise, with the sheets present, it
      answers 500 and writes nothing. */
  lemma UploadAsWrittenShape(cat: Catalog, file: Option<Workbook>)
    ensures UploadAsWritten(cat, file).Ok? <==>
      file.Some? && file.value.brands.Some? && file.value.categories.Some? && file.value.products.Some?
      && NoneReaches(file.value)
    ensures UploadAsWritten(cat, file).Ok? ==>
      && UploadAsWritten(cat, file) == Upload(cat, file)
      && UploadAsWritten(cat, file).value.cat == cat
      && UploadAsWritten(cat, file).value.log.added == 0
      && UploadAsWritten(cat, file).value.log.updated == 0
      && UploadAsWritten(cat, file).value.log.skipped == 0
    ensures Upload(cat, file).Ok? && UploadAsWritten(cat, file).Fail? ==>
      UploadAsWritten(cat, file) == Fail(ServerError)
  {
    if file.Some? && file.value.brands.Some? && file.value.categories.Some? && file.value.products.Some? {
      var wb := file.value;
      var bs, cs, ps := wb.brands.value, wb.categories.value, wb.products.value;
      var l0 := ImportLog(0, 0, 0, []);
      var s0 := Import(cat, l0);
      BrandsAsWritten(cat, l0, bs, |bs|);
      var l1 := SheetAsWritten(Some(l0), bs, |bs|, BrandCheck);
      if l1.Some? {
        CategoriesAsWritten(cat, l1.value, cs, |cs|);
        var l2 := SheetAsWritten(l1, cs, |cs|, CategoryCheck);
        if l2.Some? {
          ProductsAsWritten(cat, l2.value, ps, |ps|);
        } else {
          ThrownStays(ps, |ps|, ProductCheck);
        }
      } else {
        ThrownStays(cs, |cs|, CategoryCheck);
        ThrownStays(ps, |ps|, ProductCheck);
      }
    }
  }

  /** Once a record has thrown, the rest of the route does not run. */
  lemma {:induction false} ThrownStays<R>(rows: seq<R>, n: nat, check: (ImportLog, R) -> Option<ImportLog>)
    requires n <= |rows|
    ensures SheetAsWritten(None, rows, n, check) == None
  {
    if n > 0 {
      ThrownStays(rows, n - 1, check);
    }
  }

  /** The Brands sheet as written gets through exactly when no record reaches the lookup, and
      then it logs what the intended sheet logs and writes nothing. */
  lemma {:induction false} BrandsAsWritten(cat: Catalog, log: ImportLog, rows: seq<BrandSheetRow>, n: nat)
    requires n <= |rows|
    ensures SheetAsWritten(Some(log), rows, n, BrandCheck).Some? <==> forall i :: 0 <= i < n ==> !BrandReaches(rows[i])
    ensures SheetAsWritten(Some(log), rows, n, BrandCheck).Some? ==>
      BrandsFirst(Import(cat, log), rows, n) == Import(cat, SheetAsWritten(Some(log), rows, n, BrandCheck).value)
    ensures SheetAsWritten(Some(log), rows, n, BrandCheck).Some? ==>
      SheetAsWritten(Some(log), rows, n, BrandCheck).value.(errors := log.errors) == log
  {
    if n > 0 {
      BrandsAsWritten(cat, log, rows, n - 1);
    }
  }

  lemma {:induction false} CategoriesAsWritten(cat: Catalog, log: ImportLog, rows: seq<CategorySheetRow>, n: nat)
    requires n <= |rows|
    ensures SheetAsWritten(Some(log), rows, n, CategoryCheck).Some? <==> forall i :: 0 <= i < n ==> !CategoryReaches(rows[i])
    ensures SheetAsWritten(Some(log), rows, n, CategoryCheck).Some? ==>
      CategoriesFirst(Import(cat, log), rows, n) == Import(cat, SheetAsWritten(Some(log), rows, n, CategoryCheck).value)
    ensures SheetAsWritten(Some(log), rows, n, CategoryCheck).Some? ==>
      SheetAsWritten(Some(log), rows, n, CategoryCheck).value.(errors := log.errors) == log
  {
    if n > 0 {
      CategoriesAsWritten(cat, log, rows, n - 1);
    }
  }

  lemma {:induction false} ProductsAsWritten(cat: Catalog, log: ImportLog, rows: seq<ProductSheetRow>, n: nat)
    requires n <= |rows|
    ensures SheetAsWritten(Some(log), rows, n, ProductCheck).Some? <==> forall i :: 0 <= i < n ==> !ProductReaches(rows[i])
    ensures SheetAsWritten(Some(log), rows, n, ProductCheck).Some? ==>
      ProductsFirst(Import(cat, log), rows, n) == Import(cat, SheetAsWritten(Some(log), rows, n, ProductCheck).value)
    ensures SheetAsWritten(Some(log), rows, n, ProductCheck).Some? ==>
      SheetAsWritten(Some(log), rows, n, ProductCheck).value.(errors := log.errors) == log
  {
    if n > 0 {
      ProductsAsWritten(cat, log, rows, n - 1);
    }
  }

  // ---- PUT /orders/:orderId ----

  /** The fields the administrator's order edit writes. */
  datatype OrderEdit = OrderEdit(status: int, deliveryAddress: Option<string>, telephone: Option<string>,
                                 paymentMethod: Option<string>)

  function EditedOrder(o: OrderRow, e: OrderEdit): OrderRow {
    o.(status := e.status, deliveryAddress := e.deliveryAddress, telephone := e.telephone,
       paymentMethod := e.paymentMethod)
  }

  /** `update orders set ... where orderId = id` */
  function EditOrders(orders: seq<OrderRow>, id: int, e: OrderEdit): (r: seq<OrderRow>)
    ensures |r| == |orders|
    ensures forall i :: 0 <= i < |r| ==> r[i] == if orders[i].orderId == id then EditedOrder(orders[i], e) else orders[i]
  {
    seq(|orders|, i requires 0 <= i < |orders| => if orders[i].orderId == id then EditedOrder(orders[i], e) else orders[i])
  }

  /** The edit keeps the order keys, finds every order where it was, writes the four fields of
      the edited order whatever its status was, leaves every other order as it was, and a
      repeated edit changes nothing more. */
  lemma EditOrdersShape(orders: seq<OrderRow>, next: int, id: int, e: OrderEdit, x: int)
    requires OrderKeys(orders, next)
    ensures OrderKeys(EditOrders(orders, id, e), next)
    ensures OrderIndex(EditOrders(orders, id, e), x) == OrderIndex(orders, x)
    ensures OrderIndex(orders, id).Some? ==>
      var o := EditOrders(orders, id, e)[OrderIndex(orders, id).value];
      o.status == e.status && o.deliveryAddress == e.deliveryAddress && o.telephone == e.telephone
      && o.paymentMethod == e.paymentMethod && o.orderId == id
      && o.userId == orders[OrderIndex(orders, id).value].userId
    ensures forall i :: 0 <= i < |orders| && orders[i].orderId != id ==> EditOrders(orders, id, e)[i] == orders[i]
    ensures EditOrders(EditOrders(orders, id, e), id, e) == EditOrders(orders, id, e)
  {
    var r := EditOrders(orders, id, e);
    SameIdsFrom(r, orders, x, 0);
  }

  lemma {:induction false} SameIdsFrom(o1: seq<OrderRow>, o2: seq<OrderRow>, id: int, k: nat)
    requires |o1| == |o2| && k <= |o1|
    requires forall i :: 0 <= i < |o1| ==> o1[i].orderId == o2[i].orderId
    ensures OrderFrom(o1, id, k) == OrderFrom(o2, id, k)
    decreases |o1| - k
  {
    if k < |o1| {
      SameIdsFrom(o1, o2, id, k + 1);
    }
  }

  /** `PUT /orders/:orderId`: 404 when no order has the id; otherwise the four fields are
      overwritten, with no check of the status transition and no change to lines or stock. */
  method EditOrder(db: Db, id: int, e: OrderEdit) returns (r: Result<OrderRow>)
    requires db.Valid()
    modifies db`orders
    ensures db.Valid()
    ensures r.Fail? <==> OrderIndex(old(db.orders), id).None?
    ensures r.Fail? ==> r == Fail(NotFound) && unchanged(db)
    ensures r.Ok? ==>
      && r.value == EditedOrder(old(db.orders)[OrderIndex(old(db.orders), id).value], e)
      && db.orders == EditOrders(old(db.orders), id, e)
  {
    var k := OrderIndex(db.orders, id);
    if k.None? {
      return Fail(NotFound);
    }
    EditOrdersShape(db.orders, db.nextOrderId, id, e, id);
    r := Ok(EditedOrder(db.orders[k.value], e));
    db.orders := EditOrders(db.orders, id, e);
  }
}
