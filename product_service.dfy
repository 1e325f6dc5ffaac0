/** The product service over its four tables (products, detail images, options, variants).
    The tables are one value, `Tables`; every row id is drawn from the single counter
    `nextId`. `Create`, `Update` and `Delete` state what one transactional call leaves behind
    (`Err` leaves the tables as they were), `ToResponse` what it answers; the class
    `Service` performs the calls the way the Java code does, loop by loop. */
module ProductService {
  import opened Common
  import opened Dto
  import opened FileStorage

  /** A product row. `continent` is not here: nothing in the service ever sets it. */
  datatype Product = Product(
    productName: string, basePrice: int, processType: string, nationality: string,
    thumbnailImg: Option<string>)

  datatype ImageRow = ImageRow(imageId: int, productId: int, imageUrl: Option<string>, sortOrder: int)
  datatype OptionRow = OptionRow(optionId: int, productId: int, optionValue: string, extraPrice: int)
  datatype VariantRow = VariantRow(variantId: int, productId: int, optionId: int, stock: int)

  datatype Tables = Tables(
    products: map<int, Product>,
    images: seq<ImageRow>,
    options: seq<OptionRow>,
    variants: seq<VariantRow>,
    nextId: int)

  function ImageOwner(i: ImageRow): int { i.productId }
  function OptionOwner(o: OptionRow): int { o.productId }
  function OptionKey(o: OptionRow): int { o.optionId }
  function VariantOption(v: VariantRow): int { v.optionId }

  /** Referential integrity of the tables, plus "one variant per option". */
  ghost predicate Valid(db: Tables) {
    && IdsBelow(db)
    && ChildrenOwned(db)
    && UniqueKeys(db.options, OptionKey)
    && VariantsHaveOptions(db.variants, db.options)
    && OptionsHaveVariants(db.options, db.variants)
    && UniqueKeys(db.variants, VariantOption)
  }

  /** Every id handed out so far is below the counter. */
  ghost predicate IdsBelow(db: Tables) {
    && (forall id :: id in db.products ==> id < db.nextId)
    && (forall img :: img in db.images ==> img.imageId < db.nextId)
    && (forall o :: o in db.options ==> o.optionId < db.nextId)
    && (forall v :: v in db.variants ==> v.variantId < db.nextId)
  }

  /** Images and options belong to existing products. */
  ghost predicate ChildrenOwned(db: Tables) {
    && (forall img :: img in db.images ==> img.productId in db.products)
    && (forall o :: o in db.options ==> o.productId in db.products)
  }

  /** Every variant points at an option of its own product. */
  ghost predicate VariantsHaveOptions(variants: seq<VariantRow>, options: seq<OptionRow>) {
    forall v :: v in variants ==> (v.optionId, v.productId) in OptionPairs(options)
  }

  /** Every option has a variant. */
  ghost predicate OptionsHaveVariants(options: seq<OptionRow>, variants: seq<VariantRow>) {
    forall o :: o in options ==> o.optionId in VariantOptionIds(variants)
  }

  /** Each option's id with the product it belongs to. */
  function OptionPairs(options: seq<OptionRow>): set<(int, int)> {
    set o | o in options :: (o.optionId, o.productId)
  }

  /** The option ids that have a variant. */
  function VariantOptionIds(variants: seq<VariantRow>): set<int> {
    set v | v in variants :: v.optionId
  }

  /** No image, option or variant row refers to the product `id`. */
  ghost predicate Unreferenced(db: Tables, id: int) {
    && (forall img :: img in db.images ==> img.productId != id)
    && (forall o :: o in db.options ==> o.productId != id)
    && (forall v :: v in db.variants ==> v.productId != id)
  }

  // ---------------------------------------------------------------------------------------
  // Queries

  /** `findByProduct` on the image table, in table order. */
  function ImagesOf(images: seq<ImageRow>, id: int): (r: seq<ImageRow>)
    ensures |r| <= |images|
    ensures forall k :: 0 <= k < |r| ==> r[k].productId == id
  {
    if images == [] then []
    else if images[0].productId == id then [images[0]] + ImagesOf(images[1..], id)
    else ImagesOf(images[1..], id)
  }

  /** `optionRepository.findByProduct(product)`, in table order. */
  function OptionsOf(options: seq<OptionRow>, id: int): (r: seq<OptionRow>)
    ensures |r| <= |options|
    ensures forall k :: 0 <= k < |r| ==> r[k].productId == id
  {
    if options == [] then []
    else if options[0].productId == id then [options[0]] + OptionsOf(options[1..], id)
    else OptionsOf(options[1..], id)
  }

  /** The images of `id` are exactly the rows that carry `id`. */
  lemma {:induction false} ImagesOfMembers(images: seq<ImageRow>, id: int)
    ensures forall img :: img in ImagesOf(images, id) <==> img in images && img.productId == id
    decreases |images|
  {
    if images != [] {
      ImagesOfMembers(images[1..], id);
      assert images == [images[0]] + images[1..];
    }
  }

  /** A table without rows of `id` yields none; one holding only rows of `id` yields all. */
  lemma {:induction false} ImagesOfNoneOrAll(images: seq<ImageRow>, id: int)
    ensures (forall img :: img in images ==> img.productId != id) ==> ImagesOf(images, id) == []
    ensures (forall img :: img in images ==> img.productId == id) ==> ImagesOf(images, id) == images
    decreases |images|
  {
    if images != [] {
      ImagesOfNoneOrAll(images[1..], id);
      assert images == [images[0]] + images[1..];
    }
  }

  /** The options of `id` are exactly the rows that carry `id`. */
  lemma {:induction false} OptionsOfMembers(options: seq<OptionRow>, id: int)
    ensures forall o :: o in OptionsOf(options, id) <==> o in options && o.productId == id
    decreases |options|
  {
    if options != [] {
      OptionsOfMembers(options[1..], id);
      assert options == [options[0]] + options[1..];
    }
  }

  /** A table without rows of `id` yields none; one holding only rows of `id` yields all. */
  lemma {:induction false} OptionsOfNoneOrAll(options: seq<OptionRow>, id: int)
    ensures (forall o :: o in options ==> o.productId != id) ==> OptionsOf(options, id) == []
    ensures (forall o :: o in options ==> o.productId == id) ==> OptionsOf(options, id) == options
    decreases |options|
  {
    if options != [] {
      OptionsOfNoneOrAll(options[1..], id);
      assert options == [options[0]] + options[1..];
    }
  }

  function OptionIds(os: seq<OptionRow>): (ids: seq<int>)
    ensures forall x :: x in ids <==> exists o :: o in os && o.optionId == x
  {
    var ids := seq(|os|, k requires 0 <= k < |os| => os[k].optionId);
    assert forall x :: x in ids <==> exists o :: o in os && o.optionId == x by {
      forall x ensures x in ids <==> exists o :: o in os && o.optionId == x {
        if x in ids {
          var k :| 0 <= k < |ids| && ids[k] == x;
          assert os[k] in os;
        }
        if exists o :: o in os && o.optionId == x {
          var o :| o in os && o.optionId == x;
          var k :| 0 <= k < |os| && os[k] == o;
          assert ids[k] == x;
        }
      }
    }
    ids
  }

  /** `variantRepository.findByProductAndOption(product, option)`: the first matching row. */
  function VariantFor(variants: seq<VariantRow>, productId: int, optionId: int): (r: Option<VariantRow>)
    ensures r.Some? ==> r.value.productId == productId && r.value.optionId == optionId
    decreases |variants|
  {
    if variants == [] then None
    else if variants[0].productId == productId && variants[0].optionId == optionId then Some(variants[0])
    else VariantFor(variants[1..], productId, optionId)
  }

  /** The row found is a row of the table; when none is found, no row matches. */
  lemma {:induction false} VariantForMatches(variants: seq<VariantRow>, productId: int, optionId: int)
    ensures VariantFor(variants, productId, optionId).Some? ==> VariantFor(variants, productId, optionId).value in variants
    ensures VariantFor(variants, productId, optionId).None? ==>
      forall v :: v in variants ==> !(v.productId == productId && v.optionId == optionId)
    decreases |variants|
  {
    if variants != [] {
      VariantForMatches(variants[1..], productId, optionId);
      assert variants == [variants[0]] + variants[1..];
    }
  }

  predicate SortedBySortOrder(s: seq<ImageRow>) {
    forall i, j :: 0 <= i < j < |s| ==> s[i].sortOrder <= s[j].sortOrder
  }

  function InsertBySortOrder(x: ImageRow, s: seq<ImageRow>): (r: seq<ImageRow>)
    ensures multiset(r) == multiset(s) + multiset{x}
  {
    if s == [] || x.sortOrder <= s[0].sortOrder then [x] + s
    else
      assert s == [s[0]] + s[1..];
      [s[0]] + InsertBySortOrder(x, s[1..])
  }

  predicate AllFrom(b: int, s: seq<ImageRow>) {
    forall k :: 0 <= k < |s| ==> b <= s[k].sortOrder
  }

  /** Inserting keeps any lower bound the row and the sequence share. */
  lemma {:induction false} InsertKeepsBound(x: ImageRow, s: seq<ImageRow>, b: int)
    requires b <= x.sortOrder && AllFrom(b, s)
    ensures AllFrom(b, InsertBySortOrder(x, s))
    decreases |s|
  {
    if !(s == [] || x.sortOrder <= s[0].sortOrder) {
      InsertKeepsBound(x, s[1..], b);
    }
  }

  /** Inserting into rows in order keeps them in order. */
  lemma {:induction false} InsertKeepsSorted(x: ImageRow, s: seq<ImageRow>)
    requires SortedBySortOrder(s)
    ensures SortedBySortOrder(InsertBySortOrder(x, s))
    decreases |s|
  {
    if !(s == [] || x.sortOrder <= s[0].sortOrder) {
      InsertKeepsSorted(x, s[1..]);
      InsertKeepsBound(x, s[1..], s[0].sortOrder);
    }
  }

  /** The `ORDER BY sortOrder` of `findByProductOrderBySortOrder`. */
  function SortBySortOrder(s: seq<ImageRow>): (r: seq<ImageRow>)
    ensures SortedBySortOrder(r) && multiset(r) == multiset(s)
  {
    if s == [] then []
    else
      assert s == [s[0]] + s[1..];
      var rest := SortBySortOrder(s[1..]);
      InsertKeepsSorted(s[0], rest);
      InsertBySortOrder(s[0], rest)
  }

  /** Rows already in order come back unchanged. */
  lemma {:induction false} SortSortedIsIdentity(s: seq<ImageRow>)
    requires SortedBySortOrder(s)
    ensures SortBySortOrder(s) == s
  {
    if s != [] {
      SortSortedIsIdentity(s[1..]);
    }
  }

  /** One row as the answer lists it. */
  function ImageEntry(row: ImageRow): ImageResponse {
    ImageResponse(row.imageId, row.imageUrl, row.sortOrder)
  }

  function ImageResponses(rows: seq<ImageRow>): (r: seq<ImageResponse>)
    ensures |r| == |rows|
    ensures forall k :: 0 <= k < |rows| ==> r[k] == ImageEntry(rows[k])
  {
    seq(|rows|, k requires 0 <= k < |rows| => ImageEntry(rows[k]))
  }

  /** The entry for one option: stock is its variant's, or 0 when it has none. */
  function OptionEntry(variants: seq<VariantRow>, productId: int, o: OptionRow): (r: OptionResponse)
    ensures r.optionId == o.optionId && r.optionValue == o.optionValue && r.extraPrice == o.extraPrice
    ensures VariantFor(variants, productId, o.optionId).None? ==> r.stock == 0 && r.variantId.None?
    ensures VariantFor(variants, productId, o.optionId).Some? ==>
      && r.stock == VariantFor(variants, productId, o.optionId).value.stock
      && r.variantId == Some(VariantFor(variants, productId, o.optionId).value.variantId)
  {
    var v := VariantFor(variants, productId, o.optionId);
    OptionResponse(o.optionId, o.optionValue, o.extraPrice,
                   if v.Some? then v.value.stock else 0,
                   if v.Some? then Some(v.value.variantId) else None)
  }

  function OptionResponses(variants: seq<VariantRow>, productId: int, os: seq<OptionRow>): (r: seq<OptionResponse>)
    ensures |r| == |os|
  {
    seq(|os|, k requires 0 <= k < |os| => OptionEntry(variants, productId, os[k]))
  }

  lemma ImageResponsesAppend(a: seq<ImageRow>, b: seq<ImageRow>)
    ensures ImageResponses(a + b) == ImageResponses(a) + ImageResponses(b)
  {
  }

  /** Rows that are a permutation of each other are listed as a permutation of each other. */
  lemma {:induction false} ImageResponsesPermute(a: seq<ImageRow>, b: seq<ImageRow>)
    requires multiset(a) == multiset(b)
    ensures multiset(ImageResponses(a)) == multiset(ImageResponses(b))
    decreases |a|
  {
    if a == [] {
      assert |b| == |multiset(b)| == 0;
    } else {
      var x := a[0];
      assert x in multiset(b);
      var m :| 0 <= m < |b| && b[m] == x;
      var rest := b[..m] + b[m + 1..];
      assert b == b[..m] + [x] + b[m + 1..];
      assert a == [x] + a[1..];
      assert multiset(b) == multiset(b[..m]) + multiset{x} + multiset(b[m + 1..]);
      assert multiset(a) == multiset{x} + multiset(a[1..]);
      assert multiset(rest) == multiset(b[..m]) + multiset(b[m + 1..]);
      assert multiset(a[1..]) == multiset(a) - multiset{x};
      assert multiset(rest) == multiset(b) - multiset{x};
      ImageResponsesPermute(a[1..], rest);
      ImageResponsesAppend([x], a[1..]);
      ImageResponsesAppend(b[..m], b[m + 1..]);
      ImageResponsesAppend(b[..m] + [x], b[m + 1..]);
      ImageResponsesAppend(b[..m], [x]);
    }
  }

  /** `toResponse(product)` with the detail images put where the DTO declares them and each
      option carrying its variant id. */
  function ToResponse(db: Tables, id: int): (r: ProductResponse)
    requires id in db.products
    ensures r.productId == id && r.continent.None?
  {
    var p := db.products[id];
    ProductResponse(
      id, p.productName, p.basePrice, p.processType, None, p.nationality, p.thumbnailImg,
      Some(DetailImagesOf(db, id)), OptionsListOf(db, id))
  }

  /** The product's detail images in `sortOrder`. */
  function DetailImagesOf(db: Tables, id: int): (r: seq<ImageResponse>) {
    ImageResponses(SortBySortOrder(ImagesOf(db.images, id)))
  }

  /** The product's options in table order, each with its variant's stock. */
  function OptionsListOf(db: Tables, id: int): (r: seq<OptionResponse>) {
    OptionResponses(db.variants, id, OptionsOf(db.options, id))
  }

  /** `toResponse(product)` as written. The builder is handed `images(..)`, a property the
      DTO does not have, so that call does not compile; this model reads it as leaving
      `detailImages` unset (null). Option entries have no variant id. */
  function ToResponseAsWritten(db: Tables, id: int): (r: ProductResponse)
    requires id in db.products
    ensures r.detailImages.None?
    ensures forall k :: 0 <= k < |r.options| ==> r.options[k].variantId.None?
  {
    var c := ToResponse(db, id);
    c.(detailImages := None,
       options := seq(|c.options|, k requires 0 <= k < |c.options| => c.options[k].(variantId := None)))
  }

  /** The answer lists the product's own image rows, each once, by ascending `sortOrder`, and
      its options in table order, each with its variant's stock, or 0 when it has no variant. */
  lemma ToResponseOrdersImages(db: Tables, id: int)
    requires id in db.products
    ensures var imgs := ToResponse(db, id).detailImages.value;
      && |imgs| == |ImagesOf(db.images, id)|
      && forall i, j :: 0 <= i < j < |imgs| ==> imgs[i].sortOrder <= imgs[j].sortOrder
    ensures multiset(ToResponse(db, id).detailImages.value) == multiset(ImageResponses(ImagesOf(db.images, id)))
    ensures var os := OptionsOf(db.options, id);
      && |ToResponse(db, id).options| == |os|
      && forall k :: 0 <= k < |os| ==>
           && ToResponse(db, id).options[k].optionId == os[k].optionId
           && ToResponse(db, id).options[k].optionValue == os[k].optionValue
           && ToResponse(db, id).options[k].extraPrice == os[k].extraPrice
           && (VariantFor(db.variants, id, os[k].optionId).None? ==> ToResponse(db, id).options[k].stock == 0)
           && (VariantFor(db.variants, id, os[k].optionId).Some? ==>
                 ToResponse(db, id).options[k].stock == VariantFor(db.variants, id, os[k].optionId).value.stock)
  {
    var rows := ImagesOf(db.images, id);
    var sorted := SortBySortOrder(rows);
    assert |sorted| == |multiset(sorted)| == |multiset(rows)|;
    ImageResponsesPermute(sorted, rows);
  }

  /** As written, the answer to a create never carries the detail images just uploaded, while
      the answer the DTO declares lists them in upload order. */
  lemma AnswerAsWrittenLosesImages(db: Tables, p: Product, paths: seq<Option<string>>, opts: seq<OptionRequest>)
    requires Valid(db) && |paths| > 0
    ensures ToResponseAsWritten(CreatedTables(db, p, paths, opts), db.nextId).detailImages.None?
    ensures ToResponse(CreatedTables(db, p, paths, opts), db.nextId).detailImages == Some(DetailResponses(paths, db.nextId + 1))
  {
    InsertKeepsValid(db, p);
    CreatedTablesAnswers(db, p, paths, opts);
  }

  // ---------------------------------------------------------------------------------------
  // What a call writes

  /** The stored paths of the detail files in order, or the first file's failure;
      file `k` (from 0) draws `uuid(k + 1)`, the thumbnail `uuid(0)`. */
  function StoreAll(files: seq<Upload>, uuid: nat -> string): (r: Result<seq<Option<string>>>)
    ensures r.Ok? ==> |r.value| == |files|
    decreases |files|
  {
    if files == [] then Ok([])
    else
      match StoreAll(files[..|files| - 1], uuid)
      case Err(e) => Err(e)
      case Ok(paths) =>
        match StoreFile(Some(files[|files| - 1]), Some("detail"), uuid(|files|))
        case Err(e) => Err(e)
        case Ok(p) => Ok(paths + [p])
  }

  /** The files are stored exactly when each of them can be, and then path `k` is the name
      file `k` was stored under. */
  lemma {:induction false} StoreAllStoresEach(files: seq<Upload>, uuid: nat -> string)
    ensures StoreAll(files, uuid).Ok? <==>
      forall k :: 0 <= k < |files| ==> StoreFile(Some(files[k]), Some("detail"), uuid(k + 1)).Ok?
    ensures StoreAll(files, uuid).Ok? ==>
      forall k :: 0 <= k < |files| ==> StoreFile(Some(files[k]), Some("detail"), uuid(k + 1)) == Ok(StoreAll(files, uuid).value[k])
    decreases |files|
  {
    if files != [] {
      var init := files[..|files| - 1];
      StoreAllStoresEach(init, uuid);
      assert forall k :: 0 <= k < |init| ==> init[k] == files[k];
    }
  }

  /** Once a prefix of the files fails, the whole call fails with that same error. */
  lemma {:induction false} StoreAllStopsAtFailure(files: seq<Upload>, uuid: nat -> string, n: nat)
    requires n <= |files| && StoreAll(files[..n], uuid).Err?
    ensures StoreAll(files, uuid) == StoreAll(files[..n], uuid)
    decreases |files| - n
  {
    if n < |files| {
      var m := n + 1;
      assert files[..m][..n] == files[..n];
      StoreAllStopsAtFailure(files, uuid, m);
    } else {
      assert files[..n] == files;
    }
  }

  /** A null `detailImages` list is treated as empty. */
  function Files(detailImages: Option<seq<Upload>>): seq<Upload> {
    if detailImages.Some? then detailImages.value else []
  }

  function ImageRows(productId: int, paths: seq<Option<string>>, firstId: int): (rows: seq<ImageRow>)
    ensures |rows| == |paths|
    ensures forall k :: 0 <= k < |rows| ==> rows[k] == ImageRow(firstId + k, productId, paths[k], k + 1)
  {
    seq(|paths|, k requires 0 <= k < |paths| => ImageRow(firstId + k, productId, paths[k], k + 1))
  }

  function OptionRows(productId: int, opts: seq<OptionRequest>, firstId: int): (rows: seq<OptionRow>)
    ensures |rows| == |opts|
    ensures forall k :: 0 <= k < |rows| ==>
      rows[k] == OptionRow(firstId + 2 * k, productId, opts[k].optionValue, opts[k].extraPrice)
  {
    seq(|opts|, k requires 0 <= k < |opts| =>
      OptionRow(firstId + 2 * k, productId, opts[k].optionValue, opts[k].extraPrice))
  }

  function VariantRows(productId: int, opts: seq<OptionRequest>, firstId: int): (rows: seq<VariantRow>)
    ensures |rows| == |opts|
    ensures forall k :: 0 <= k < |rows| ==>
      rows[k] == VariantRow(firstId + 2 * k + 1, productId, firstId + 2 * k, opts[k].stock)
  {
    seq(|opts|, k requires 0 <= k < |opts| =>
      VariantRow(firstId + 2 * k + 1, productId, firstId + 2 * k, opts[k].stock))
  }

  /** The detail images, then one option and one variant per option request. */
  function AddChildren(db: Tables, id: int, paths: seq<Option<string>>, opts: seq<OptionRequest>): Tables {
    var optFirst := db.nextId + |paths|;
    db.(images := db.images + ImageRows(id, paths, db.nextId),
        options := db.options + OptionRows(id, opts, optFirst),
        variants := db.variants + VariantRows(id, opts, optFirst),
        nextId := optFirst + 2 * |opts|)
  }

  /** `variantRepository.deleteByOption(option)` for each option id in turn. */
  function DropOptions(variants: seq<VariantRow>, ids: seq<int>): seq<VariantRow>
    decreases |ids|
  {
    if ids == [] then variants
    else RemoveByKey(DropOptions(variants, ids[..|ids| - 1]), VariantOption, ids[|ids| - 1])
  }

  /** Images, option variants and options of product `id` deleted. */
  function DropChildren(db: Tables, id: int): Tables {
    db.(images := RemoveByKey(db.images, ImageOwner, id),
        variants := DropOptions(db.variants, OptionIds(OptionsOf(db.options, id))),
        options := RemoveByKey(db.options, OptionOwner, id))
  }

  /** The product row a request describes, with the given thumbnail path. */
  function NewProduct(req: ProductRequest, thumb: Option<string>): (p: Product)
    ensures p.productName == req.productName && p.basePrice == req.basePrice
    ensures p.processType == req.processType && p.nationality == req.nationality
    ensures p.thumbnailImg == thumb
  {
    Product(req.productName, req.basePrice, req.processType, req.nationality, thumb)
  }

  /** The tables after `createProduct` saved product `p` under the next id, then the detail
      image rows for `paths` and an option and a variant per request in `opts`. */
  function CreatedTables(db: Tables, p: Product, paths: seq<Option<string>>, opts: seq<OptionRequest>): (t: Tables)
    ensures t.products == db.products[db.nextId := p]
  {
    AddChildren(db.(products := db.products[db.nextId := p], nextId := db.nextId + 1), db.nextId, paths, opts)
  }

  /** `createProduct` keeps the tables consistent. */
  lemma CreatedTablesValid(db: Tables, p: Product, paths: seq<Option<string>>, opts: seq<OptionRequest>)
    requires Valid(db)
    ensures Valid(CreatedTables(db, p, paths, opts))
  {
    var db1 := db.(products := db.products[db.nextId := p], nextId := db.nextId + 1);
    assert CreatedTables(db, p, paths, opts) == AddChildren(db1, db.nextId, paths, opts);
    InsertKeepsValid(db, p);
    AddChildrenValid(db1, db.nextId, paths, opts);
  }

  /** The new product's answer lists the uploaded detail images numbered 1..n in upload order,
      and one option per request, each with its own variant holding the requested stock. */
  lemma CreatedTablesAnswers(db: Tables, p: Product, paths: seq<Option<string>>, opts: seq<OptionRequest>)
    requires Unreferenced(db, db.nextId)
    ensures AnswersWith(CreatedTables(db, p, paths, opts), db.nextId, paths, opts, db.nextId + 1)
  {
    var db1 := db.(products := db.products[db.nextId := p], nextId := db.nextId + 1);
    assert CreatedTables(db, p, paths, opts) == AddChildren(db1, db.nextId, paths, opts);
    FreshChildrenResponse(db1, db.nextId, paths, opts);
  }

  /** `createProduct`, with an absent `detailImages` list read as empty: the thumbnail is
      stored first, then the detail files, and the request must carry an option list. */
  function Create(db: Tables, req: ProductRequest, thumbnail: Option<Upload>,
                  detailImages: Option<seq<Upload>>, uuid: nat -> string): (r: Result<(Tables, int)>)
    ensures r.Ok? <==> StoreFile(thumbnail, Some("thumbnail"), uuid(0)).Ok? && StoreAll(Files(detailImages), uuid).Ok?
                       && req.options.Some?
    ensures r.Ok? ==> r.value == (CreatedTables(db, NewProduct(req, StoreFile(thumbnail, Some("thumbnail"), uuid(0)).value),
                                          StoreAll(Files(detailImages), uuid).value, req.options.value), db.nextId)
  {
    match StoreFile(thumbnail, Some("thumbnail"), uuid(0))
    case Err(e) => Err(e)
    case Ok(thumb) =>
      match StoreAll(Files(detailImages), uuid)
      case Err(e) => Err(e)
      case Ok(paths) =>
        if req.options.None? then Err(NullValue)
        else Ok((CreatedTables(db, NewProduct(req, thumb), paths, req.options.value), db.nextId))
  }

  /** `createProduct` as written: a request without any detail image part reaches the loop over
      `detailImages` as null, right after the thumbnail was stored. */
  function CreateAsWritten(db: Tables, req: ProductRequest, thumbnail: Option<Upload>,
                           detailImages: Option<seq<Upload>>, uuid: nat -> string): (r: Result<(Tables, int)>)
    ensures detailImages.Some? ==> r == Create(db, req, thumbnail, detailImages, uuid)
    ensures detailImages.None? ==> r.Err?
  {
    if StoreFile(thumbnail, Some("thumbnail"), uuid(0)).Ok? && detailImages.None? then Err(NullValue)
    else Create(db, req, thumbnail, detailImages, uuid)
  }

  /** Leaving out the detail image part is rejected as written, although the controller
      declares that part optional; read as an empty list, the same request is accepted. */
  lemma MissingDetailPartRejected(db: Tables, req: ProductRequest, thumbnail: Option<Upload>, uuid: nat -> string)
    requires StoreFile(thumbnail, Some("thumbnail"), uuid(0)).Ok? && req.options.Some?
    ensures CreateAsWritten(db, req, thumbnail, None, uuid) == Err(NullValue)
    ensures Create(db, req, thumbnail, None, uuid).Ok?
    ensures Create(db, req, thumbnail, None, uuid) == Create(db, req, thumbnail, Some([]), uuid)
  {
  }

  predicate NonEmpty(file: Option<Upload>) {
    file.Some? && file.value.size > 0
  }

  /** The tables after `updateProduct` replaced product `id` by `p`, deleted its images,
      variants and options, and wrote rows for `paths` and `opts` as `createProduct` does. */
  function ReplacedTables(db: Tables, id: int, p: Product, paths: seq<Option<string>>, opts: seq<OptionRequest>): (t: Tables)
    requires id in db.products
    ensures t.products == db.products[id := p]
  {
    AddChildren(DropChildren(db, id).(products := db.products[id := p]), id, paths, opts)
  }

  /** `updateProduct` keeps the tables consistent, and dropping the product's rows leaves none
      behind. */
  lemma ReplacedTablesValid(db: Tables, id: int, p: Product, paths: seq<Option<string>>, opts: seq<OptionRequest>)
    requires Valid(db) && id in db.products
    ensures Valid(ReplacedTables(db, id, p, paths, opts)) && Unreferenced(DropChildren(db, id), id)
  {
    var db1 := DropChildren(db, id).(products := db.products[id := p]);
    assert ReplacedTables(db, id, p, paths, opts) == AddChildren(db1, id, paths, opts);
    ReplaceKeepsValid(db, id, p);
    AddChildrenValid(db1, id, paths, opts);
  }

  /** Once none of its old rows are left, the product has exactly the detail images and
      options of this request. */
  lemma ReplacedTablesAnswers(db: Tables, id: int, p: Product, paths: seq<Option<string>>, opts: seq<OptionRequest>)
    requires id in db.products && Unreferenced(DropChildren(db, id), id)
    ensures AnswersWith(ReplacedTables(db, id, p, paths, opts), id, paths, opts, db.nextId)
  {
    var db1 := DropChildren(db, id).(products := db.products[id := p]);
    assert ReplacedTables(db, id, p, paths, opts) == AddChildren(db1, id, paths, opts);
    assert Unreferenced(db1, id);
    FreshChildrenResponse(db1, id, paths, opts);
  }

  /** The thumbnail path after `updateProduct`: a non-empty upload is stored and replaces it,
      anything else keeps the current one. */
  function NewThumbnail(cur: Option<string>, thumbnail: Option<Upload>, uuid: nat -> string): (r: Result<Option<string>>)
    ensures !NonEmpty(thumbnail) ==> r == Ok(cur)
    ensures NonEmpty(thumbnail) ==> r == StoreFile(thumbnail, Some("thumbnail"), uuid(0))
    ensures NonEmpty(thumbnail) && r.Ok? ==> r.value.Some?
  {
    if NonEmpty(thumbnail) then StoreFile(thumbnail, Some("thumbnail"), uuid(0)) else Ok(cur)
  }

  /** `updateProduct`, with an absent `detailImages` list read as empty. */
  function Update(db: Tables, id: int, req: ProductRequest, thumbnail: Option<Upload>,
                  detailImages: Option<seq<Upload>>, uuid: nat -> string): (r: Result<Tables>)
    ensures id !in db.products ==> r == Err(NotFound)
    ensures r.Ok? <==> id in db.products && NewThumbnail(db.products[id].thumbnailImg, thumbnail, uuid).Ok?
                       && StoreAll(Files(detailImages), uuid).Ok? && req.options.Some?
    ensures r.Ok? ==> r.value == ReplacedTables(db, id, NewProduct(req, NewThumbnail(db.products[id].thumbnailImg, thumbnail, uuid).value),
                                          StoreAll(Files(detailImages), uuid).value, req.options.value)
  {
    if id !in db.products then Err(NotFound)
    else
      match NewThumbnail(db.products[id].thumbnailImg, thumbnail, uuid)
      case Err(e) => Err(e)
      case Ok(thumb) =>
        match StoreAll(Files(detailImages), uuid)
        case Err(e) => Err(e)
        case Ok(paths) =>
          if req.options.None? then Err(NullValue)
          else Ok(ReplacedTables(db, id, NewProduct(req, thumb), paths, req.options.value))
  }

  /** `updateProduct` as written: without a detail image part the loop over `detailImages`
      throws once the product was found and any new thumbnail stored. */
  function UpdateAsWritten(db: Tables, id: int, req: ProductRequest, thumbnail: Option<Upload>,
                           detailImages: Option<seq<Upload>>, uuid: nat -> string): (r: Result<Tables>)
    ensures detailImages.Some? ==> r == Update(db, id, req, thumbnail, detailImages, uuid)
    ensures detailImages.None? ==> r.Err?
  {
    if id in db.products && NewThumbnail(db.products[id].thumbnailImg, thumbnail, uuid).Ok? && detailImages.None?
    then Err(NullValue)
    else Update(db, id, req, thumbnail, detailImages, uuid)
  }

  /** An edit that uploads no new detail image is rejected as written; read as an empty list,
      it is accepted and leaves the product without detail images. */
  lemma EditWithoutDetailPartRejected(db: Tables, id: int, req: ProductRequest, thumbnail: Option<Upload>,
                                      uuid: nat -> string)
    requires id in db.products && NewThumbnail(db.products[id].thumbnailImg, thumbnail, uuid).Ok?
    requires req.options.Some?
    ensures UpdateAsWritten(db, id, req, thumbnail, None, uuid) == Err(NullValue)
    ensures Update(db, id, req, thumbnail, None, uuid).Ok?
    ensures ImagesOf(Update(db, id, req, thumbnail, None, uuid).value.images, id) == ImagesOf(DropChildren(db, id).images, id)
  {
    var p := NewProduct(req, NewThumbnail(db.products[id].thumbnailImg, thumbnail, uuid).value);
    var d := DropChildren(db, id).(products := db.products[id := p]);
    assert ReplacedTables(db, id, p, [], req.options.value) == AddChildren(d, id, [], req.options.value);
    assert ImageRows(id, [], d.nextId) == [];
    assert d.images + [] == d.images;
  }

  /** `deleteProduct` */
  function Delete(db: Tables, id: int): (r: Result<Tables>)
    ensures id !in db.products ==> r == Err(NotFound)
    ensures r.Ok? ==> r.value.products == db.products - {id}
  {
    if id !in db.products then Err(NotFound)
    else Ok(DropChildren(db, id).(products := db.products - {id}))
  }

  // ---------------------------------------------------------------------------------------
  // Lemmas about the tables

  lemma {:induction false} DropOptionsMembers(variants: seq<VariantRow>, ids: seq<int>)
    ensures forall v :: v in DropOptions(variants, ids) <==> v in variants && v.optionId !in ids
    ensures UniqueKeys(variants, VariantOption) ==> UniqueKeys(DropOptions(variants, ids), VariantOption)
    decreases |ids|
  {
    if ids != [] {
      var init := ids[..|ids| - 1];
      DropOptionsMembers(variants, init);
      assert ids == init + [ids[|ids| - 1]];
      var d := DropOptions(variants, init);
      RemoveByKeyMembers(d, VariantOption, ids[|ids| - 1]);
      forall v ensures v in DropOptions(variants, ids) <==> v in variants && v.optionId !in ids {
        if v in d && v.optionId != ids[|ids| - 1] {
          var k :| 0 <= k < |d| && d[k] == v;
        }
      }
      if UniqueKeys(variants, VariantOption) {
        RemoveByKeyKeepsUnique(d, VariantOption, ids[|ids| - 1], VariantOption);
      }
    }
  }

  /** Deleting a product's children keeps the tables consistent and leaves nothing that
      refers to the product. */
  lemma DropChildrenValid(db: Tables, id: int)
    requires Valid(db)
    ensures Valid(DropChildren(db, id)) && Unreferenced(DropChildren(db, id), id)
  {
    var d := DropChildren(db, id);
    RemoveByKeyMembers(db.images, ImageOwner, id);
    RemoveByKeyMembers(db.options, OptionOwner, id);
    RemoveByKeyKeepsUnique(db.options, OptionOwner, id, OptionKey);
    DropOptionsMembers(db.variants, OptionIds(OptionsOf(db.options, id)));
    DroppedVariantsHaveOptions(db, id);
    DroppedOptionsHaveVariants(db, id);
  }

  lemma DroppedVariantsHaveOptions(db: Tables, id: int)
    requires Valid(db)
    ensures VariantsHaveOptions(DropChildren(db, id).variants, DropChildren(db, id).options)
    ensures forall v :: v in DropChildren(db, id).variants ==> v.productId != id
  {
    var d := DropChildren(db, id);
    var ids := OptionIds(OptionsOf(db.options, id));
    OptionsOfMembers(db.options, id);
    RemoveByKeyMembers(db.options, OptionOwner, id);
    DropOptionsMembers(db.variants, ids);
    forall v | v in d.variants
      ensures v.productId != id && (v.optionId, v.productId) in OptionPairs(d.options)
    {
      var o :| o in db.options && (o.optionId, o.productId) == (v.optionId, v.productId);
      assert v.optionId !in ids;
      assert o !in OptionsOf(db.options, id);
      assert o in d.options;
    }
  }

  lemma DroppedOptionsHaveVariants(db: Tables, id: int)
    requires Valid(db)
    ensures OptionsHaveVariants(DropChildren(db, id).options, DropChildren(db, id).variants)
  {
    var d := DropChildren(db, id);
    var ids := OptionIds(OptionsOf(db.options, id));
    OptionsOfMembers(db.options, id);
    RemoveByKeyMembers(db.options, OptionOwner, id);
    DropOptionsMembers(db.variants, ids);
    forall o | o in d.options ensures o.optionId in VariantOptionIds(d.variants) {
      var v :| v in db.variants && v.optionId == o.optionId;
      forall o2 | o2 in OptionsOf(db.options, id) ensures o2.optionId != o.optionId {
        UniqueKeysDistinct(db.options, OptionKey, o, o2);
      }
      assert v.optionId !in ids;
      assert v in d.variants;
    }
  }

  lemma AddChildrenValid(db: Tables, id: int, paths: seq<Option<string>>, opts: seq<OptionRequest>)
    requires Valid(db) && id in db.products
    ensures Valid(AddChildren(db, id, paths, opts))
  {
    AddedIdsBelow(db, id, paths, opts);
    AddedOptionsUnique(db, id, paths, opts);
    AddedVariantsUnique(db, id, paths, opts);
    AddedVariantsHaveOptions(db, id, paths, opts);
    AddedOptionsHaveVariants(db, id, paths, opts);
  }

  lemma AddedIdsBelow(db: Tables, id: int, paths: seq<Option<string>>, opts: seq<OptionRequest>)
    requires IdsBelow(db) && ChildrenOwned(db) && id in db.products
    ensures IdsBelow(AddChildren(db, id, paths, opts)) && ChildrenOwned(AddChildren(db, id, paths, opts))
  {
    var t := AddChildren(db, id, paths, opts);
    var f := db.nextId + |paths|;
    forall img | img in t.images ensures img.imageId < t.nextId && img.productId in t.products {
      if img !in db.images {
        var k :| 0 <= k < |paths| && ImageRows(id, paths, db.nextId)[k] == img;
      }
    }
    forall o | o in t.options ensures o.optionId < t.nextId && o.productId in t.products {
      if o !in db.options {
        var k :| 0 <= k < |opts| && OptionRows(id, opts, f)[k] == o;
      }
    }
    forall v | v in t.variants ensures v.variantId < t.nextId {
      if v !in db.variants {
        var k :| 0 <= k < |opts| && VariantRows(id, opts, f)[k] == v;
      }
    }
  }

  lemma AddedOptionsUnique(db: Tables, id: int, paths: seq<Option<string>>, opts: seq<OptionRequest>)
    requires IdsBelow(db) && UniqueKeys(db.options, OptionKey)
    ensures UniqueKeys(AddChildren(db, id, paths, opts).options, OptionKey)
  {
    var added := OptionRows(id, opts, db.nextId + |paths|);
    forall i, j | 0 <= i < |db.options| && 0 <= j < |added|
      ensures OptionKey(db.options[i]) != OptionKey(added[j])
    {
      assert db.options[i] in db.options;
    }
    AppendKeepsUnique(db.options, added, OptionKey);
  }

  lemma AddedVariantsUnique(db: Tables, id: int, paths: seq<Option<string>>, opts: seq<OptionRequest>)
    requires IdsBelow(db) && VariantsHaveOptions(db.variants, db.options) && UniqueKeys(db.variants, VariantOption)
    ensures UniqueKeys(AddChildren(db, id, paths, opts).variants, VariantOption)
  {
    var added := VariantRows(id, opts, db.nextId + |paths|);
    forall i, j | 0 <= i < |db.variants| && 0 <= j < |added|
      ensures VariantOption(db.variants[i]) != VariantOption(added[j])
    {
      var v := db.variants[i];
      assert v in db.variants;
      var o :| o in db.options && (o.optionId, o.productId) == (v.optionId, v.productId);
    }
    AppendKeepsUnique(db.variants, added, VariantOption);
  }

  lemma AddedVariantsHaveOptions(db: Tables, id: int, paths: seq<Option<string>>, opts: seq<OptionRequest>)
    requires VariantsHaveOptions(db.variants, db.options)
    ensures VariantsHaveOptions(AddChildren(db, id, paths, opts).variants, AddChildren(db, id, paths, opts).options)
  {
    var t := AddChildren(db, id, paths, opts);
    var newOptions := OptionRows(id, opts, db.nextId + |paths|);
    var newVariants := VariantRows(id, opts, db.nextId + |paths|);
    assert t.options == db.options + newOptions && t.variants == db.variants + newVariants;
    forall v | v in t.variants
      ensures (v.optionId, v.productId) in OptionPairs(t.options)
    {
      if v in newVariants {
        var k :| 0 <= k < |newVariants| && newVariants[k] == v;
        var o := newOptions[k];
        assert (o.optionId, o.productId) == (v.optionId, v.productId);
        assert o in t.options;
      } else {
        assert v in db.variants;
        var o :| o in db.options && (o.optionId, o.productId) == (v.optionId, v.productId);
        assert o in t.options;
      }
    }
  }

  lemma AddedOptionsHaveVariants(db: Tables, id: int, paths: seq<Option<string>>, opts: seq<OptionRequest>)
    requires OptionsHaveVariants(db.options, db.variants)
    ensures OptionsHaveVariants(AddChildren(db, id, paths, opts).options, AddChildren(db, id, paths, opts).variants)
  {
    var t := AddChildren(db, id, paths, opts);
    var newOptions := OptionRows(id, opts, db.nextId + |paths|);
    var newVariants := VariantRows(id, opts, db.nextId + |paths|);
    assert t.options == db.options + newOptions && t.variants == db.variants + newVariants;
    forall o | o in t.options
      ensures o.optionId in VariantOptionIds(t.variants)
    {
      if o in newOptions {
        var k :| 0 <= k < |newOptions| && newOptions[k] == o;
        var v := newVariants[k];
        assert v.optionId == o.optionId;
        assert v in t.variants;
      } else {
        assert o in db.options;
        var v :| v in db.variants && v.optionId == o.optionId;
        assert v in t.variants;
      }
    }
  }

  lemma {:induction false} ImagesOfAppend(a: seq<ImageRow>, b: seq<ImageRow>, id: int)
    ensures ImagesOf(a + b, id) == ImagesOf(a, id) + ImagesOf(b, id)
    decreases |a|
  {
    if a == [] {
      assert a + b == b;
    } else {
      assert (a + b)[1..] == a[1..] + b;
      ImagesOfAppend(a[1..], b, id);
    }
  }

  lemma {:induction false} OptionsOfAppend(a: seq<OptionRow>, b: seq<OptionRow>, id: int)
    ensures OptionsOf(a + b, id) == OptionsOf(a, id) + OptionsOf(b, id)
    decreases |a|
  {
    if a == [] {
      assert a + b == b;
    } else {
      assert (a + b)[1..] == a[1..] + b;
      OptionsOfAppend(a[1..], b, id);
    }
  }

  lemma {:induction false} VariantForAppend(a: seq<VariantRow>, b: seq<VariantRow>, productId: int, optionId: int)
    requires VariantFor(a, productId, optionId).None?
    ensures VariantFor(a + b, productId, optionId) == VariantFor(b, productId, optionId)
    decreases |a|
  {
    if a == [] {
      assert a + b == b;
    } else {
      assert (a + b)[1..] == a[1..] + b;
      VariantForAppend(a[1..], b, productId, optionId);
    }
  }

  /** The lookup returns the first matching row. */
  lemma {:induction false} VariantForFirst(s: seq<VariantRow>, k: int)
    requires 0 <= k < |s|
    requires forall j :: 0 <= j < k ==> s[j].optionId != s[k].optionId
    ensures VariantFor(s, s[k].productId, s[k].optionId) == Some(s[k])
    decreases k
  {
    if k > 0 {
      assert s[1..][k - 1] == s[k];
      VariantForFirst(s[1..], k - 1);
    }
  }

  /** What the response lists for freshly uploaded detail images: `sortOrder` 1..n in upload order. */
  function DetailResponses(paths: seq<Option<string>>, firstId: int): (r: seq<ImageResponse>)
    ensures |r| == |paths|
  {
    seq(|paths|, k requires 0 <= k < |paths| => ImageResponse(firstId + k, paths[k], k + 1))
  }

  /** What the response lists for freshly created options: each with its own variant and the
      requested stock. */
  function FreshOptionResponses(opts: seq<OptionRequest>, firstId: int): (r: seq<OptionResponse>)
    ensures |r| == |opts|
  {
    seq(|opts|, k requires 0 <= k < |opts| =>
      OptionResponse(firstId + 2 * k, opts[k].optionValue, opts[k].extraPrice, opts[k].stock,
                     Some(firstId + 2 * k + 1)))
  }

  /** Product `id` answers with the detail images `paths` numbered from image id `first`, and
      with the options `opts`, numbered from the id after the images. */
  predicate AnswersWith(t: Tables, id: int, paths: seq<Option<string>>, opts: seq<OptionRequest>, first: int) {
    && id in t.products
    && ToResponse(t, id).detailImages == Some(DetailResponses(paths, first))
    && ToResponse(t, id).options == FreshOptionResponses(opts, first + |paths|)
  }

  /** A product whose children were all just written answers with exactly those children. */
  lemma FreshChildrenResponse(db: Tables, id: int, paths: seq<Option<string>>, opts: seq<OptionRequest>)
    requires id in db.products && Unreferenced(db, id)
    ensures AnswersWith(AddChildren(db, id, paths, opts), id, paths, opts, db.nextId)
  {
    FreshImagesResponse(db, id, paths, opts);
    FreshOptionsResponse(db, id, paths, opts);
  }

  lemma FreshImagesResponse(db: Tables, id: int, paths: seq<Option<string>>, opts: seq<OptionRequest>)
    requires id in db.products
    requires forall img :: img in db.images ==> img.productId != id
    ensures ToResponse(AddChildren(db, id, paths, opts), id).detailImages == Some(DetailResponses(paths, db.nextId))
  {
    var t := AddChildren(db, id, paths, opts);
    assert t.images == db.images + ImageRows(id, paths, db.nextId);
    FreshImagesListed(db.images, id, paths, db.nextId);
    assert DetailImagesOf(t, id) == DetailResponses(paths, db.nextId);
  }

  lemma FreshOptionsResponse(db: Tables, id: int, paths: seq<Option<string>>, opts: seq<OptionRequest>)
    requires id in db.products
    requires forall o :: o in db.options ==> o.productId != id
    requires forall v :: v in db.variants ==> v.productId != id
    ensures ToResponse(AddChildren(db, id, paths, opts), id).options == FreshOptionResponses(opts, db.nextId + |paths|)
  {
    var t := AddChildren(db, id, paths, opts);
    var f := db.nextId + |paths|;
    assert t.options == db.options + OptionRows(id, opts, f);
    assert t.variants == db.variants + VariantRows(id, opts, f);
    FreshOptionsListed(db.options, db.variants, id, opts, f);
    assert OptionsListOf(t, id) == FreshOptionResponses(opts, f);
    var r := ToResponse(t, id);
    assert r.options == OptionsListOf(t, id);
  }

  lemma ImageRowsListed(id: int, paths: seq<Option<string>>, first: int)
    ensures ImageResponses(ImageRows(id, paths, first)) == DetailResponses(paths, first)
  {
    var listed := ImageResponses(ImageRows(id, paths, first));
    var expected := DetailResponses(paths, first);
    forall k | 0 <= k < |listed| ensures listed[k] == expected[k] {
    }
  }

  lemma FreshImagesListed(images: seq<ImageRow>, id: int, paths: seq<Option<string>>, first: int)
    requires forall img :: img in images ==> img.productId != id
    ensures ImageResponses(SortBySortOrder(ImagesOf(images + ImageRows(id, paths, first), id))) == DetailResponses(paths, first)
  {
    var rows := ImageRows(id, paths, first);
    ImagesOfAppend(images, rows, id);
    ImagesOfNoneOrAll(images, id);
    ImagesOfNoneOrAll(rows, id);
    assert ImagesOf(images, id) == [];
    assert ImagesOf(rows, id) == rows;
    assert ImagesOf(images + rows, id) == rows;
    SortSortedIsIdentity(rows);
    ImageRowsListed(id, paths, first);
  }

  lemma NewVariantFound(variants: seq<VariantRow>, id: int, opts: seq<OptionRequest>, f: int, k: int)
    requires forall v :: v in variants ==> v.productId != id
    requires 0 <= k < |opts|
    ensures VariantFor(variants + VariantRows(id, opts, f), id, f + 2 * k) == Some(VariantRows(id, opts, f)[k])
  {
    var added := VariantRows(id, opts, f);
    var none := VariantFor(variants, id, f + 2 * k);
    VariantForMatches(variants, id, f + 2 * k);
    assert none.None?;
    VariantForAppend(variants, added, id, f + 2 * k);
    assert added[k] == VariantRow(f + 2 * k + 1, id, f + 2 * k, opts[k].stock);
    forall j | 0 <= j < k ensures added[j].optionId != added[k].optionId { }
    VariantForFirst(added, k);
  }

  lemma FreshOptionEntry(variants: seq<VariantRow>, id: int, opts: seq<OptionRequest>, f: int, k: int)
    requires forall v :: v in variants ==> v.productId != id
    requires 0 <= k < |opts|
    ensures OptionEntry(variants + VariantRows(id, opts, f), id, OptionRows(id, opts, f)[k]) ==
      OptionResponse(f + 2 * k, opts[k].optionValue, opts[k].extraPrice, opts[k].stock, Some(f + 2 * k + 1))
  {
    NewVariantFound(variants, id, opts, f, k);
  }

  lemma OptionRowsListed(variants: seq<VariantRow>, id: int, opts: seq<OptionRequest>, f: int)
    requires forall v :: v in variants ==> v.productId != id
    ensures OptionResponses(variants + VariantRows(id, opts, f), id, OptionRows(id, opts, f)) == FreshOptionResponses(opts, f)
  {
    var listed := OptionResponses(variants + VariantRows(id, opts, f), id, OptionRows(id, opts, f));
    var expected := FreshOptionResponses(opts, f);
    forall k | 0 <= k < |listed| ensures listed[k] == expected[k] {
      FreshOptionEntry(variants, id, opts, f, k);
    }
  }

  lemma FreshOptionsListed(options: seq<OptionRow>, variants: seq<VariantRow>, id: int, opts: seq<OptionRequest>, f: int)
    requires forall o :: o in options ==> o.productId != id
    requires forall v :: v in variants ==> v.productId != id
    ensures OptionResponses(variants + VariantRows(id, opts, f), id, OptionsOf(options + OptionRows(id, opts, f), id))
            == FreshOptionResponses(opts, f)
  {
    var newOptions := OptionRows(id, opts, f);
    var newVariants := VariantRows(id, opts, f);
    OptionsOfAppend(options, newOptions, id);
    OptionsOfNoneOrAll(options, id);
    OptionsOfNoneOrAll(newOptions, id);
    assert OptionsOf(options, id) == [];
    assert OptionsOf(newOptions, id) == newOptions;
    assert OptionsOf(options + newOptions, id) == newOptions;
    OptionRowsListed(variants, id, opts, f);
  }

  /** A product inserted under the next id keeps the tables consistent and has no rows yet. */
  lemma InsertKeepsValid(db: Tables, p: Product)
    requires Valid(db)
    ensures Valid(db.(products := db.products[db.nextId := p], nextId := db.nextId + 1))
    ensures Unreferenced(db.(products := db.products[db.nextId := p], nextId := db.nextId + 1), db.nextId)
  {
  }

  /** Replacing a product's row after dropping its children keeps the tables consistent and
      leaves nothing referring to it. */
  lemma ReplaceKeepsValid(db: Tables, id: int, p: Product)
    requires Valid(db) && id in db.products
    ensures Valid(DropChildren(db, id).(products := db.products[id := p]))
    ensures Unreferenced(DropChildren(db, id).(products := db.products[id := p]), id)
  {
    DropChildrenValid(db, id);
  }

  /** `deleteProduct` keeps the tables consistent, removes the product with every image,
      option and variant of it, and leaves the other products' rows as they were: their
      images, their options and the variant each option finds, so every other product
      answers as before. */
  lemma DeleteCascades(db: Tables, id: int)
    requires Valid(db) && Delete(db, id).Ok?
    ensures var t := Delete(db, id).value;
      && Valid(t) && id !in t.products && Unreferenced(t, id)
      && (forall other :: other != id ==> ImagesOf(t.images, other) == ImagesOf(db.images, other))
      && (forall other :: other != id ==> OptionsOf(t.options, other) == OptionsOf(db.options, other))
      && (forall other, o :: other != id ==> VariantFor(t.variants, other, o) == VariantFor(db.variants, other, o))
      && (forall other :: other in t.products ==> ToResponse(t, other) == ToResponse(db, other))
  {
    var t := Delete(db, id).value;
    DropChildrenValid(db, id);
    forall other | other != id ensures ImagesOf(RemoveByKey(db.images, ImageOwner, id), other) == ImagesOf(db.images, other) {
      ImagesOfRemoveOther(db.images, id, other);
    }
    forall other | other != id ensures OptionsOf(RemoveByKey(db.options, OptionOwner, id), other) == OptionsOf(db.options, other) {
      OptionsOfRemoveOther(db.options, id, other);
    }
    forall other, o | other != id ensures VariantFor(t.variants, other, o) == VariantFor(db.variants, other, o) {
      DeleteKeepsVariants(db, id, other, o);
    }
    forall other | other in t.products ensures ToResponse(t, other) == ToResponse(db, other) {
      OtherAnswerKept(db, t, id, other);
    }
  }

  /** Every variant of another product survives the delete, so its lookups are unchanged:
      an option id of product `id` is never an option id of `other`. */
  lemma DeleteKeepsVariants(db: Tables, id: int, other: int, o: int)
    requires Valid(db) && id != other
    ensures VariantFor(DropChildren(db, id).variants, other, o) == VariantFor(db.variants, other, o)
  {
    var ids := OptionIds(OptionsOf(db.options, id));
    OptionsOfMembers(db.options, id);
    forall v | v in db.variants && v.productId == other ensures v.optionId !in ids {
      if v.optionId in ids {
        var o1 :| o1 in OptionsOf(db.options, id) && o1.optionId == v.optionId;
        assert (v.optionId, v.productId) in OptionPairs(db.options);
        var o2 :| o2 in db.options && (o2.optionId, o2.productId) == (v.optionId, v.productId);
        assert o1 != o2;
        UniqueKeysDistinct(db.options, OptionKey, o1, o2);
        assert false;
      }
    }
    VariantForDropOptions(db.variants, ids, other, o);
  }

  /** A product whose images, options and variant lookups are unchanged answers as before. */
  lemma OtherAnswerKept(db: Tables, t: Tables, id: int, other: int)
    requires other in t.products && t.products == db.products - {id}
    requires ImagesOf(t.images, other) == ImagesOf(db.images, other)
    requires OptionsOf(t.options, other) == OptionsOf(db.options, other)
    requires forall o :: VariantFor(t.variants, other, o) == VariantFor(db.variants, other, o)
    ensures ToResponse(t, other) == ToResponse(db, other)
  {
    var os := OptionsOf(db.options, other);
    forall k | 0 <= k < |os| ensures OptionEntry(t.variants, other, os[k]) == OptionEntry(db.variants, other, os[k]) {
      assert VariantFor(t.variants, other, os[k].optionId) == VariantFor(db.variants, other, os[k].optionId);
    }
    assert OptionsListOf(t, other) == OptionsListOf(db, other);
  }

  /** Dropping variants by option id keeps the lookups of a product none of whose variants
      carries a dropped option id. */
  lemma {:induction false} VariantForDropOptions(variants: seq<VariantRow>, ids: seq<int>, p: int, o: int)
    requires forall v :: v in variants && v.productId == p ==> v.optionId !in ids
    ensures VariantFor(DropOptions(variants, ids), p, o) == VariantFor(variants, p, o)
    decreases |ids|
  {
    if ids != [] {
      var init := ids[..|ids| - 1];
      var x := ids[|ids| - 1];
      assert forall y :: y in init ==> y in ids;
      VariantForDropOptions(variants, init, p, o);
      DropOptionsMembers(variants, init);
      VariantForRemoveOption(DropOptions(variants, init), x, p, o);
    }
  }

  /** `deleteByOption(x)` keeps the lookups of a product with no variant of option `x`. */
  lemma {:induction false} VariantForRemoveOption(variants: seq<VariantRow>, x: int, p: int, o: int)
    requires forall v :: v in variants && v.productId == p ==> v.optionId != x
    ensures VariantFor(RemoveByKey(variants, VariantOption, x), p, o) == VariantFor(variants, p, o)
    decreases |variants|
  {
    if variants != [] {
      assert forall v :: v in variants[1..] ==> v in variants;
      VariantForRemoveOption(variants[1..], x, p, o);
      if variants[0].optionId != x {
        var rest := RemoveByKey(variants[1..], VariantOption, x);
        assert RemoveByKey(variants, VariantOption, x) == [variants[0]] + rest;
        assert ([variants[0]] + rest)[1..] == rest;
      }
    }
  }

  lemma {:induction false} ImagesOfRemoveOther(images: seq<ImageRow>, id: int, other: int)
    requires id != other
    ensures ImagesOf(RemoveByKey(images, ImageOwner, id), other) == ImagesOf(images, other)
    decreases |images|
  {
    if images != [] {
      ImagesOfRemoveOther(images[1..], id, other);
    }
  }

  lemma {:induction false} OptionsOfRemoveOther(options: seq<OptionRow>, id: int, other: int)
    requires id != other
    ensures OptionsOf(RemoveByKey(options, OptionOwner, id), other) == OptionsOf(options, other)
    decreases |options|
  {
    if options != [] {
      OptionsOfRemoveOther(options[1..], id, other);
    }
  }

  // ---------------------------------------------------------------------------------------
  // The service, call by call

  lemma ImageRowsSnoc(id: int, paths: seq<Option<string>>, p: Option<string>, first: int)
    ensures ImageRows(id, paths + [p], first) == ImageRows(id, paths, first) + [ImageRow(first + |paths|, id, p, |paths| + 1)]
  {
  }

  lemma OptionRowsSnoc(id: int, opts: seq<OptionRequest>, first: int, i: nat)
    requires i < |opts|
    ensures OptionRows(id, opts[..i + 1], first) == OptionRows(id, opts[..i], first)
      + [OptionRow(first + 2 * i, id, opts[i].optionValue, opts[i].extraPrice)]
    ensures VariantRows(id, opts[..i + 1], first) == VariantRows(id, opts[..i], first)
      + [VariantRow(first + 2 * i + 1, id, first + 2 * i, opts[i].stock)]
  {
  }

  /** The loop over `detailImages`: each file is stored under the next UUID and saved as an
      image row of product `id`, its `sortOrder` counting up from 1; the first failing file
      ends the call. */
  method SaveImages(t: Tables, id: int, files: seq<Upload>, uuid: nat -> string) returns (r: Result<Tables>)
    ensures StoreAll(files, uuid).Err? ==> r == Err(StoreAll(files, uuid).error)
    ensures StoreAll(files, uuid).Ok? ==>
      r == Ok(t.(images := t.images + ImageRows(id, StoreAll(files, uuid).value, t.nextId),
                 nextId := t.nextId + |files|))
  {
    var u := t;
    var paths: seq<Option<string>> := [];
    var order := 1;
    var i := 0;
    while i < |files|
      invariant 0 <= i <= |files| && order == i + 1 && |paths| == i
      invariant StoreAll(files[..i], uuid) == Ok(paths)
      invariant u == t.(images := t.images + ImageRows(id, paths, t.nextId), nextId := t.nextId + i)
    {
      var stored := StoreFile(Some(files[i]), Some("detail"), uuid(i + 1));
      assert files[..i + 1][..i] == files[..i];
      if stored.Err? {
        assert StoreAll(files[..i + 1], uuid) == Err(stored.error);
        StoreAllStopsAtFailure(files, uuid, i + 1);
        return Err(stored.error);
      }
      ImageRowsSnoc(id, paths, stored.value, t.nextId);
      u := u.(images := u.images + [ImageRow(u.nextId, id, stored.value, order)], nextId := u.nextId + 1);
      paths := paths + [stored.value];
      order := order + 1;
      i := i + 1;
    }
    assert files[..i] == files;
    return Ok(u);
  }

  /** The loop over the option requests: an option row, then a variant row for it holding the
      requested stock, each under the next id. */
  method SaveOptions(t: Tables, id: int, opts: seq<OptionRequest>) returns (u: Tables)
    ensures u == t.(options := t.options + OptionRows(id, opts, t.nextId),
                    variants := t.variants + VariantRows(id, opts, t.nextId),
                    nextId := t.nextId + 2 * |opts|)
  {
    u := t;
    for i := 0 to |opts|
      invariant u == t.(options := t.options + OptionRows(id, opts[..i], t.nextId),
                        variants := t.variants + VariantRows(id, opts[..i], t.nextId),
                        nextId := t.nextId + 2 * i)
    {
      OptionRowsSnoc(id, opts, t.nextId, i);
      var optionId := u.nextId;
      u := u.(options := u.options + [OptionRow(optionId, id, opts[i].optionValue, opts[i].extraPrice)],
              nextId := u.nextId + 1);
      u := u.(variants := u.variants + [VariantRow(u.nextId, id, optionId, opts[i].stock)],
              nextId := u.nextId + 1);
    }
    assert opts[..|opts|] == opts;
  }

  /** `variantRepository.deleteByOption(option)` for each of the given options in turn. */
  method DeleteVariantsOf(variants: seq<VariantRow>, options: seq<OptionRow>) returns (r: seq<VariantRow>)
    ensures r == DropOptions(variants, OptionIds(options))
  {
    r := variants;
    for i := 0 to |options|
      invariant r == DropOptions(variants, OptionIds(options[..i]))
    {
      ghost var ids := OptionIds(options[..i + 1]);
      assert ids[..|ids| - 1] == OptionIds(options[..i]);
      r := RemoveByKey(r, VariantOption, options[i].optionId);
    }
    assert options[..|options|] == options;
  }

  /** `CreatedTables` as the writes `createProduct` performs: the product row, the image rows,
      then the option and variant rows. */
  lemma CreatedTablesInSteps(db: Tables, p: Product, paths: seq<Option<string>>, opts: seq<OptionRequest>,
                             t1: Tables, t2: Tables, t3: Tables)
    requires t1 == db.(products := db.products[db.nextId := p], nextId := db.nextId + 1)
    requires t2 == t1.(images := t1.images + ImageRows(db.nextId, paths, t1.nextId), nextId := t1.nextId + |paths|)
    requires t3 == t2.(options := t2.options + OptionRows(db.nextId, opts, t2.nextId),
                       variants := t2.variants + VariantRows(db.nextId, opts, t2.nextId),
                       nextId := t2.nextId + 2 * |opts|)
    ensures t3 == CreatedTables(db, p, paths, opts)
  {
    assert CreatedTables(db, p, paths, opts) == AddChildren(t1, db.nextId, paths, opts);
  }

  /** The body of `createProduct` on a working copy of the tables: the thumbnail is stored,
      the product saved under the next id, then the detail images and the options. */
  method CreateInTransaction(db: Tables, req: ProductRequest, thumbnail: Option<Upload>,
                             detailImages: Option<seq<Upload>>, uuid: nat -> string) returns (r: Result<(Tables, int)>)
    ensures r == Create(db, req, thumbnail, detailImages, uuid)
  {
    var thumb := StoreFile(thumbnail, Some("thumbnail"), uuid(0));
    if thumb.Err? {
      return Err(thumb.error);
    }
    var id := db.nextId;
    var t := db.(products := db.products[id := NewProduct(req, thumb.value)], nextId := id + 1);
    var saved := SaveImages(t, id, Files(detailImages), uuid);
    if saved.Err? {
      return Err(saved.error);
    }
    if req.options.None? {
      return Err(NullValue);
    }
    var u := SaveOptions(saved.value, id, req.options.value);
    CreatedTablesInSteps(db, NewProduct(req, thumb.value), StoreAll(Files(detailImages), uuid).value,
                         req.options.value, t, saved.value, u);
    return Ok((u, id));
  }

  /** `ReplacedTables` as the writes `updateProduct` performs: the product row, the images
      dropped and the new ones saved, the variants and options dropped, the new ones saved. */
  lemma ReplacedTablesInSteps(db: Tables, id: int, p: Product, paths: seq<Option<string>>, opts: seq<OptionRequest>,
                              t1: Tables, t2: Tables, t3: Tables, t4: Tables)
    requires id in db.products
    requires t1 == db.(products := db.products[id := p], images := RemoveByKey(db.images, ImageOwner, id))
    requires t2 == t1.(images := t1.images + ImageRows(id, paths, t1.nextId), nextId := t1.nextId + |paths|)
    requires t3 == t2.(variants := DropOptions(t2.variants, OptionIds(OptionsOf(t2.options, id))),
                       options := RemoveByKey(t2.options, OptionOwner, id))
    requires t4 == t3.(options := t3.options + OptionRows(id, opts, t3.nextId),
                       variants := t3.variants + VariantRows(id, opts, t3.nextId),
                       nextId := t3.nextId + 2 * |opts|)
    ensures t4 == ReplacedTables(db, id, p, paths, opts)
  {
    var d := DropChildren(db, id).(products := db.products[id := p]);
    assert ReplacedTables(db, id, p, paths, opts) == AddChildren(d, id, paths, opts);
  }

  /** The body of `updateProduct` on a working copy of the tables. */
  method UpdateInTransaction(db: Tables, id: int, req: ProductRequest, thumbnail: Option<Upload>,
                             detailImages: Option<seq<Upload>>, uuid: nat -> string) returns (r: Result<Tables>)
    ensures r == Update(db, id, req, thumbnail, detailImages, uuid)
  {
    if id !in db.products {
      return Err(NotFound);
    }
    var thumb := db.products[id].thumbnailImg;
    if thumbnail.Some? && thumbnail.value.size > 0 {
      var stored := StoreFile(thumbnail, Some("thumbnail"), uuid(0));
      if stored.Err? {
        return Err(stored.error);
      }
      thumb := stored.value;
    }
    var t1 := db.(products := db.products[id := NewProduct(req, thumb)], images := RemoveByKey(db.images, ImageOwner, id));
    var saved := SaveImages(t1, id, Files(detailImages), uuid);
    if saved.Err? {
      return Err(saved.error);
    }
    var t2 := saved.value;
    var variants := DeleteVariantsOf(t2.variants, OptionsOf(t2.options, id));
    var t3 := t2.(variants := variants, options := RemoveByKey(t2.options, OptionOwner, id));
    if req.options.None? {
      return Err(NullValue);
    }
    var t4 := SaveOptions(t3, id, req.options.value);
    ReplacedTablesInSteps(db, id, NewProduct(req, thumb), StoreAll(Files(detailImages), uuid).value, req.options.value,
                          t1, t2, t3, t4);
    return Ok(t4);
  }

  /** The body of `deleteProduct` on a working copy of the tables. */
  method DeleteInTransaction(db: Tables, id: int) returns (r: Result<Tables>)
    ensures r == Delete(db, id)
  {
    if id !in db.products {
      return Err(NotFound);
    }
    var t := db.(images := RemoveByKey(db.images, ImageOwner, id));
    var variants := DeleteVariantsOf(t.variants, OptionsOf(t.options, id));
    t := t.(variants := variants);
    t := t.(options := RemoveByKey(t.options, OptionOwner, id));
    return Ok(t.(products := t.products - {id}));
  }

  /** The service over its tables. `@Transactional`: a call that throws leaves `db` as it was. */
  class Service {
    var db: Tables

    constructor(tables: Tables)
      ensures db == tables
    {
      db := tables;
    }

    /** `createProduct`: on success the tables are `Create`'s and the answer is the new
        product's response. */
    method CreateProduct(req: ProductRequest, thumbnail: Option<Upload>, detailImages: Option<seq<Upload>>,
                         uuid: nat -> string) returns (r: Result<ProductResponse>)
      modifies this
      ensures Create(old(db), req, thumbnail, detailImages, uuid).Err? ==>
        db == old(db) && r == Err(Create(old(db), req, thumbnail, detailImages, uuid).error)
      ensures Create(old(db), req, thumbnail, detailImages, uuid).Ok? ==>
        && db == Create(old(db), req, thumbnail, detailImages, uuid).value.0
        && r == Ok(ToResponse(db, old(db).nextId))
      ensures Valid(old(db)) ==> Valid(db)
    {
      var res := CreateInTransaction(db, req, thumbnail, detailImages, uuid);
      match res
      case Err(e) => r := Err(e);
      case Ok((t, id)) =>
        ghost var p := NewProduct(req, StoreFile(thumbnail, Some("thumbnail"), uuid(0)).value);
        ghost var paths := StoreAll(Files(detailImages), uuid).value;
        assert t == CreatedTables(db, p, paths, req.options.value);
        if Valid(db) {
          CreatedTablesValid(db, p, paths, req.options.value);
        }
        db := t;
        r := Ok(ToResponse(db, id));
    }

    /** `updateProduct`: on success the tables are `Update`'s and the answer is the product's
        new response. */
    method UpdateProduct(id: int, req: ProductRequest, thumbnail: Option<Upload>, detailImages: Option<seq<Upload>>,
                         uuid: nat -> string) returns (r: Result<ProductResponse>)
      modifies this
      ensures Update(old(db), id, req, thumbnail, detailImages, uuid).Err? ==>
        db == old(db) && r == Err(Update(old(db), id, req, thumbnail, detailImages, uuid).error)
      ensures Update(old(db), id, req, thumbnail, detailImages, uuid).Ok? ==>
        && db == Update(old(db), id, req, thumbnail, detailImages, uuid).value
        && r == Ok(ToResponse(db, id))
      ensures Valid(old(db)) ==> Valid(db)
    {
      var res := UpdateInTransaction(db, id, req, thumbnail, detailImages, uuid);
      match res
      case Err(e) => r := Err(e);
      case Ok(t) =>
        ghost var p := NewProduct(req, NewThumbnail(db.products[id].thumbnailImg, thumbnail, uuid).value);
        ghost var paths := StoreAll(Files(detailImages), uuid).value;
        assert t == ReplacedTables(db, id, p, paths, req.options.value);
        if Valid(db) {
          ReplacedTablesValid(db, id, p, paths, req.options.value);
        }
        db := t;
        r := Ok(ToResponse(db, id));
    }

    /** `deleteProduct`: on success the tables are `Delete`'s. */
    method DeleteProduct(id: int) returns (r: Result<()>)
      modifies this
      ensures Delete(old(db), id).Err? ==> db == old(db) && r == Err(Delete(old(db), id).error)
      ensures Delete(old(db), id).Ok? ==> db == Delete(old(db), id).value && r == Ok(())
      ensures Valid(old(db)) ==> Valid(db)
    {
      var res := DeleteInTransaction(db, id);
      match res
      case Err(e) => r := Err(e);
      case Ok(t) =>
        if Valid(db) {
          DeleteCascades(db, id);
        }
        db := t;
        r := Ok(());
    }
  }
}
