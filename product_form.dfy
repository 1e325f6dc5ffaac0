/** The product form (`product/ProductForm.jsx`): its state while a product is created or
    edited, the handlers that replace that state, the validation run before a submit and the
    multipart payload a valid submit hands to the page.

    The option rows are objects, as in the source: `changeOption` writes into the row object it
    finds in a shallow copy of the list, so a row shared with the module-level `initialForm`
    keeps the edit after the form is gone. The browser's object URLs for picked files are not
    modelled: a picked preview is its file. */
module ProductForm {
  import opened Common
  import opened Dto
  import FileStorage
  import ProductStore

  /** A file picked in the browser. */
  type File = FileStorage.Upload

  const UploadBase: string := "http://localhost:8080/uploads/"
  const WeightOptions: seq<string> := ["200g", "300g", "500g", "1kg"]
  const MaxOptions: int := 4
  const DefaultOption: OptionRequest := OptionRequest("200g", 0, 0)

  // ---------------------------------------------------------------------------------------
  // Image URLs

  predicate IsAbsolute(url: string) {
    |url| >= 4 && url[..4] == "http"
  }

  /** `getImageUrl(path)` */
  function ImageUrl(path: Option<string>): (url: string)
    ensures url == "" <==> path.None? || path.value == ""
    // a stored path is served from the upload directory; the result always starts with "http"
    ensures url != "" ==> IsAbsolute(url)
    ensures url != "" ==> |path.value| <= |url| && url[|url| - |path.value|..] == path.value
    // an absolute URL is kept as it is; any other path is prefixed with the upload base
    ensures path.Some? && path.value != "" && IsAbsolute(path.value) ==> url == path.value
    ensures path.Some? && path.value != "" && !IsAbsolute(path.value) ==> url == UploadBase + path.value
  {
    if path.None? || path.value == "" then ""
    else if IsAbsolute(path.value) then path.value
    else UploadBase + path.value
  }

  /** Resolving a resolved URL again changes nothing. */
  lemma ImageUrlIdempotent(path: Option<string>)
    ensures ImageUrl(Some(ImageUrl(path))) == ImageUrl(path)
  {
  }

  // ---------------------------------------------------------------------------------------
  // Form state

  /** An option row: a mutable object, shared wherever the row is. */
  class OptionRow {
    var optionValue: string
    var extraPrice: int
    var stock: int

    constructor(v: OptionRequest)
      ensures optionValue == v.optionValue && extraPrice == v.extraPrice && stock == v.stock
    {
      optionValue := v.optionValue;
      extraPrice := v.extraPrice;
      stock := v.stock;
    }
  }

  function RowValue(row: OptionRow): OptionRequest
    reads row
  {
    OptionRequest(row.optionValue, row.extraPrice, row.stock)
  }

  /** What the rows hold, as the payload's `options` list maps them. */
  function RowValues(rows: seq<OptionRow>): (vs: seq<OptionRequest>)
    reads set r | r in rows
    ensures |vs| == |rows|
    ensures forall k :: 0 <= k < |rows| ==> vs[k] == RowValue(rows[k])
  {
    seq(|rows|, k requires 0 <= k < |rows| reads set r | r in rows => RowValue(rows[k]))
  }

  /** A detail image in the form: one stored on the server, or a file picked for upload
      (`isNew`). */
  datatype Preview = Stored(imageId: int, url: string) | Picked(file: File)

  /** `price` is `None` while the input is empty. */
  datatype FormState = FormState(
    name: string,
    price: Option<int>,
    continent: string,
    nationality: string,
    processType: string,
    thumbnailFile: Option<File>,
    thumbnailPreview: string,
    detailFiles: seq<File>,
    detailPreviews: seq<Preview>,
    options: seq<OptionRow>)

  /** The files of the picked previews, in preview order. */
  function FilesOf(ps: seq<Preview>): (files: seq<File>)
    ensures |files| <= |ps|
  {
    if ps == [] then []
    else (if ps[0].Picked? then [ps[0].file] else []) + FilesOf(ps[1..])
  }

  /** `detailPreviews.filter(p => p.isNew).length` */
  function NewCount(ps: seq<Preview>): nat {
    |FilesOf(ps)|
  }

  /** `detailFiles` holds one file per picked preview. */
  predicate FilesCounted(f: FormState) {
    |f.detailFiles| == NewCount(f.detailPreviews)
  }

  /** `detailFiles` is exactly the picked previews' files, in preview order. */
  predicate FilesInOrder(f: FormState) {
    f.detailFiles == FilesOf(f.detailPreviews)
  }

  lemma {:induction false} FilesOfAppend(a: seq<Preview>, b: seq<Preview>)
    ensures FilesOf(a + b) == FilesOf(a) + FilesOf(b)
    decreases |a|
  {
    if a != [] {
      assert (a + b)[1..] == a[1..] + b;
      FilesOfAppend(a[1..], b);
    } else {
      assert a + b == b;
    }
  }

  /** A picked preview's file sits in `FilesOf` at the number of picked previews before it. */
  lemma PickedFileAt(ps: seq<Preview>, i: int)
    requires 0 <= i < |ps| && ps[i].Picked?
    ensures NewCount(ps[..i]) < NewCount(ps)
    ensures FilesOf(ps)[NewCount(ps[..i])] == ps[i].file
  {
    FilesOfAround(ps, i);
  }

  /** The position of the picked preview whose file is entry `k` of `FilesOf(ps)`. */
  function PreviewOf(ps: seq<Preview>, k: int): (j: nat)
    requires 0 <= k < NewCount(ps)
    ensures j < |ps|
    decreases |ps|
  {
    if ps[0].Picked? && k == 0 then 0
    else 1 + PreviewOf(ps[1..], if ps[0].Picked? then k - 1 else k)
  }

  /** Entry `k` of `FilesOf(ps)` is the file of a picked preview with `k` picked previews
      before it. */
  lemma {:induction false} PreviewOfPicked(ps: seq<Preview>, k: int)
    requires 0 <= k < NewCount(ps)
    ensures var j := PreviewOf(ps, k);
      ps[j].Picked? && NewCount(ps[..j]) == k && FilesOf(ps)[k] == ps[j].file
    decreases |ps|
  {
    var head := if ps[0].Picked? then [ps[0].file] else [];
    assert FilesOf(ps) == head + FilesOf(ps[1..]);
    if ps[0].Picked? && k == 0 {
      assert ps[..0] == [];
    } else {
      var k' := k - |head|;
      PreviewOfPicked(ps[1..], k');
      var j' := PreviewOf(ps[1..], k');
      assert PreviewOf(ps, k) == j' + 1;
      assert ps[..j' + 1][1..] == ps[1..][..j'];
      assert FilesOf(ps[..j' + 1]) == head + FilesOf(ps[1..][..j']);
    }
  }

  /** `PickedFileAt` and `PreviewOfPicked` for every position at once. */
  lemma PickedFilesEverywhere(ps: seq<Preview>)
    ensures forall j :: 0 <= j < |ps| && ps[j].Picked? ==>
      NewCount(ps[..j]) < NewCount(ps) && FilesOf(ps)[NewCount(ps[..j])] == ps[j].file
    ensures forall k :: 0 <= k < NewCount(ps) ==>
      var j := PreviewOf(ps, k);
      ps[j].Picked? && NewCount(ps[..j]) == k && FilesOf(ps)[k] == ps[j].file
  {
    forall j | 0 <= j < |ps| && ps[j].Picked?
      ensures NewCount(ps[..j]) < NewCount(ps) && FilesOf(ps)[NewCount(ps[..j])] == ps[j].file
    {
      PickedFileAt(ps, j);
    }
    forall k | 0 <= k < NewCount(ps)
      ensures var j := PreviewOf(ps, k);
        ps[j].Picked? && NewCount(ps[..j]) == k && FilesOf(ps)[k] == ps[j].file
    {
      PreviewOfPicked(ps, k);
    }
  }

  /** `FilesOf` of a sequence around position `i`, with and without that position. */
  lemma FilesOfAround(ps: seq<Preview>, i: int)
    requires 0 <= i < |ps|
    ensures FilesOf(ps) == FilesOf(ps[..i]) + (FilesOf([ps[i]]) + FilesOf(ps[i + 1..]))
    ensures FilesOf(RemoveAt(ps, i)) == FilesOf(ps[..i]) + FilesOf(ps[i + 1..])
    ensures FilesOf([ps[i]]) == (if ps[i].Picked? then [ps[i].file] else [])
  {
    SplitAt(ps, i);
    FilesOfAppend(ps[..i], [ps[i]] + ps[i + 1..]);
    FilesOfAppend([ps[i]], ps[i + 1..]);
    FilesOfAppend(ps[..i], ps[i + 1..]);
    assert [ps[i]][1..] == [];
  }

  /** Dropping a picked preview drops exactly its own file from `FilesOf`: the one at the
      number of picked previews before it. */
  lemma RemovePickedFile(ps: seq<Preview>, i: int)
    requires 0 <= i < |ps| && ps[i].Picked?
    ensures FilesOf(RemoveAt(ps, i)) == RemoveAt(FilesOf(ps), NewCount(ps[..i]))
  {
    FilesOfAround(ps, i);
    RemoveAtMiddle(FilesOf(ps[..i]), ps[i].file, FilesOf(ps[i + 1..]));
  }

  /** Dropping a stored preview leaves `FilesOf` as it was. */
  lemma RemoveStoredFile(ps: seq<Preview>, i: int)
    requires 0 <= i < |ps| && ps[i].Stored?
    ensures FilesOf(RemoveAt(ps, i)) == FilesOf(ps)
  {
    FilesOfAround(ps, i);
  }

  /** Picked previews count the same in any rearrangement. */
  lemma {:induction false} NewCountPermutation(a: seq<Preview>, b: seq<Preview>)
    requires multiset(a) == multiset(b)
    ensures NewCount(a) == NewCount(b)
    decreases |a|
  {
    if a == [] {
      assert |b| == |multiset(b)| == 0;
    } else {
      var x := a[0];
      assert a == [x] + a[1..];
      assert multiset(a[1..]) == multiset(a) - multiset{x};
      assert x in multiset(b);
      var m :| 0 <= m < |b| && b[m] == x;
      var rest := RemoveAt(b, m);
      MultisetRemoveAt(b, m);
      NewCountPermutation(a[1..], rest);
      FilesOfAround(b, m);
      var c := if x.Picked? then 1 else 0;
      assert NewCount(a) == c + NewCount(a[1..]);
      assert NewCount(b) == NewCount(b[..m]) + c + NewCount(b[m + 1..]);
      assert NewCount(rest) == NewCount(b[..m]) + NewCount(b[m + 1..]);
    }
  }

  /** The previews of freshly picked files. */
  function Picks(files: seq<File>): (ps: seq<Preview>)
    ensures |ps| == |files|
    ensures forall k :: 0 <= k < |files| ==> ps[k] == Picked(files[k])
  {
    seq(|files|, k requires 0 <= k < |files| => Picked(files[k]))
  }

  lemma {:induction false} FilesOfPicks(files: seq<File>)
    ensures FilesOf(Picks(files)) == files
    decreases |files|
  {
    if files != [] {
      assert Picks(files)[1..] == Picks(files[1..]);
      FilesOfPicks(files[1..]);
      assert files == [files[0]] + files[1..];
    }
  }

  // ---------------------------------------------------------------------------------------
  // Initial state

  /** The options an edit form starts from: the product's own, or a single default row. */
  function EditOptions(p: ProductResponse): (vs: seq<OptionRequest>)
    ensures |vs| >= 1
    ensures |p.options| == 0 ==> vs == [DefaultOption]
    ensures |p.options| > 0 ==> |vs| == |p.options|
    ensures |p.options| > 0 ==> forall k :: 0 <= k < |vs| ==>
      vs[k] == OptionRequest(p.options[k].optionValue, p.options[k].extraPrice, p.options[k].stock)
  {
    if |p.options| > 0 then
      seq(|p.options|, k requires 0 <= k < |p.options| =>
        OptionRequest(p.options[k].optionValue, p.options[k].extraPrice, p.options[k].stock))
    else [DefaultOption]
  }

  function StoredPreviews(images: Option<seq<ImageResponse>>): (ps: seq<Preview>)
    ensures images.None? ==> ps == []
    ensures images.Some? ==> |ps| == |images.value|
    ensures images.Some? ==> forall k :: 0 <= k < |ps| ==>
      ps[k] == Stored(images.value[k].imageId, ImageUrl(images.value[k].imageUrl))
  {
    if images.None? then []
    else
      seq(|images.value|, k requires 0 <= k < |images.value| =>
        Stored(images.value[k].imageId, ImageUrl(images.value[k].imageUrl)))
  }

  /** The state an edit form starts in, over the option rows made for it. */
  function EditForm(p: ProductResponse, rows: seq<OptionRow>): FormState {
    FormState(
      p.productName, Some(p.basePrice),
      if p.continent.Some? then p.continent.value else "",
      p.nationality, p.processType,
      None, ImageUrl(p.thumbnailImg),
      [], StoredPreviews(p.detailImages),
      rows)
  }

  /** An edit form starts with no picked file: both file invariants hold. */
  lemma EditFormFilesInOrder(p: ProductResponse, rows: seq<OptionRow>)
    ensures FilesInOrder(EditForm(p, rows)) && FilesCounted(EditForm(p, rows))
  {
    var ps := StoredPreviews(p.detailImages);
    assert forall k :: 0 <= k < |ps| ==> ps[k].Stored?;
    NoPicksNoFiles(ps);
  }

  lemma {:induction false} NoPicksNoFiles(ps: seq<Preview>)
    requires forall k :: 0 <= k < |ps| ==> ps[k].Stored?
    ensures FilesOf(ps) == []
    decreases |ps|
  {
    if ps != [] {
      assert forall k :: 0 <= k < |ps[1..]| ==> ps[1..][k] == ps[k + 1];
      NoPicksNoFiles(ps[1..]);
    }
  }

  /** One new row object per value. */
  method NewRows(values: seq<OptionRequest>) returns (rows: seq<OptionRow>)
    ensures |rows| == |values|
    ensures forall k :: 0 <= k < |rows| ==> fresh(rows[k])
    ensures RowValues(rows) == values
  {
    rows := [];
    var i := 0;
    while i < |values|
      invariant 0 <= i <= |values| && |rows| == i
      invariant forall k :: 0 <= k < i ==> fresh(rows[k]) && RowValue(rows[k]) == values[k]
    {
      var row := new OptionRow(values[i]);
      rows := rows + [row];
      i := i + 1;
    }
  }

  /** The module-level `initialForm`, built once: its single default row is one object. */
  method NewInitialForm() returns (f: FormState)
    ensures f == FormState("", None, "", "", "", None, "", [], [], f.options)
    ensures |f.options| == 1 && fresh(f.options[0]) && RowValue(f.options[0]) == DefaultOption
  {
    var row := new OptionRow(DefaultOption);
    f := FormState("", None, "", "", "", None, "", [], [], [row]);
  }

  // ---------------------------------------------------------------------------------------
  // Validation and payload

  predicate PricePositive(price: Option<int>) {
    price.Some? && price.value > 0
  }

  /** `validateForm`: the first failing check, in the source's order, or `None`. */
  function Validate(f: FormState, editingId: Option<int>): (r: Option<Notice>)
    ensures r == Some(NameRequired) <==> IsBlank(f.name)
    ensures r == Some(PriceRequired) <==> !IsBlank(f.name) && !PricePositive(f.price)
    ensures r == Some(ThumbnailRequired) <==>
      !IsBlank(f.name) && PricePositive(f.price)
      && !Truthy(editingId) && f.thumbnailFile.None? && f.thumbnailPreview == ""
    ensures r.None? || r == Some(NameRequired) || r == Some(PriceRequired) || r == Some(ThumbnailRequired)
  {
    if IsBlank(f.name) then Some(NameRequired)
    else if !PricePositive(f.price) then Some(PriceRequired)
    else if !Truthy(editingId) && f.thumbnailFile.None? && f.thumbnailPreview == "" then Some(ThumbnailRequired)
    else None
  }

  /** The multipart request `handleSubmit` builds. */
  datatype Submission = Submission(
    productName: string,
    basePrice: int,
    continent: string,
    nationality: string,
    processType: string,
    thumbnail: Option<File>,
    detailImages: seq<File>,
    options: seq<OptionRequest>)

  /** The `FormData` `handleSubmit` sends: the text fields, the price as a number (0 when
      empty), the thumbnail when one was picked, one `detailImages` part per new preview in
      preview order, and the options. */
  function Payload(f: FormState, options: seq<OptionRequest>): (s: Submission)
    ensures s.productName == f.name && s.continent == f.continent
    ensures s.nationality == f.nationality && s.processType == f.processType
    ensures s.basePrice == (if f.price.Some? then f.price.value else 0)
    ensures s.thumbnail == f.thumbnailFile && s.options == options
    ensures |s.detailImages| == NewCount(f.detailPreviews)
    // the new preview at position j is uploaded as part number "new previews before j" ...
    ensures forall j :: 0 <= j < |f.detailPreviews| && f.detailPreviews[j].Picked? ==>
      NewCount(f.detailPreviews[..j]) < |s.detailImages|
      && s.detailImages[NewCount(f.detailPreviews[..j])] == f.detailPreviews[j].file
    // ... and every uploaded part is such a preview's file
    ensures forall k :: 0 <= k < |s.detailImages| ==>
      var j := PreviewOf(f.detailPreviews, k);
      f.detailPreviews[j].Picked? && NewCount(f.detailPreviews[..j]) == k
      && s.detailImages[k] == f.detailPreviews[j].file
  {
    PickedFilesEverywhere(f.detailPreviews);
    Submission(
      f.name, if f.price.Some? then f.price.value else 0,
      f.continent, f.nationality, f.processType,
      f.thumbnailFile, FilesOf(f.detailPreviews), options)
  }

  /** The uploaded detail images are the picked ones in preview order: the same files as
      `detailFiles` while nothing was reordered, and as many of them in any case. */
  lemma PayloadFiles(f: FormState, options: seq<OptionRequest>)
    ensures FilesInOrder(f) ==> Payload(f, options).detailImages == f.detailFiles
    ensures FilesCounted(f) ==> |Payload(f, options).detailImages| == |f.detailFiles|
  {
  }

  /** Submitting an edit form untouched sends the product back as it was listed, with no
      thumbnail and no detail image to upload. */
  lemma UntouchedEditResubmits(p: ProductResponse, rows: seq<OptionRow>, editingId: Option<int>)
    requires Truthy(editingId)
    ensures Validate(EditForm(p, rows), editingId).None? <==> !IsBlank(p.productName) && p.basePrice > 0
    ensures var s := Payload(EditForm(p, rows), EditOptions(p));
      && s.productName == p.productName && s.basePrice == p.basePrice
      && s.nationality == p.nationality && s.processType == p.processType
      && s.thumbnail.None? && s.detailImages == []
      && (|p.options| > 0 ==> |s.options| == |p.options|)
  {
    EditFormFilesInOrder(p, rows);
  }

  // ---------------------------------------------------------------------------------------
  // The component

  /** Which field an input's `onChange` names. */
  datatype Field = Name(name: string) | Price(price: Option<int>) | Nationality(nationality: string)
                 | ProcessType(processType: string)

  /** Which column of an option row `changeOption` writes. */
  datatype OptionEdit = SetValue(optionValue: string) | SetExtraPrice(extraPrice: int) | SetStock(stock: int)

  function Apply(v: OptionRequest, edit: OptionEdit): OptionRequest {
    match edit
    case SetValue(s) => v.(optionValue := s)
    case SetExtraPrice(n) => v.(extraPrice := n)
    case SetStock(n) => v.(stock := n)
  }

  /** No row object appears twice in the list. */
  predicate Distinct(rows: seq<OptionRow>) {
    forall i, j :: 0 <= i < j < |rows| ==> rows[i] != rows[j]
  }

  /** `WEIGHT_OPTIONS.findIndex(w => !used.includes(w))`, with `|ws|` for none. */
  function FirstUnused(ws: seq<string>, used: seq<string>): (k: nat)
    ensures k <= |ws|
    ensures forall j :: 0 <= j < k ==> ws[j] in used
    ensures k < |ws| ==> ws[k] !in used
  {
    if ws == [] then 0
    else if ws[0] !in used then 0
    else 1 + FirstUnused(ws[1..], used)
  }

  /** The weight `addOption` gives a new row: the first unused one, else `300g`. */
  function NextWeight(used: seq<string>): (w: string)
    ensures w in WeightOptions
    ensures (exists k :: 0 <= k < |WeightOptions| && WeightOptions[k] !in used) ==> w !in used
    // with every weight in use the new row gets `300g`
    ensures (forall k :: 0 <= k < |WeightOptions| ==> WeightOptions[k] in used) ==> w == "300g"
    // an unused weight that is picked is the first unused one in the list's order
    ensures w !in used ==>
      forall i, j :: 0 <= i < j < |WeightOptions| && WeightOptions[j] == w ==> WeightOptions[i] in used
  {
    var k := FirstUnused(WeightOptions, used);
    assert forall i, j :: 0 <= i < j < |WeightOptions| ==> WeightOptions[i] != WeightOptions[j];
    if k < |WeightOptions| then WeightOptions[k] else "300g"
  }

  lemma {:induction false} SubsetCard<T>(a: set<T>, b: set<T>)
    requires a <= b
    ensures |a| <= |b|
    decreases |a|
  {
    if a != {} {
      var x :| x in a;
      SubsetCard(a - {x}, b - {x});
    }
  }

  lemma {:induction false} SetOfSeqCard<T>(s: seq<T>)
    ensures |set x | x in s| <= |s|
    decreases |s|
  {
    if s != [] {
      SetOfSeqCard(s[1..]);
      assert (set x | x in s) == {s[0]} + (set x | x in s[1..]);
    }
  }

  /** With fewer rows than weights some weight is unused, so a row added below the cap never
      repeats a weight: the `300g` fallback is never taken from `addOption`. */
  lemma NextWeightUnused(used: seq<string>)
    requires |used| < |WeightOptions|
    ensures NextWeight(used) !in used
  {
    if forall k :: 0 <= k < |WeightOptions| ==> WeightOptions[k] in used {
      var weights := set w | w in WeightOptions;
      assert weights == {"200g", "300g", "500g", "1kg"};
      assert |weights| == 4;
      SubsetCard(weights, set x | x in used);
      SetOfSeqCard(used);
      assert false;
    }
  }

  class Editor {
    const store: ProductStore.Store
    const editingId: Option<int>
    const initialForm: FormState
    var form: FormState

    /** The `useState` initialiser: an edit form from `editData`, else `initialForm` itself. */
    constructor(store: ProductStore.Store, editingId: Option<int>, editData: Option<ProductResponse>,
                initialForm: FormState)
      ensures this.store == store && this.editingId == editingId && this.initialForm == initialForm
      ensures editData.None? ==> form == initialForm
      ensures editData.Some? ==> form == EditForm(editData.value, form.options)
      ensures editData.Some? ==> RowValues(form.options) == EditOptions(editData.value)
      ensures editData.Some? ==> forall k :: 0 <= k < |form.options| ==> fresh(form.options[k])
    {
      this.store := store;
      this.editingId := editingId;
      this.initialForm := initialForm;
      if editData.Some? {
        var rows := NewRows(EditOptions(editData.value));
        form := EditForm(editData.value, rows);
      } else {
        form := initialForm;
      }
    }

    /** `change(e)`: only the named field changes. */
    method Change(field: Field)
      modifies this
      ensures field.Name? ==> form == old(form).(name := field.name)
      ensures field.Price? ==> form == old(form).(price := field.price)
      ensures field.Nationality? ==> form == old(form).(nationality := field.nationality)
      ensures field.ProcessType? ==> form == old(form).(processType := field.processType)
    {
      match field
      case Name(s) => form := form.(name := s);
      case Price(p) => form := form.(price := p);
      case Nationality(s) => form := form.(nationality := s);
      case ProcessType(s) => form := form.(processType := s);
    }

    /** The continent select: a new continent always clears the nationality. */
    method ChangeContinent(continent: string)
      modifies this
      ensures form == old(form).(continent := continent, nationality := "")
    {
      form := form.(continent := continent, nationality := "");
    }

    /** `changeThumbnail(file)`: no file, no change; `objectUrl` is the browser's preview URL. */
    method ChangeThumbnail(file: Option<File>, objectUrl: string)
      modifies this
      ensures file.None? ==> form == old(form)
      ensures file.Some? ==> form == old(form).(thumbnailFile := file, thumbnailPreview := objectUrl)
    {
      if file.None? {
        return;
      }
      form := form.(thumbnailFile := file, thumbnailPreview := objectUrl);
    }

    /** The thumbnail's remove button. */
    method RemoveThumbnail()
      modifies this
      ensures form == old(form).(thumbnailFile := None, thumbnailPreview := "")
    {
      form := form.(thumbnailFile := None, thumbnailPreview := "");
    }

    /** `addDetailFiles(files)`: files and their previews are appended side by side. */
    method AddDetailFiles(files: seq<File>)
      modifies this
      ensures form == old(form).(detailFiles := old(form.detailFiles) + files,
                                 detailPreviews := old(form.detailPreviews) + Picks(files))
      ensures FilesCounted(old(form)) ==> FilesCounted(form)
      ensures FilesInOrder(old(form)) ==> FilesInOrder(form)
    {
      form := form.(detailFiles := form.detailFiles + files, detailPreviews := form.detailPreviews + Picks(files));
      FilesOfAppend(old(form.detailPreviews), Picks(files));
      FilesOfPicks(files);
    }

    /** `removeDetail(index)`: the preview goes; for a picked one, so does the file counted at
        its position among the picked previews. */
    method RemoveDetail(index: int)
      modifies this
      ensures form.detailPreviews == RemoveAt(old(form.detailPreviews), index)
      ensures 0 <= index < |old(form.detailPreviews)| && old(form.detailPreviews)[index].Picked? ==>
        form.detailFiles == RemoveAt(old(form.detailFiles), NewCount(old(form.detailPreviews)[..index]))
      ensures !(0 <= index < |old(form.detailPreviews)| && old(form.detailPreviews)[index].Picked?) ==>
        form.detailFiles == old(form.detailFiles)
      ensures form == old(form).(detailFiles := form.detailFiles, detailPreviews := form.detailPreviews)
      ensures FilesCounted(old(form)) ==> FilesCounted(form)
      ensures FilesInOrder(old(form)) ==> FilesInOrder(form)
    {
      var previews := form.detailPreviews;
      var picked := 0 <= index < |previews| && previews[index].Picked?;
      var files := form.detailFiles;
      if picked {
        var newFileIndex := NewCount(previews[..index]);
        files := RemoveAt(files, newFileIndex);
        PickedFileAt(previews, index);
      }
      if 0 <= index < |previews| {
        if previews[index].Picked? {
          RemovePickedFile(previews, index);
        } else {
          RemoveStoredFile(previews, index);
        }
      }
      form := form.(detailFiles := files, detailPreviews := RemoveAt(previews, index));
    }

    /** `moveDetail(from, to)`: a swap of two previews, a no-op when `to` is off either end. The
        files are not reordered. */
    method MoveDetail(from: int, to: int)
      requires 0 <= from < |form.detailPreviews|
      modifies this
      ensures !(0 <= to < |old(form.detailPreviews)|) ==> form == old(form)
      ensures 0 <= to < |old(form.detailPreviews)| ==>
        form == old(form).(detailPreviews := Swap(old(form.detailPreviews), from, to))
      ensures FilesCounted(old(form)) ==> FilesCounted(form)
    {
      if to < 0 || to >= |form.detailPreviews| {
        return;
      }
      var previews := Swap(form.detailPreviews, from, to);
      NewCountPermutation(form.detailPreviews, previews);
      form := form.(detailPreviews := previews);
    }

    /** `changeOption(index, key, value)` as written: the row object itself is written, so the
        form list is unchanged and every holder of that object sees the new value. */
    method ChangeOptionAsWritten(index: int, edit: OptionEdit)
      requires 0 <= index < |form.options|
      modifies form.options[index]
      ensures RowValue(form.options[index]) == Apply(old(RowValue(form.options[index])), edit)
      ensures Distinct(form.options) ==>
        RowValues(form.options) == old(RowValues(form.options))[index := RowValue(form.options[index])]
    {
      var row := form.options[index];
      match edit
      case SetValue(s) => row.optionValue := s;
      case SetExtraPrice(n) => row.extraPrice := n;
      case SetStock(n) => row.stock := n;
    }

    /** `changeOption` with the row copied before it is written: only this form changes. */
    method ChangeOption(index: int, edit: OptionEdit)
      requires 0 <= index < |form.options|
      modifies this
      ensures |form.options| == |old(form.options)|
      ensures form == old(form).(options := old(form.options)[index := form.options[index]])
      ensures fresh(form.options[index])
      ensures RowValues(form.options) == old(RowValues(form.options))[index := Apply(old(RowValue(form.options[index])), edit)]
    {
      var row := new OptionRow(Apply(RowValue(form.options[index]), edit));
      form := form.(options := form.options[index := row]);
    }

    /** `addOption`: at the cap a warning and no change; below it one new row with the next
        weight and zero extra price and stock. */
    method AddOption()
      modifies this, store
      ensures |old(form.options)| >= MaxOptions ==>
        form == old(form) && store.message == Shown(Warning, OptionLimit)
      ensures |old(form.options)| < MaxOptions ==>
        && form == old(form).(options := form.options)
        && |form.options| == |old(form.options)| + 1
        && form.options[..|form.options| - 1] == old(form.options)
        && fresh(form.options[|form.options| - 1])
        && RowValues(form.options) ==
           old(RowValues(form.options)) + [OptionRequest(NextWeight(old(OptionValues(form.options))), 0, 0)]
        && store.message == old(store.message)
      ensures store.products == old(store.products) && store.loading == old(store.loading)
    {
      if |form.options| >= MaxOptions {
        store.ShowMessage(Warning, OptionLimit);
        return;
      }
      var used := OptionValues(form.options);
      var nextOption := NextWeight(used);
      var row := new OptionRow(OptionRequest(nextOption, 0, 0));
      form := form.(options := form.options + [row]);
      assert form.options[..|form.options| - 1] == old(form.options);
    }

    /** `removeOption(index)`: the last row is never removed; otherwise exactly row `index`. */
    method RemoveOption(index: int)
      modifies this, store
      ensures |old(form.options)| <= 1 ==> form == old(form) && store.message == Shown(Warning, OptionMinimum)
      ensures |old(form.options)| > 1 ==>
        form == old(form).(options := RemoveAt(old(form.options), index)) && store.message == old(store.message)
      ensures |old(form.options)| > 1 ==> RowValues(form.options) == RemoveAt(old(RowValues(form.options)), index)
      ensures store.products == old(store.products) && store.loading == old(store.loading)
    {
      if |form.options| <= 1 {
        store.ShowMessage(Warning, OptionMinimum);
        return;
      }
      form := form.(options := RemoveAt(form.options, index));
    }

    /** `handleSubmit`: an invalid form shows its first failure and sends nothing; a valid one
        hands the payload to `onSave`. */
    method HandleSubmit() returns (r: Option<Submission>)
      modifies store
      ensures Validate(form, editingId).Some? ==>
        r.None? && store.message == Shown(Error, Validate(form, editingId).value)
      ensures Validate(form, editingId).None? ==>
        r == Some(Payload(form, RowValues(form.options))) && store.message == old(store.message)
      ensures store.products == old(store.products) && store.loading == old(store.loading)
    {
      var failure := Validate(form, editingId);
      if failure.Some? {
        store.ShowMessage(Error, failure.value);
        return None;
      }
      r := Some(Payload(form, RowValues(form.options)));
    }

    /** `handleCancel`: back to `initialForm` (the page then ends the edit session). */
    method HandleCancel()
      modifies this
      ensures form == initialForm
    {
      form := initialForm;
    }
  }

  /** `form.options.map(o => o.optionValue)` */
  function OptionValues(rows: seq<OptionRow>): (vs: seq<string>)
    reads set r | r in rows
    ensures |vs| == |rows|
    ensures forall k :: 0 <= k < |rows| ==> vs[k] == rows[k].optionValue
  {
    seq(|rows|, k requires 0 <= k < |rows| reads set r | r in rows => rows[k].optionValue)
  }

  // ---------------------------------------------------------------------------------------
  // The shared default row

  /** As written: a create form edits the default row's extra price; the next create form
      (after any remount) starts from `initialForm` and shows that price instead of 0. */
  method DefaultOptionLeaks() returns (extraPrice: int)
    ensures extraPrice == 500
  {
    var store := new ProductStore.Store();
    var initial := NewInitialForm();
    var first := new Editor(store, None, None, initial);
    first.ChangeOptionAsWritten(0, SetExtraPrice(500));
    var second := new Editor(store, None, None, initial);
    extraPrice := second.form.options[0].extraPrice;
  }

  /** With the row copied before the write, the next create form starts from the default. */
  method DefaultOptionKept() returns (extraPrice: int)
    ensures extraPrice == DefaultOption.extraPrice
  {
    var store := new ProductStore.Store();
    var initial := NewInitialForm();
    var first := new Editor(store, None, None, initial);
    first.ChangeOption(0, SetExtraPrice(500));
    var second := new Editor(store, None, None, initial);
    extraPrice := second.form.options[0].extraPrice;
  }
}
