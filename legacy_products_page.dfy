/** The older, self-contained product page (`pages/AdminProducts.jsx`): its own product list,
    edit session and form, with detail files and their previews kept as two parallel lists.
    Unlike the store-based page it checks no response status and catches no failure. */
module LegacyProductsPage {
  import opened Common
  import opened Dto
  import ProductForm
  import ProductStore

  type File = ProductForm.File

  const MaxOptions: int := 3
  const AddedOption: OptionRequest := OptionRequest("300g", 0, 0)

  datatype Form = Form(
    name: string,
    price: Option<int>,
    nationality: string,
    processType: string,
    thumbnailFile: Option<File>,
    thumbnailPreview: string,
    detailFiles: seq<File>,
    detailPreviews: seq<string>,
    options: seq<OptionRequest>)

  /** The form `reset` (and the first render) shows. */
  const BlankForm: Form := Form("", None, "", "", None, "", [], [], [ProductForm.DefaultOption])

  /** Which field an input's `onChange` names. */
  datatype Field = Name(name: string) | Price(price: Option<int>) | Nationality(nationality: string)
                 | ProcessType(processType: string)

  /** The multipart request `submit` builds: each detail file goes with its position. */
  datatype Submission = Submission(
    productName: string,
    basePrice: int,
    nationality: string,
    processType: string,
    thumbnail: Option<File>,
    detailImages: seq<File>,
    detailOrders: seq<int>,
    options: seq<OptionRequest>)

  /** `0, 1, ..., n - 1` */
  function Positions(n: nat): (ps: seq<int>)
    ensures |ps| == n
    ensures forall k :: 0 <= k < n ==> ps[k] == k
  {
    seq(n, k => k)
  }

  /** What `submit` sends for a form. */
  function SubmissionOf(f: Form): (s: Submission)
    ensures s.detailImages == f.detailFiles
    ensures |s.detailOrders| == |f.detailFiles|
    ensures forall k :: 0 <= k < |f.detailFiles| ==> s.detailOrders[k] == k
  {
    Submission(f.name, if f.price.Some? then f.price.value else 0, f.nationality, f.processType,
               f.thumbnailFile, f.detailFiles, Positions(|f.detailFiles|), f.options)
  }

  /** `p.options.map(...)` as the form holds them. */
  function OptionValues(options: seq<OptionResponse>): (vs: seq<OptionRequest>)
    ensures |vs| == |options|
    ensures forall k :: 0 <= k < |vs| ==>
      vs[k] == OptionRequest(options[k].optionValue, options[k].extraPrice, options[k].stock)
  {
    seq(|options|, k requires 0 <= k < |options| =>
      OptionRequest(options[k].optionValue, options[k].extraPrice, options[k].stock))
  }

  /** The form `edit(p)` fills in, when it gets that far: no detail image to preview. */
  function EditForm(p: ProductResponse): Form {
    Form(p.productName, Some(p.basePrice), p.nationality, p.processType,
         None, ProductForm.ImageUrl(p.thumbnailImg), [], [], OptionValues(p.options))
  }

  /** `edit(p)` reads each detail image as a string (`img.startsWith`); the server sends
      objects, so the call fails whenever there is one to read. */
  predicate EditFails(p: ProductResponse) {
    p.detailImages.Some? && |p.detailImages.value| > 0
  }

  class Page {
    var products: seq<ProductResponse>
    var editingId: Option<int>
    var form: Form

    /** Each detail file has its preview at the same position. */
    ghost predicate Valid()
      reads this
    {
      |form.detailFiles| == |form.detailPreviews|
    }

    constructor()
      ensures products == [] && editingId == None && form == BlankForm && Valid()
    {
      products := [];
      editingId := None;
      form := BlankForm;
    }

    /** The mount-time fetch: the body of any response becomes the list. */
    method Load(reply: Reply<seq<ProductResponse>>)
      modifies this
      ensures products == (if reply.Answered? then reply.body else old(products))
      ensures editingId == old(editingId) && form == old(form)
    {
      if reply.Answered? {
        products := reply.body;
      }
    }

    /** `change(e)`: only the named field changes. */
    method Change(field: Field)
      requires Valid()
      modifies this
      ensures field.Name? ==> form == old(form).(name := field.name)
      ensures field.Price? ==> form == old(form).(price := field.price)
      ensures field.Nationality? ==> form == old(form).(nationality := field.nationality)
      ensures field.ProcessType? ==> form == old(form).(processType := field.processType)
      ensures products == old(products) && editingId == old(editingId) && Valid()
    {
      match field
      case Name(s) => form := form.(name := s);
      case Price(p) => form := form.(price := p);
      case Nationality(s) => form := form.(nationality := s);
      case ProcessType(s) => form := form.(processType := s);
    }

    /** `changeThumbnail(file)`: the file is taken even when there is none; the preview only
        changes for a file (`objectUrl` is the browser's URL for it). */
    method ChangeThumbnail(file: Option<File>, objectUrl: string)
      requires Valid()
      modifies this
      ensures form == old(form).(thumbnailFile := file,
                                 thumbnailPreview := if file.Some? then objectUrl else old(form.thumbnailPreview))
      ensures products == old(products) && editingId == old(editingId) && Valid()
    {
      form := form.(thumbnailFile := file,
                    thumbnailPreview := if file.Some? then objectUrl else form.thumbnailPreview);
    }

    /** `addDetailFiles(files)`: files and their previews are appended side by side. */
    method AddDetailFiles(files: seq<File>, objectUrl: File -> string)
      requires Valid()
      modifies this
      ensures form.detailFiles == old(form.detailFiles) + files
      ensures |form.detailPreviews| == |old(form.detailPreviews)| + |files|
      ensures form.detailPreviews[..|old(form.detailPreviews)|] == old(form.detailPreviews)
      ensures forall k :: 0 <= k < |files| ==> form.detailPreviews[|old(form.detailPreviews)| + k] == objectUrl(files[k])
      ensures form == old(form).(detailFiles := form.detailFiles, detailPreviews := form.detailPreviews)
      ensures products == old(products) && editingId == old(editingId) && Valid()
    {
      var urls := seq(|files|, k requires 0 <= k < |files| => objectUrl(files[k]));
      form := form.(detailFiles := form.detailFiles + files, detailPreviews := form.detailPreviews + urls);
      assert form.detailPreviews[..|old(form.detailPreviews)|] == old(form.detailPreviews);
    }

    /** `removeDetail(i)`: the same position leaves both lists. */
    method RemoveDetail(i: int)
      requires Valid()
      modifies this
      ensures form == old(form).(detailFiles := RemoveAt(old(form.detailFiles), i),
                                 detailPreviews := RemoveAt(old(form.detailPreviews), i))
      ensures products == old(products) && editingId == old(editingId) && Valid()
    {
      form := form.(detailFiles := RemoveAt(form.detailFiles, i),
                    detailPreviews := RemoveAt(form.detailPreviews, i));
    }

    /** `moveDetail(from, to)`: the same swap in both lists, a no-op when `to` is off either
        end of the file list. */
    method MoveDetail(from: int, to: int)
      requires Valid() && 0 <= from < |form.detailPreviews|
      modifies this
      ensures !(0 <= to < |old(form.detailFiles)|) ==> form == old(form)
      ensures 0 <= to < |old(form.detailFiles)| ==>
        form == old(form).(detailFiles := Swap(old(form.detailFiles), from, to),
                           detailPreviews := Swap(old(form.detailPreviews), from, to))
      ensures products == old(products) && editingId == old(editingId) && Valid()
    {
      if to < 0 || to >= |form.detailFiles| {
        return;
      }
      var files := form.detailFiles;
      var previews := form.detailPreviews;
      files := files[from := files[to]][to := files[from]];
      previews := previews[from := previews[to]][to := previews[from]];
      form := form.(detailFiles := files, detailPreviews := previews);
    }

    /** `addOption`: up to three rows; each added row is `300g` with nothing extra. */
    method AddOption()
      requires Valid()
      modifies this
      ensures |old(form.options)| >= MaxOptions ==> form == old(form)
      ensures |old(form.options)| < MaxOptions ==> form == old(form).(options := old(form.options) + [AddedOption])
      ensures products == old(products) && editingId == old(editingId) && Valid()
    {
      if |form.options| >= MaxOptions {
        return;
      }
      form := form.(options := form.options + [AddedOption]);
    }

    /** `removeOption(i)`: the first row is never removed. */
    method RemoveOption(i: int)
      requires Valid()
      modifies this
      ensures i == 0 ==> form == old(form)
      ensures i != 0 ==> form == old(form).(options := RemoveAt(old(form.options), i))
      ensures |old(form.options)| > 0 ==> |form.options| > 0 && form.options[0] == old(form.options)[0]
      ensures products == old(products) && editingId == old(editingId) && Valid()
    {
      if i == 0 {
        return;
      }
      form := form.(options := RemoveAt(form.options, i));
    }

    /** `reset`: no edit session, blank form. */
    method Reset()
      modifies this
      ensures editingId == None && form == BlankForm && products == old(products) && Valid()
    {
      editingId := None;
      form := BlankForm;
    }

    /** `submit`: builds the request, then takes any answer as the saved product: replaced by
        id in an edit, prepended otherwise, and the form reset. Without an answer nothing
        happens. */
    method Submit(reply: Reply<ProductResponse>) returns (sent: Submission)
      requires Valid()
      modifies this
      ensures sent == SubmissionOf(old(form))
      ensures reply.Answered? ==>
        && products == Saved(old(products), ProductStore.ProductKey, reply.body, old(editingId))
        && editingId == None && form == BlankForm
      ensures reply.NoReply? ==> products == old(products) && editingId == old(editingId) && form == old(form)
      ensures Valid()
    {
      var files := form.detailFiles;
      var detailImages: seq<File> := [];
      var detailOrders: seq<int> := [];
      var index := 0;
      while index < |files|
        invariant 0 <= index <= |files|
        invariant detailImages == files[..index]
        invariant detailOrders == Positions(index)
      {
        detailImages := detailImages + [files[index]];
        detailOrders := detailOrders + [index];
        index := index + 1;
      }
      assert files[..index] == files;
      sent := Submission(form.name, if form.price.Some? then form.price.value else 0, form.nationality,
                         form.processType, form.thumbnailFile, detailImages, detailOrders, form.options);
      if reply.Answered? {
        var saved := reply.body;
        if Truthy(editingId) {
          products := ReplaceByKey(products, ProductStore.ProductKey, saved);
        } else {
          products := [saved] + products;
        }
        Reset();
      }
    }

    /** `edit(p)`: the session moves to `p` first; the form follows only when `p` has no detail
        image, since reading one fails. */
    method Edit(p: ProductResponse)
      requires Valid()
      modifies this
      ensures editingId == Some(p.productId)
      ensures form == (if EditFails(p) then old(form) else EditForm(p))
      ensures products == old(products) && Valid()
    {
      editingId := Some(p.productId);
      if EditFails(p) {
        return;
      }
      form := EditForm(p);
    }

    /** `remove(id)`: after a confirmation, any answer drops the id from the list. */
    method Remove(id: int, confirmed: bool, reply: Reply<()>)
      requires Valid()
      modifies this
      ensures products == (if confirmed && reply.Answered? then RemoveByKey(old(products), ProductStore.ProductKey, id)
                           else old(products))
      ensures editingId == old(editingId) && form == old(form) && Valid()
    {
      if !confirmed {
        return;
      }
      if reply.Answered? {
        products := RemoveByKey(products, ProductStore.ProductKey, id);
      }
    }
  }
}
