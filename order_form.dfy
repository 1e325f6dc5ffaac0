/** The new-order form (`order/OrderForm.jsx`): the chosen member, the shipping address and the
    item rows, each row an object the form writes in place. The member and product lists it
    picks from and the status banner it writes are the order store's. */
module OrderForm {
  import opened Common
  import opened Dto
  import OrderStore
  import OrderService

  // ---------------------------------------------------------------------------------------
  // Lookups

  /** `Number(v)` of a select's value: the empty choice `''` reads as 0. */
  function IdNumber(v: Option<int>): int {
    if v.Some? then v.value else 0
  }

  /** The position `list.find(p)` stops at, `|s|` when nothing matches. */
  function FirstIndex<T>(s: seq<T>, p: T -> bool): (k: nat)
    ensures k <= |s|
    ensures forall j :: 0 <= j < k ==> !p(s[j])
    ensures k < |s| ==> p(s[k])
  {
    if s == [] then 0
    else if p(s[0]) then 0
    else 1 + FirstIndex(s[1..], p)
  }

  /** `list.find(p)`: the first element that matches. */
  function Find<T>(s: seq<T>, p: T -> bool): (r: Option<T>)
    ensures r.None? <==> forall j :: 0 <= j < |s| ==> !p(s[j])
    ensures r.Some? ==> r.value == s[FirstIndex(s, p)] && p(r.value)
  {
    var k := FirstIndex(s, p);
    if k < |s| then Some(s[k]) else None
  }

  /** `members.find(m => m.memberId === id)` */
  function FindMember(members: seq<MemberResponse>, id: int): Option<MemberResponse> {
    Find(members, (m: MemberResponse) => m.memberId == id)
  }

  /** `products.find(p => p.productId === id)` */
  function FindProduct(products: seq<ProductResponse>, id: int): Option<ProductResponse> {
    Find(products, (p: ProductResponse) => p.productId == id)
  }

  /** `getProductOptions(productId)`: the options of the first product with that id, none when
      there is no such product. */
  function ProductOptions(products: seq<ProductResponse>, productId: Option<int>): (os: seq<OptionResponse>)
    ensures (forall j :: 0 <= j < |products| ==> products[j].productId != IdNumber(productId)) ==> os == []
    ensures FindProduct(products, IdNumber(productId)).Some? ==>
      os == FindProduct(products, IdNumber(productId)).value.options
  {
    var product := FindProduct(products, IdNumber(productId));
    if product.Some? then product.value.options else []
  }

  // ---------------------------------------------------------------------------------------
  // Item rows

  /** An item row: an object that `changeItem` writes in place. */
  class ItemRow {
    var productId: Option<int>
    var optionId: Option<int>
    var quantity: int

    /** `{ productId: '', optionId: '', quantity: 1 }` */
    constructor()
      ensures productId == None && optionId == None && quantity == 1
    {
      productId := None;
      optionId := None;
      quantity := 1;
    }
  }

  /** What a row holds; `None` is the select's empty choice. */
  datatype Item = Item(productId: Option<int>, optionId: Option<int>, quantity: int)

  const BlankItem: Item := Item(None, None, 1)

  function ItemOf(row: ItemRow): Item
    reads row
  {
    Item(row.productId, row.optionId, row.quantity)
  }

  function ItemValues(rows: seq<ItemRow>): (vs: seq<Item>)
    reads set r | r in rows
    ensures |vs| == |rows|
    ensures forall k :: 0 <= k < |rows| ==> vs[k] == ItemOf(rows[k])
  {
    seq(|rows|, k requires 0 <= k < |rows| reads set r | r in rows => ItemOf(rows[k]))
  }

  /** No row object appears twice in the list. */
  predicate Distinct(rows: seq<ItemRow>) {
    forall i, j :: 0 <= i < j < |rows| ==> rows[i] != rows[j]
  }

  /** Which column of a row `changeItem` writes. */
  datatype ItemEdit = SetProduct(productId: Option<int>) | SetOption(optionId: Option<int>) | SetQuantity(quantity: int)

  /** A new product clears the row's option. */
  function ApplyItem(it: Item, edit: ItemEdit): (r: Item)
    ensures edit.SetProduct? ==> r.optionId.None?
  {
    match edit
    case SetProduct(id) => it.(productId := id, optionId := None)
    case SetOption(id) => it.(optionId := id)
    case SetQuantity(q) => it.(quantity := q)
  }

  datatype FormState = FormState(memberId: Option<int>, shippingAddress: string, items: seq<ItemRow>)

  // ---------------------------------------------------------------------------------------
  // Validation and the request

  /** A row names both a product and an option. */
  predicate Complete(it: Item) {
    it.productId.Some? && it.optionId.Some?
  }

  /** `validateForm`: the member is checked before the rows. */
  function Validate(memberId: Option<int>, items: seq<Item>): (r: Option<Notice>)
    ensures r == Some(MemberRequired) <==> memberId.None?
    ensures r == Some(ItemIncomplete) <==> memberId.Some? && exists k :: 0 <= k < |items| && !Complete(items[k])
    ensures r.None? <==> memberId.Some? && forall k :: 0 <= k < |items| ==> Complete(items[k])
  {
    if memberId.None? then Some(MemberRequired)
    else if exists k :: 0 <= k < |items| && !Complete(items[k]) then Some(ItemIncomplete)
    else None
  }

  /** `product?.options?.find(o => o.optionId === Number(it.optionId))` */
  function SelectedOption(products: seq<ProductResponse>, it: Item): Option<OptionResponse> {
    Find(ProductOptions(products, it.productId), (o: OptionResponse) => o.optionId == IdNumber(it.optionId))
  }

  /** A request line: the selected option's variant id, absent when there is none. */
  function LineOf(products: seq<ProductResponse>, it: Item): (l: OrderItemRequest)
    ensures l.quantity == it.quantity
    ensures SelectedOption(products, it).None? ==> l.variantId.None?
    ensures SelectedOption(products, it).Some? ==> l.variantId == SelectedOption(products, it).value.variantId
  {
    var option := SelectedOption(products, it);
    OrderItemRequest(if option.Some? then option.value.variantId else None, it.quantity)
  }

  /** What `handleSubmit` hands `onSave`: one line per row, in row order. */
  function RequestOf(memberId: Option<int>, shippingAddress: string, products: seq<ProductResponse>,
                     items: seq<Item>): (req: OrderRequest)
    ensures req.memberId == IdNumber(memberId) && req.shippingAddress == shippingAddress
    ensures |req.items| == |items|
    ensures forall k :: 0 <= k < |items| ==> req.items[k] == LineOf(products, items[k])
  {
    OrderRequest(IdNumber(memberId), shippingAddress,
                 seq(|items|, k requires 0 <= k < |items| => LineOf(products, items[k])))
  }

  /** Changing a row's product clears its option, so the form does not pass validation again
      until an option of the new product is picked. */
  lemma ProductChangeBlocksSubmit(memberId: Option<int>, items: seq<Item>, index: int, productId: Option<int>)
    requires 0 <= index < |items|
    ensures Validate(memberId, items[index := ApplyItem(items[index], SetProduct(productId))]).Some?
  {
    var after := items[index := ApplyItem(items[index], SetProduct(productId))];
    assert !Complete(after[index]);
  }

  /** When no product option carries a variant id (the server's answer as written), every
      order the form sends for a known member is refused on its first line, for a null id. */
  lemma {:induction false} OrdersRejectedAsWritten(db: OrderService.Tables, members: OrderService.Members,
                                                   catalog: OrderService.Catalog, products: seq<ProductResponse>,
                                                   memberId: Option<int>, shippingAddress: string, items: seq<Item>)
    requires forall j, k :: 0 <= j < |products| && 0 <= k < |products[j].options| ==>
      products[j].options[k].variantId.None?
    requires IdNumber(memberId) in members && |items| > 0
    ensures OrderService.Create(db, members, catalog, RequestOf(memberId, shippingAddress, products, items))
            == Err(NullValue)
  {
    var req := RequestOf(memberId, shippingAddress, products, items);
    var option := SelectedOption(products, items[0]);
    if option.Some? {
      var product := FindProduct(products, IdNumber(items[0].productId));
      var k := FirstIndex(products, (p: ProductResponse) => p.productId == IdNumber(items[0].productId));
      assert product.value == products[k];
      var os := product.value.options;
      var i := FirstIndex(os, (o: OptionResponse) => o.optionId == IdNumber(items[0].optionId));
      assert option.value == os[i];
    }
    assert req.items[0].variantId.None?;
    OrderService.LinesFirstFailure(catalog, req.items, 0);
  }

  /** When every row selects an option whose variant id the catalogue knows (the server's
      answer with variant ids in place), the order for a known member is accepted, and line
      `k` is row `k`'s variant in row `k`'s quantity. */
  lemma SelectedVariantsOrdered(db: OrderService.Tables, members: OrderService.Members,
                                catalog: OrderService.Catalog, products: seq<ProductResponse>,
                                memberId: Option<int>, shippingAddress: string, items: seq<Item>)
    requires IdNumber(memberId) in members
    requires forall k :: 0 <= k < |items| ==>
      && SelectedOption(products, items[k]).Some?
      && SelectedOption(products, items[k]).value.variantId.Some?
      && SelectedOption(products, items[k]).value.variantId.value in catalog
    ensures OrderService.Create(db, members, catalog, RequestOf(memberId, shippingAddress, products, items)).Ok?
    ensures var lines := OrderService.Lines(catalog, RequestOf(memberId, shippingAddress, products, items).items);
      && lines.Ok? && |lines.value| == |items|
      && forall k :: 0 <= k < |items| ==>
           lines.value[k].variantId == SelectedOption(products, items[k]).value.variantId.value
           && lines.value[k].quantity == items[k].quantity
  {
    var req := RequestOf(memberId, shippingAddress, products, items);
    forall k | 0 <= k < |req.items|
      ensures OrderService.Resolvable(catalog, req.items[k])
      ensures req.items[k].variantId == SelectedOption(products, items[k]).value.variantId
      ensures req.items[k].quantity == items[k].quantity
    {
      assert req.items[k] == LineOf(products, items[k]);
    }
    OrderService.LinesResolve(catalog, req.items);
    OrderService.CreateRejects(db, members, catalog, req);
  }

  // ---------------------------------------------------------------------------------------
  // The component

  class Editor {
    const store: OrderStore.Store
    var form: FormState

    /** Every row is its own object. */
    ghost predicate Valid()
      reads this
    {
      Distinct(form.items)
    }

    /** The first render: no member, no address, one blank row. */
    constructor(store: OrderStore.Store)
      ensures this.store == store && Valid()
      ensures form.memberId == None && form.shippingAddress == ""
      ensures ItemValues(form.items) == [BlankItem] && fresh(form.items[0])
    {
      this.store := store;
      var row := new ItemRow();
      form := FormState(None, "", [row]);
    }

    /** `changeMember`: the member's address, when it has one, replaces the typed address. */
    method ChangeMember(memberId: Option<int>)
      requires Valid()
      modifies this
      ensures form.memberId == memberId && form.items == old(form.items) && Valid()
      ensures var m := FindMember(store.members, IdNumber(memberId));
        form.shippingAddress == (if m.Some? && m.value.address != "" then m.value.address
                                 else old(form.shippingAddress))
      ensures (forall j :: 0 <= j < |store.members| ==> store.members[j].memberId != IdNumber(memberId)) ==>
        form.shippingAddress == old(form.shippingAddress)
    {
      var member := FindMember(store.members, IdNumber(memberId));
      form := form.(memberId := memberId,
                    shippingAddress := if member.Some? && member.value.address != "" then member.value.address
                                       else form.shippingAddress);
    }

    /** The address input. */
    method ChangeAddress(shippingAddress: string)
      requires Valid()
      modifies this
      ensures form == old(form).(shippingAddress := shippingAddress) && Valid()
    {
      form := form.(shippingAddress := shippingAddress);
    }

    /** `changeItem(index, field, value)`: the row object itself is written; the other rows
        keep their values. */
    method ChangeItem(index: int, edit: ItemEdit)
      requires Valid() && 0 <= index < |form.items|
      modifies form.items[index]
      ensures ItemValues(form.items) == old(ItemValues(form.items))[index := ApplyItem(old(ItemOf(form.items[index])), edit)]
    {
      var row := form.items[index];
      match edit
      case SetProduct(id) =>
        row.productId := id;
        row.optionId := None;
      case SetOption(id) => row.optionId := id;
      case SetQuantity(q) => row.quantity := q;
    }

    /** `addItem`: one new blank row at the end. */
    method AddItem()
      requires Valid()
      modifies this
      ensures |form.items| == |old(form.items)| + 1 && fresh(form.items[|old(form.items)|])
      ensures form == old(form).(items := old(form.items) + [form.items[|old(form.items)|]])
      ensures ItemValues(form.items) == old(ItemValues(form.items)) + [BlankItem]
      ensures Valid()
    {
      var row := new ItemRow();
      form := form.(items := form.items + [row]);
    }

    /** `removeItem(index)`: the last row stays, with a warning. */
    method RemoveItem(index: int)
      requires Valid()
      modifies this, store
      ensures |old(form.items)| <= 1 ==> form == old(form) && store.message == Shown(Warning, ItemMinimum)
      ensures |old(form.items)| > 1 ==>
        form == old(form).(items := RemoveAt(old(form.items), index)) && store.message == old(store.message)
      ensures |old(form.items)| > 1 ==> ItemValues(form.items) == RemoveAt(old(ItemValues(form.items)), index)
      ensures |form.items| >= 1 || |old(form.items)| == 0
      ensures Valid()
      ensures store.orders == old(store.orders) && store.members == old(store.members)
      ensures store.products == old(store.products) && store.loading == old(store.loading)
    {
      if |form.items| <= 1 {
        store.ShowMessage(Warning, ItemMinimum);
        return;
      }
      form := form.(items := RemoveAt(form.items, index));
    }

    /** `handleSubmit`: a failed validation shows its error and sends nothing; otherwise the
        request is built from the rows and the store's product list. */
    method HandleSubmit() returns (r: Option<OrderRequest>)
      modifies store
      ensures Validate(form.memberId, ItemValues(form.items)).Some? ==>
        r.None? && store.message == Shown(Error, Validate(form.memberId, ItemValues(form.items)).value)
      ensures Validate(form.memberId, ItemValues(form.items)).None? ==>
        r == Some(RequestOf(form.memberId, form.shippingAddress, store.products, ItemValues(form.items)))
        && store.message == old(store.message)
      ensures store.orders == old(store.orders) && store.members == old(store.members)
      ensures store.products == old(store.products) && store.loading == old(store.loading)
    {
      var failure := Validate(form.memberId, ItemValues(form.items));
      if failure.Some? {
        store.ShowMessage(Error, failure.value);
        return None;
      }
      r := Some(RequestOf(form.memberId, form.shippingAddress, store.products, ItemValues(form.items)));
    }
  }
}
