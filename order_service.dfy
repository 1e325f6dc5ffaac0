/** The order service over the order and order-item tables. Members and product variants are
    read from the other services' tables, passed in as maps. Java `int` arithmetic on prices
    wraps around at 32 bits, and the model says so with `Int32`. */
module OrderService {
  import opened Common
  import opened Dto
  import MemberService

  /** What the order code reads through a variant: its product's name and base price and its
      option's value and extra price. */
  datatype VariantInfo = VariantInfo(productName: string, basePrice: int, optionValue: string, extraPrice: int)

  datatype Order = Order(memberId: int, status: OrderStatus, shippingAddress: string, totalAmount: int)

  datatype OrderItem = OrderItem(itemId: int, orderId: int, variantId: int, quantity: int, unitPrice: int)

  /** The order and order-item tables; one counter hands out the ids of both. */
  datatype Tables = Tables(orders: map<int, Order>, items: seq<OrderItem>, nextId: int)

  type Members = map<int, MemberService.Member>
  type Catalog = map<int, VariantInfo>

  function OrderOf(it: OrderItem): int {
    it.orderId
  }

  /** Ids lie below the counter and every item belongs to a stored order. */
  ghost predicate Valid(db: Tables) {
    && (forall id :: id in db.orders ==> id < db.nextId)
    && (forall it :: it in db.items ==> it.orderId in db.orders && it.itemId < db.nextId)
  }

  /** The foreign keys into the other tables: every order's member and every item's variant exist. */
  ghost predicate Linked(db: Tables, members: Members, catalog: Catalog) {
    && (forall id :: id in db.orders ==> db.orders[id].memberId in members)
    && (forall it :: it in db.items ==> it.variantId in catalog)
  }

  // ---------------------------------------------------------------------------------------
  // Prices

  /** `basePrice + extraPrice` in Java `int` arithmetic. */
  function UnitPrice(v: VariantInfo): int {
    Int32(v.basePrice + v.extraPrice)
  }

  /** One resolved request line. */
  datatype Line = Line(variantId: int, quantity: int, unitPrice: int)

  /** `unitPrice * quantity` in Java `int` arithmetic. */
  function Subtotal(l: Line): int {
    Int32(l.unitPrice * l.quantity)
  }

  /** The loop's accumulator: `totalAmount += unitPrice * quantity`, line by line. */
  function Total(lines: seq<Line>): (total: int)
    // the accumulator is a Java `int` after every step
    ensures InInt32(total)
    decreases |lines|
  {
    if lines == [] then 0
    else Int32(Total(lines[..|lines| - 1]) + Subtotal(lines[|lines| - 1]))
  }

  /** The exact sum of `unitPrice * quantity`. */
  function Sum(lines: seq<Line>): int
    decreases |lines|
  {
    if lines == [] then 0
    else Sum(lines[..|lines| - 1]) + lines[|lines| - 1].unitPrice * lines[|lines| - 1].quantity
  }

  /** The total is the exact sum of the line amounts wrapped to 32 bits, so it is the exact
      sum whenever that fits in an `int`. */
  lemma {:induction false} TotalIsSum(lines: seq<Line>)
    ensures Total(lines) == Int32(Sum(lines))
    ensures InInt32(Sum(lines)) ==> Total(lines) == Sum(lines)
    decreases |lines|
  {
    if lines != [] {
      var init := lines[..|lines| - 1];
      var l := lines[|lines| - 1];
      TotalIsSum(init);
      Int32AddWrapped(Sum(init), Subtotal(l));
      Int32AddWrapped(l.unitPrice * l.quantity, Sum(init));
      assert Total(lines) == Int32(Sum(init) + l.unitPrice * l.quantity);
    }
    if InInt32(Sum(lines)) {
      Int32Exact(Sum(lines));
    }
  }

  // ---------------------------------------------------------------------------------------
  // Resolving the request items

  /** `variantRepository.findById(itemReq.getVariantId())` succeeds. */
  predicate Resolvable(catalog: Catalog, it: OrderItemRequest) {
    it.variantId.Some? && it.variantId.value in catalog
  }

  /** One iteration of the loop: a null id is rejected by `findById`, an unknown one by
      `orElseThrow`. */
  function ResolveLine(catalog: Catalog, it: OrderItemRequest): (r: Result<Line>)
    ensures r.Ok? <==> Resolvable(catalog, it)
    ensures it.variantId.None? ==> r == Err(NullValue)
    ensures it.variantId.Some? && it.variantId.value !in catalog ==> r == Err(NotFound)
    // a resolved line keeps the item's variant and quantity and prices it from the catalog
    ensures r.Ok? ==>
      && r.value.variantId == it.variantId.value && r.value.quantity == it.quantity
      && r.value.unitPrice == UnitPrice(catalog[it.variantId.value])
  {
    if it.variantId.None? then Err(NullValue)
    else if it.variantId.value !in catalog then Err(NotFound)
    else Ok(Line(it.variantId.value, it.quantity, UnitPrice(catalog[it.variantId.value])))
  }

  /** The lines of the request in order, or the failure of the first item that does not resolve. */
  function Lines(catalog: Catalog, reqs: seq<OrderItemRequest>): (r: Result<seq<Line>>)
    ensures r.Ok? ==> |r.value| == |reqs|
    decreases |reqs|
  {
    if reqs == [] then Ok([])
    else
      match Lines(catalog, reqs[..|reqs| - 1])
      case Err(e) => Err(e)
      case Ok(ls) =>
        match ResolveLine(catalog, reqs[|reqs| - 1])
        case Err(e) => Err(e)
        case Ok(l) => Ok(ls + [l])
  }

  /** The lines exist exactly when every item resolves, and line `k` carries item `k`'s
      variant and quantity and that variant's unit price. */
  lemma {:induction false} LinesResolve(catalog: Catalog, reqs: seq<OrderItemRequest>)
    ensures Lines(catalog, reqs).Ok? <==> forall k :: 0 <= k < |reqs| ==> Resolvable(catalog, reqs[k])
    ensures Lines(catalog, reqs).Ok? ==> forall k :: 0 <= k < |reqs| ==>
      Lines(catalog, reqs).value[k]
        == Line(reqs[k].variantId.value, reqs[k].quantity, UnitPrice(catalog[reqs[k].variantId.value]))
    decreases |reqs|
  {
    if reqs != [] {
      var init := reqs[..|reqs| - 1];
      LinesResolve(catalog, init);
      assert forall k :: 0 <= k < |init| ==> init[k] == reqs[k];
    }
  }

  lemma {:induction false} LinesStopsAtFailure(catalog: Catalog, reqs: seq<OrderItemRequest>, n: nat)
    requires n <= |reqs| && Lines(catalog, reqs[..n]).Err?
    ensures Lines(catalog, reqs) == Lines(catalog, reqs[..n])
    decreases |reqs| - n
  {
    if n < |reqs| {
      assert reqs[..n + 1][..n] == reqs[..n];
      LinesStopsAtFailure(catalog, reqs, n + 1);
    } else {
      assert reqs[..n] == reqs;
    }
  }

  /** An item that does not resolve after a run of items that do decides the failure. */
  lemma LinesFailAt(catalog: Catalog, reqs: seq<OrderItemRequest>, k: nat)
    requires k < |reqs| && !Resolvable(catalog, reqs[k]) && Lines(catalog, reqs[..k]).Ok?
    ensures Lines(catalog, reqs) == Err(if reqs[k].variantId.None? then NullValue else NotFound)
  {
    assert reqs[..k + 1][..k] == reqs[..k];
    LinesStopsAtFailure(catalog, reqs, k + 1);
  }

  /** The first item that does not resolve decides the failure. */
  lemma LinesFirstFailure(catalog: Catalog, reqs: seq<OrderItemRequest>, k: nat)
    requires k < |reqs| && !Resolvable(catalog, reqs[k])
    requires forall j :: 0 <= j < k ==> Resolvable(catalog, reqs[j])
    ensures Lines(catalog, reqs) == Err(if reqs[k].variantId.None? then NullValue else NotFound)
  {
    LinesResolve(catalog, reqs[..k]);
    LinesFailAt(catalog, reqs, k);
  }

  // ---------------------------------------------------------------------------------------
  // What a call does

  /** The rows the loop saves: item `k` gets the `k`-th id from `firstId` on. */
  function ItemRows(orderId: int, lines: seq<Line>, firstId: int): (rows: seq<OrderItem>)
    ensures |rows| == |lines|
    decreases |lines|
  {
    if lines == [] then []
    else
      var l := lines[|lines| - 1];
      ItemRows(orderId, lines[..|lines| - 1], firstId) + [OrderItem(firstId + |lines| - 1, orderId, l.variantId, l.quantity, l.unitPrice)]
  }

  /** Row `k` records line `k` of the order under id `firstId + k`. */
  lemma {:induction false} ItemRowsAt(orderId: int, lines: seq<Line>, firstId: int)
    ensures forall k :: 0 <= k < |lines| ==>
      ItemRows(orderId, lines, firstId)[k]
        == OrderItem(firstId + k, orderId, lines[k].variantId, lines[k].quantity, lines[k].unitPrice)
    decreases |lines|
  {
    if lines != [] {
      ItemRowsAt(orderId, lines[..|lines| - 1], firstId);
    }
  }

  /** The tables after a create whose items resolved to `lines`: the order, PENDING with the
      accumulated total, under the next id, and its rows after the existing ones. */
  function Placed(db: Tables, req: OrderRequest, lines: seq<Line>): Tables {
    var order := Order(req.memberId, PENDING, req.shippingAddress, Total(lines));
    Tables(db.orders[db.nextId := order], db.items + ItemRows(db.nextId, lines, db.nextId + 1),
           db.nextId + 1 + |lines|)
  }

  /** `createOrder`: the member must exist, then every item must resolve. */
  function Create(db: Tables, members: Members, catalog: Catalog, req: OrderRequest): (r: Result<(Tables, int)>)
    ensures r.Ok? ==> r.value.1 == db.nextId
  {
    if req.memberId !in members then Err(NotFound)
    else
      match Lines(catalog, req.items)
      case Err(e) => Err(e)
      case Ok(lines) => Ok((Placed(db, req, lines), db.nextId))
  }

  /** `updateOrderStatus`: the order must exist, then the name must be a status constant's. */
  function UpdateStatus(db: Tables, id: int, name: string): (r: Result<Tables>)
    ensures id !in db.orders ==> r == Err(NotFound)
    ensures id in db.orders ==> (r.Ok? <==> ParseStatus(name).Some?)
    ensures id in db.orders && r.Err? ==> r.error == UnknownStatus
  {
    if id !in db.orders then Err(NotFound)
    else
      match ParseStatus(name)
      case None => Err(UnknownStatus)
      case Some(s) => Ok(db.(orders := db.orders[id := db.orders[id].(status := s)]))
  }

  /** `deleteOrder`: the order's items, then the order. */
  function Delete(db: Tables, id: int): (r: Result<Tables>)
    ensures id !in db.orders <==> r == Err(NotFound)
    ensures r.Ok? ==> r.value.orders == db.orders - {id} && r.value.nextId == db.nextId
    ensures r.Ok? ==> |r.value.items| <= |db.items|
  {
    if id !in db.orders then Err(NotFound)
    else Ok(Tables(db.orders - {id}, RemoveByKey(db.items, OrderOf, id), db.nextId))
  }

  // ---------------------------------------------------------------------------------------
  // toResponse

  /** `orderItemRepository.findByOrderWithDetails(order)`: the order's items, in table order. */
  function ItemsOf(items: seq<OrderItem>, orderId: int): (r: seq<OrderItem>)
    ensures |r| <= |items|
  {
    if items == [] then []
    else (if items[0].orderId == orderId then [items[0]] else []) + ItemsOf(items[1..], orderId)
  }

  lemma {:induction false} ItemsOfMembers(items: seq<OrderItem>, orderId: int)
    ensures forall it :: it in ItemsOf(items, orderId) ==> it in items && it.orderId == orderId
    decreases |items|
  {
    if items != [] {
      ItemsOfMembers(items[1..], orderId);
    }
  }

  lemma {:induction false} ItemsOfAppend(a: seq<OrderItem>, b: seq<OrderItem>, orderId: int)
    ensures ItemsOf(a + b, orderId) == ItemsOf(a, orderId) + ItemsOf(b, orderId)
    decreases |a|
  {
    if a != [] {
      assert (a + b)[1..] == a[1..] + b;
      ItemsOfAppend(a[1..], b, orderId);
    } else {
      assert a + b == b;
    }
  }

  /** Rows of other orders are all dropped. */
  lemma {:induction false} ItemsOfNone(items: seq<OrderItem>, orderId: int)
    requires forall it :: it in items ==> it.orderId != orderId
    ensures ItemsOf(items, orderId) == []
    decreases |items|
  {
    if items != [] {
      assert items[0] in items;
      assert forall it :: it in items[1..] ==> it in items;
      ItemsOfNone(items[1..], orderId);
    }
  }

  /** Rows of this order are all kept. */
  lemma {:induction false} ItemsOfAll(items: seq<OrderItem>, orderId: int)
    requires forall k :: 0 <= k < |items| ==> items[k].orderId == orderId
    ensures ItemsOf(items, orderId) == items
    decreases |items|
  {
    if items != [] {
      assert forall k :: 0 <= k < |items[1..]| ==> items[1..][k] == items[k + 1];
      ItemsOfAll(items[1..], orderId);
      assert [items[0]] + items[1..] == items;
    }
  }

  /** Dropping one order's items leaves every other order's items as they were. */
  lemma {:induction false} ItemsOfRemoveOther(items: seq<OrderItem>, id: int, orderId: int)
    requires id != orderId
    ensures ItemsOf(RemoveByKey(items, OrderOf, id), orderId) == ItemsOf(items, orderId)
    decreases |items|
  {
    if items != [] {
      ItemsOfRemoveOther(items[1..], id, orderId);
      if items[0].orderId != id {
        var rest := RemoveByKey(items[1..], OrderOf, id);
        assert RemoveByKey(items, OrderOf, id) == [items[0]] + rest;
        assert ([items[0]] + rest)[1..] == rest;
      }
    }
  }

  function ItemResponse(catalog: Catalog, it: OrderItem): (r: OrderItemResponse)
    requires it.variantId in catalog
    ensures r.subtotal == Subtotal(Line(it.variantId, it.quantity, it.unitPrice))
  {
    var v := catalog[it.variantId];
    OrderItemResponse(it.itemId, it.variantId, v.productName, v.optionValue, it.quantity, it.unitPrice,
                      Int32(it.unitPrice * it.quantity))
  }

  function ItemResponses(catalog: Catalog, items: seq<OrderItem>): (r: seq<OrderItemResponse>)
    requires forall it :: it in items ==> it.variantId in catalog
    ensures |r| == |items|
  {
    seq(|items|, k requires 0 <= k < |items| => ItemResponse(catalog, items[k]))
  }

  function Summary(id: int, m: MemberService.Member): MemberSummary {
    MemberSummary(id, m.name, m.email, m.phone)
  }

  /** `toResponse(order)`, read at the moment of the call. */
  function ToResponse(db: Tables, members: Members, catalog: Catalog, id: int): (r: OrderResponse)
    requires id in db.orders && Linked(db, members, catalog)
    ensures r.orderId == id && r.totalAmount == db.orders[id].totalAmount
    ensures |r.items| == |ItemsOf(db.items, id)|
  {
    ItemsOfMembers(db.items, id);
    var o := db.orders[id];
    OrderResponse(id, Summary(o.memberId, members[o.memberId]), StatusName(o.status), DisplayName(o.status),
                  o.totalAmount, o.shippingAddress, ItemResponses(catalog, ItemsOf(db.items, id)))
  }

  /** `getOrder` */
  function Get(db: Tables, members: Members, catalog: Catalog, id: int): (r: Result<OrderResponse>)
    requires Linked(db, members, catalog)
    ensures id !in db.orders <==> r == Err(NotFound)
  {
    if id !in db.orders then Err(NotFound) else Ok(ToResponse(db, members, catalog, id))
  }

  // ---------------------------------------------------------------------------------------
  // Properties of the calls

  /** An order is refused for an unknown member before any item is looked at, and otherwise
      for the first item that does not resolve; it is accepted exactly when all resolve. */
  lemma CreateRejects(db: Tables, members: Members, catalog: Catalog, req: OrderRequest)
    ensures req.memberId !in members ==> Create(db, members, catalog, req) == Err(NotFound)
    ensures Create(db, members, catalog, req).Ok? <==>
      req.memberId in members && forall k :: 0 <= k < |req.items| ==> Resolvable(catalog, req.items[k])
    ensures forall k :: 0 <= k < |req.items| && req.memberId in members && !Resolvable(catalog, req.items[k])
                        && (forall j :: 0 <= j < k ==> Resolvable(catalog, req.items[j])) ==>
      Create(db, members, catalog, req) == Err(if req.items[k].variantId.None? then NullValue else NotFound)
  {
    LinesResolve(catalog, req.items);
    forall k | 0 <= k < |req.items| && req.memberId in members && !Resolvable(catalog, req.items[k])
               && (forall j :: 0 <= j < k ==> Resolvable(catalog, req.items[j]))
      ensures Create(db, members, catalog, req) == Err(if req.items[k].variantId.None? then NullValue else NotFound)
    {
      LinesFirstFailure(catalog, req.items, k);
    }
  }

  /** What a successful create stores: the tables placed from the resolved lines. */
  lemma CreatePlaces(db: Tables, members: Members, catalog: Catalog, req: OrderRequest)
    requires Create(db, members, catalog, req).Ok?
    ensures req.memberId in members && Lines(catalog, req.items).Ok?
    ensures Create(db, members, catalog, req).value.0 == Placed(db, req, Lines(catalog, req.items).value)
  {
  }

  /** A created order belongs to the requesting member, starts PENDING, and its total is the
      sum of unit price times quantity (wrapped to 32 bits); the rows are added after the
      existing ones, one per request item, each priced at base price plus extra price. */
  lemma CreatedOrder(db: Tables, members: Members, catalog: Catalog, req: OrderRequest)
    requires Create(db, members, catalog, req).Ok?
    ensures var t := Create(db, members, catalog, req).value.0;
      && t.orders == db.orders[db.nextId :=
           Order(req.memberId, PENDING, req.shippingAddress, Int32(Sum(Lines(catalog, req.items).value)))]
      && t.items[..|db.items|] == db.items
      && |t.items| == |db.items| + |req.items|
      && forall k :: 0 <= k < |req.items| ==>
           var it := t.items[|db.items| + k];
           && it.itemId == db.nextId + 1 + k && it.orderId == db.nextId
           && Some(it.variantId) == req.items[k].variantId
           && it.quantity == req.items[k].quantity
           && it.variantId in catalog && it.unitPrice == UnitPrice(catalog[it.variantId])
  {
    CreatePlaces(db, members, catalog, req);
    var lines := Lines(catalog, req.items).value;
    LinesResolve(catalog, req.items);
    TotalIsSum(lines);
    ItemRowsAt(db.nextId, lines, db.nextId + 1);
    assert Placed(db, req, lines).items == db.items + ItemRows(db.nextId, lines, db.nextId + 1);
  }

  /** Placing an order for a stored member with known variants keeps the tables valid and linked. */
  lemma PlacedKeepsValid(db: Tables, members: Members, catalog: Catalog, req: OrderRequest, lines: seq<Line>)
    requires Valid(db) && Linked(db, members, catalog) && req.memberId in members
    requires forall k :: 0 <= k < |lines| ==> lines[k].variantId in catalog
    ensures Valid(Placed(db, req, lines)) && Linked(Placed(db, req, lines), members, catalog)
  {
    var rows := ItemRows(db.nextId, lines, db.nextId + 1);
    ItemRowsAt(db.nextId, lines, db.nextId + 1);
    var t := Placed(db, req, lines);
    forall it | it in t.items ensures it.orderId in t.orders && it.itemId < t.nextId && it.variantId in catalog {
      if it !in db.items {
        var k :| 0 <= k < |rows| && rows[k] == it;
      }
    }
  }

  /** A create keeps the tables valid and linked. */
  lemma CreatedKeepsValid(db: Tables, members: Members, catalog: Catalog, req: OrderRequest)
    requires Valid(db) && Linked(db, members, catalog)
    requires Create(db, members, catalog, req).Ok?
    ensures Valid(Create(db, members, catalog, req).value.0)
    ensures Linked(Create(db, members, catalog, req).value.0, members, catalog)
  {
    CreatePlaces(db, members, catalog, req);
    LinesResolve(catalog, req.items);
    PlacedKeepsValid(db, members, catalog, req, Lines(catalog, req.items).value);
  }

  /** The placed order's items, as `findByOrderWithDetails` reads them, are exactly its rows. */
  lemma PlacedItemsOf(db: Tables, req: OrderRequest, lines: seq<Line>)
    requires Valid(db)
    ensures ItemsOf(Placed(db, req, lines).items, db.nextId) == ItemRows(db.nextId, lines, db.nextId + 1)
  {
    var id := db.nextId;
    var rows := ItemRows(id, lines, id + 1);
    ItemRowsAt(id, lines, id + 1);
    ItemsOfAppend(db.items, rows, id);
    ItemsOfNone(db.items, id);
    ItemsOfAll(rows, id);
  }

  /** The answer for a placed order lists its rows in order, each with its subtotal. */
  lemma PlacedResponseItems(db: Tables, members: Members, catalog: Catalog, req: OrderRequest, lines: seq<Line>)
    requires Valid(db) && Linked(Placed(db, req, lines), members, catalog)
    ensures var r := ToResponse(Placed(db, req, lines), members, catalog, db.nextId);
      && |r.items| == |lines|
      && forall k :: 0 <= k < |lines| ==>
           && r.items[k].variantId == lines[k].variantId
           && r.items[k].quantity == lines[k].quantity
           && r.items[k].unitPrice == lines[k].unitPrice
           && r.items[k].subtotal == Subtotal(lines[k])
  {
    var t := Placed(db, req, lines);
    PlacedItemsOf(db, req, lines);
    ItemRowsAt(db.nextId, lines, db.nextId + 1);
    ItemsOfMembers(t.items, db.nextId);
    assert ToResponse(t, members, catalog, db.nextId).items
      == ItemResponses(catalog, ItemRows(db.nextId, lines, db.nextId + 1));
  }

  /** The answer to a create shows the new order as PENDING for the requesting member, with
      the requested address and, as its total, the sum of unit price times quantity. */
  lemma CreatedResponse(db: Tables, members: Members, catalog: Catalog, req: OrderRequest)
    requires Create(db, members, catalog, req).Ok?
    requires Linked(Create(db, members, catalog, req).value.0, members, catalog)
    ensures var r := ToResponse(Create(db, members, catalog, req).value.0, members, catalog, db.nextId);
      && r.status == "PENDING" && r.statusDisplayName == DisplayName(PENDING)
      && r.member == Summary(req.memberId, members[req.memberId])
      && r.shippingAddress == req.shippingAddress
      && r.totalAmount == Int32(Sum(Lines(catalog, req.items).value))
  {
    CreatePlaces(db, members, catalog, req);
    TotalIsSum(Lines(catalog, req.items).value);
  }

  /** The answer to a create lists one item per request item, in request order, each priced at
      its variant's base plus extra price and carrying its subtotal. */
  lemma CreatedResponseItems(db: Tables, members: Members, catalog: Catalog, req: OrderRequest)
    requires Valid(db) && Create(db, members, catalog, req).Ok?
    requires Linked(Create(db, members, catalog, req).value.0, members, catalog)
    ensures var r := ToResponse(Create(db, members, catalog, req).value.0, members, catalog, db.nextId);
      && |r.items| == |req.items|
      && forall k :: 0 <= k < |req.items| ==>
           && Some(r.items[k].variantId) == req.items[k].variantId
           && r.items[k].quantity == req.items[k].quantity
           && r.items[k].variantId in catalog
           && r.items[k].unitPrice == UnitPrice(catalog[r.items[k].variantId])
           && r.items[k].subtotal == Int32(r.items[k].unitPrice * r.items[k].quantity)
  {
    CreatePlaces(db, members, catalog, req);
    LinesResolve(catalog, req.items);
    PlacedResponseItems(db, members, catalog, req, Lines(catalog, req.items).value);
  }

  /** A status change alters only the status of the one order: its answer differs in the two
      status fields alone, and every other order's answer is unchanged. */
  lemma StatusChangeOnlyStatus(db: Tables, members: Members, catalog: Catalog, id: int, name: string, other: int)
    requires Linked(db, members, catalog) && UpdateStatus(db, id, name).Ok?
    requires other in db.orders && other != id
    ensures Linked(UpdateStatus(db, id, name).value, members, catalog)
    ensures ToResponse(UpdateStatus(db, id, name).value, members, catalog, id)
      == ToResponse(db, members, catalog, id).(status := name, statusDisplayName := DisplayName(ParseStatus(name).value))
    ensures ToResponse(UpdateStatus(db, id, name).value, members, catalog, other) == ToResponse(db, members, catalog, other)
  {
    ParseStatusName(ParseStatus(name).value, name);
  }

  /** Deleting an order removes it and all its items; every other order, with its items,
      answers as before. */
  lemma DeleteCascades(db: Tables, members: Members, catalog: Catalog, id: int)
    requires Valid(db) && Linked(db, members, catalog) && Delete(db, id).Ok?
    ensures var t := Delete(db, id).value;
      && Valid(t) && Linked(t, members, catalog)
      && (forall it :: it in t.items ==> it.orderId != id)
      && (forall it :: it in db.items && it.orderId != id ==> it in t.items)
      && forall o :: o in t.orders ==> ToResponse(t, members, catalog, o) == ToResponse(db, members, catalog, o)
  {
    var t := Delete(db, id).value;
    RemoveByKeyMembers(db.items, OrderOf, id);
    forall o | o in t.orders ensures ItemsOf(t.items, o) == ItemsOf(db.items, o) {
      ItemsOfRemoveOther(db.items, id, o);
    }
  }

  /** A status change keeps the tables valid. */
  lemma UpdateStatusKeepsValid(db: Tables, id: int, name: string)
    requires Valid(db) && UpdateStatus(db, id, name).Ok?
    ensures Valid(UpdateStatus(db, id, name).value)
  {
  }

  // ---------------------------------------------------------------------------------------
  // The calls, step by step

  /** One more resolved item extends the lines by its line, the total by its subtotal and
      the saved rows by its row. */
  lemma LinesSnoc(catalog: Catalog, reqs: seq<OrderItemRequest>, i: nat, lines: seq<Line>, l: Line,
                  items: seq<OrderItem>, orderId: int, firstId: int)
    requires i < |reqs| && Lines(catalog, reqs[..i]) == Ok(lines) && Resolvable(catalog, reqs[i])
    requires l == Line(reqs[i].variantId.value, reqs[i].quantity, UnitPrice(catalog[reqs[i].variantId.value]))
    ensures Lines(catalog, reqs[..i + 1]) == Ok(lines + [l])
    ensures Total(lines + [l]) == Int32(Total(lines) + Subtotal(l))
    ensures items + ItemRows(orderId, lines + [l], firstId)
      == (items + ItemRows(orderId, lines, firstId)) + [OrderItem(firstId + |lines|, orderId, l.variantId, l.quantity, l.unitPrice)]
  {
    assert reqs[..i + 1][..i] == reqs[..i];
    assert (lines + [l])[..|lines|] == lines;
  }

  /** The tables the loop leaves, once the total is set, are those `Create` describes. */
  lemma CreatedInSteps(db: Tables, members: Members, catalog: Catalog, req: OrderRequest,
                       lines: seq<Line>, orders: map<int, Order>, items: seq<OrderItem>, nextId: int)
    requires req.memberId in members && Lines(catalog, req.items) == Ok(lines)
    requires orders == db.orders[db.nextId := Order(req.memberId, PENDING, req.shippingAddress, Total(lines))]
    requires items == db.items + ItemRows(db.nextId, lines, db.nextId + 1)
    requires nextId == db.nextId + 1 + |req.items|
    ensures Create(db, members, catalog, req) == Ok((Tables(orders, items, nextId), db.nextId))
  {
    assert Placed(db, req, lines) == Tables(orders, items, nextId);
  }

  /** What the loop of `createOrder` has done after `i` items: their lines, rows and total. */
  ghost predicate SavedUpTo(catalog: Catalog, reqs: seq<OrderItemRequest>, i: nat, lines: seq<Line>,
                            items: seq<OrderItem>, orderId: int, firstId: int,
                            saved: seq<OrderItem>, totalAmount: int)
  {
    && i <= |reqs| && |lines| == i
    && Lines(catalog, reqs[..i]) == Ok(lines)
    && totalAmount == Total(lines)
    && saved == items + ItemRows(orderId, lines, firstId)
  }

  /** One more resolved item extends the lines by its line, the total by its subtotal and
      the saved rows by its row. */
  lemma SavedStep(catalog: Catalog, reqs: seq<OrderItemRequest>, i: nat, lines: seq<Line>,
                  items: seq<OrderItem>, orderId: int, firstId: int, saved: seq<OrderItem>, totalAmount: int)
    requires SavedUpTo(catalog, reqs, i, lines, items, orderId, firstId, saved, totalAmount)
    requires i < |reqs| && Resolvable(catalog, reqs[i])
    ensures var l := Line(reqs[i].variantId.value, reqs[i].quantity, UnitPrice(catalog[reqs[i].variantId.value]));
      SavedUpTo(catalog, reqs, i + 1, lines + [l], items, orderId, firstId,
                saved + [OrderItem(firstId + i, orderId, l.variantId, l.quantity, l.unitPrice)],
                Int32(totalAmount + Subtotal(l)))
  {
    var l := Line(reqs[i].variantId.value, reqs[i].quantity, UnitPrice(catalog[reqs[i].variantId.value]));
    LinesSnoc(catalog, reqs, i, lines, l, items, orderId, firstId);
  }

  /** The loop of `createOrder`: each item is looked up, priced and saved under the next id
      while the total accumulates; the first item that does not resolve ends the call. */
  method SaveItems(items: seq<OrderItem>, nextId: int, orderId: int, catalog: Catalog, reqs: seq<OrderItemRequest>)
    returns (r: Result<(seq<OrderItem>, int, int)>)
    ensures Lines(catalog, reqs).Err? ==> r == Err(Lines(catalog, reqs).error)
    ensures Lines(catalog, reqs).Ok? ==>
      r == Ok((items + ItemRows(orderId, Lines(catalog, reqs).value, nextId), nextId + |reqs|,
               Total(Lines(catalog, reqs).value)))
  {
    var saved := items;
    var id := nextId;
    var totalAmount := 0;
    ghost var lines: seq<Line> := [];
    var i := 0;
    assert reqs[..0] == [];
    while i < |reqs|
      invariant SavedUpTo(catalog, reqs, i, lines, items, orderId, nextId, saved, totalAmount)
      invariant id == nextId + i
    {
      var itemReq := reqs[i];
      if itemReq.variantId.None? || itemReq.variantId.value !in catalog {
        // `findById(null)` throws, and so does `orElseThrow` for an unknown id
        LinesFailAt(catalog, reqs, i);
        return Err(if itemReq.variantId.None? then NullValue else NotFound);
      }
      var variant := catalog[itemReq.variantId.value];
      var unitPrice := UnitPrice(variant);
      var line := Line(itemReq.variantId.value, itemReq.quantity, unitPrice);
      SavedStep(catalog, reqs, i, lines, items, orderId, nextId, saved, totalAmount);
      saved := saved + [OrderItem(id, orderId, line.variantId, itemReq.quantity, unitPrice)];
      id := id + 1;
      totalAmount := Int32(totalAmount + Subtotal(line));
      lines := lines + [line];
      i := i + 1;
    }
    assert reqs[..i] == reqs;
    r := Ok((saved, id, totalAmount));
  }

  /** The body of `createOrder`: the member is looked up, the order saved with total 0, the
      items saved, and the total set at the end. */
  method CreateInTransaction(db: Tables, members: Members, catalog: Catalog, req: OrderRequest)
    returns (r: Result<(Tables, int)>)
    ensures r == Create(db, members, catalog, req)
  {
    if req.memberId !in members {
      return Err(NotFound);
    }
    var orderId := db.nextId;
    var order := Order(req.memberId, PENDING, req.shippingAddress, 0);
    var orders := db.orders[orderId := order];
    var saved := SaveItems(db.items, db.nextId + 1, orderId, catalog, req.items);
    if saved.Err? {
      return Err(saved.error);
    }
    var (items, nextId, totalAmount) := saved.value;
    order := order.(totalAmount := totalAmount);
    assert orders[orderId := order] == db.orders[orderId := order];
    orders := orders[orderId := order];
    CreatedInSteps(db, members, catalog, req, Lines(catalog, req.items).value, orders, items, nextId);
    r := Ok((Tables(orders, items, nextId), orderId));
  }

  /** The service over its tables. `@Transactional`: a call that throws leaves them as they were. */
  class Service {
    var db: Tables

    constructor(tables: Tables)
      ensures db == tables
    {
      db := tables;
    }

    method CreateOrder(members: Members, catalog: Catalog, req: OrderRequest) returns (r: Result<OrderResponse>)
      requires Valid(db) && Linked(db, members, catalog)
      modifies this
      ensures Valid(db) && Linked(db, members, catalog)
      ensures Create(old(db), members, catalog, req).Err? ==>
        db == old(db) && r == Err(Create(old(db), members, catalog, req).error)
      ensures Create(old(db), members, catalog, req).Ok? ==>
        db == Create(old(db), members, catalog, req).value.0 && r == Ok(ToResponse(db, members, catalog, old(db).nextId))
    {
      var result := CreateInTransaction(db, members, catalog, req);
      if result.Err? {
        return Err(result.error);
      }
      CreatedKeepsValid(db, members, catalog, req);
      db := result.value.0;
      r := Ok(ToResponse(db, members, catalog, result.value.1));
    }

    method UpdateOrderStatus(members: Members, catalog: Catalog, id: int, name: string) returns (r: Result<OrderResponse>)
      requires Valid(db) && Linked(db, members, catalog)
      modifies this
      ensures Valid(db) && Linked(db, members, catalog)
      ensures UpdateStatus(old(db), id, name).Err? ==>
        db == old(db) && r == Err(UpdateStatus(old(db), id, name).error)
      ensures UpdateStatus(old(db), id, name).Ok? ==>
        db == UpdateStatus(old(db), id, name).value && r == Ok(ToResponse(db, members, catalog, id))
    {
      if id !in db.orders {
        return Err(NotFound);
      }
      var newStatus := ParseStatus(name);
      if newStatus.None? {
        return Err(UnknownStatus);
      }
      UpdateStatusKeepsValid(db, id, name);
      db := db.(orders := db.orders[id := db.orders[id].(status := newStatus.value)]);
      r := Ok(ToResponse(db, members, catalog, id));
    }

    method DeleteOrder(members: Members, catalog: Catalog, id: int) returns (r: Result<()>)
      requires Valid(db) && Linked(db, members, catalog)
      modifies this
      ensures Valid(db) && Linked(db, members, catalog)
      ensures Delete(old(db), id).Err? ==> db == old(db) && r == Err(NotFound)
      ensures Delete(old(db), id).Ok? ==> db == Delete(old(db), id).value && r == Ok(())
    {
      if id !in db.orders {
        return Err(NotFound);
      }
      DeleteCascades(db, members, catalog, id);
      var remaining := RemoveByKey(db.items, OrderOf, id);
      db := Tables(db.orders - {id}, remaining, db.nextId);
      r := Ok(());
    }

    method GetOrder(members: Members, catalog: Catalog, id: int) returns (r: Result<OrderResponse>)
      requires Linked(db, members, catalog)
      ensures r == Get(db, members, catalog, id)
    {
      if id !in db.orders {
        return Err(NotFound);
      }
      r := Ok(ToResponse(db, members, catalog, id));
    }
  }
}
