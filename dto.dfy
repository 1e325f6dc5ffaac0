/** The JSON shapes exchanged between the admin client and the server (the `dto` package),
    and the order status enumeration. Nullable Java strings other than the ones spelled
    `Option` here are modelled as strings, with `null` read as `""` as the client's `|| ''` does. */
module Dto {
  import opened Common

  // ---------------------------------------------------------------------------------------
  // Products

  datatype ImageResponse = ImageResponse(imageId: int, imageUrl: Option<string>, sortOrder: int)

  /** `variantId` is not a property of the Java DTO: it exists only in the corrected answer
      `ProductService.ToResponse`, which the product screen needs to edit stock; the answer
      as written (`ProductService.ToResponseAsWritten`) never fills it. */
  datatype OptionResponse = OptionResponse(
    optionId: int, optionValue: string, extraPrice: int, stock: int, variantId: Option<int>)

  /** `processType` is the DTO's `type` (the bean processing method). */
  datatype ProductResponse = ProductResponse(
    productId: int,
    productName: string,
    basePrice: int,
    processType: string,
    continent: Option<string>,
    nationality: string,
    thumbnailImg: Option<string>,
    detailImages: Option<seq<ImageResponse>>,
    options: seq<OptionResponse>)

  datatype OptionRequest = OptionRequest(optionValue: string, extraPrice: int, stock: int)

  /** What the product controller hands the service; `options` is null when the multipart
      request carries no `options` part. There is no continent: the controller drops it. */
  datatype ProductRequest = ProductRequest(
    productName: string,
    basePrice: int,
    processType: string,
    nationality: string,
    options: Option<seq<OptionRequest>>)

  // ---------------------------------------------------------------------------------------
  // Members

  datatype MemberRequest = MemberRequest(
    email: string, password: Option<string>, name: string, phone: string, address: string)

  /** Has no password property at all. */
  datatype MemberResponse = MemberResponse(
    memberId: int, email: string, name: string, phone: string, address: string)

  // ---------------------------------------------------------------------------------------
  // Orders

  datatype OrderStatus = PENDING | PAID | SHIPPING | COMPLETED | CANCELLED

  /** `OrderStatus.name()` */
  function StatusName(s: OrderStatus): (name: string)
    // a constant's name is a non-empty run of capital letters
    ensures name != [] && forall k :: 0 <= k < |name| ==> 'A' <= name[k] <= 'Z'
  {
    match s
    case PENDING => "PENDING"
    case PAID => "PAID"
    case SHIPPING => "SHIPPING"
    case COMPLETED => "COMPLETED"
    case CANCELLED => "CANCELLED"
  }

  /** `OrderStatus.getDisplayName()` */
  function DisplayName(s: OrderStatus): (shown: string)
    // every label is a non-empty Korean word, written in Hangul syllables
    ensures shown != [] && forall k :: 0 <= k < |shown| ==> '\U{AC00}' <= shown[k] <= '\U{D7A3}'
  {
    match s
    case PENDING => "대기"
    case PAID => "결제완료"
    case SHIPPING => "배송중"
    case COMPLETED => "완료"
    case CANCELLED => "취소"
  }

  /** `OrderStatus.valueOf(name)`: exact, case-sensitive match of a constant's name. */
  function ParseStatus(name: string): (r: Option<OrderStatus>)
    ensures r.Some? ==> StatusName(r.value) == name
  {
    if name == "PENDING" then Some(PENDING)
    else if name == "PAID" then Some(PAID)
    else if name == "SHIPPING" then Some(SHIPPING)
    else if name == "COMPLETED" then Some(COMPLETED)
    else if name == "CANCELLED" then Some(CANCELLED)
    else None
  }

  /** `valueOf` inverts `name()`: every constant is found by its own name and only by it. */
  lemma ParseStatusName(s: OrderStatus, name: string)
    ensures ParseStatus(StatusName(s)) == Some(s)
    ensures ParseStatus(name) == Some(s) <==> name == StatusName(s)
  {
  }

  datatype OrderItemRequest = OrderItemRequest(variantId: Option<int>, quantity: int)

  datatype OrderRequest = OrderRequest(memberId: int, shippingAddress: string, items: seq<OrderItemRequest>)

  datatype MemberSummary = MemberSummary(memberId: int, name: string, email: string, phone: string)

  datatype OrderItemResponse = OrderItemResponse(
    orderItemId: int, variantId: int, productName: string, optionValue: string,
    quantity: int, unitPrice: int, subtotal: int)

  datatype OrderResponse = OrderResponse(
    orderId: int,
    member: MemberSummary,
    status: string,
    statusDisplayName: string,
    totalAmount: int,
    shippingAddress: string,
    items: seq<OrderItemResponse>)
}
