/**
 * The product detail page: the quantity input and the add-to-cart handler.
 */
module ProductDetail {
  import opened Common
  import opened Storage
  import opened CartLines
  import CartPage
  import CartBadge

  /** The loaded product, as far as the handler reads it. */
  datatype Product = Product(id: int, isActive: bool)

  /** The `POST /carts/add` body. */
  datatype AddRequest = AddRequest(userId: int, productId: int, quantity: int)

  /**
   * What adding to the cart does. `aborted` means `JSON.parse` threw before
   * anything else ran.
   */
  datatype Adding = Adding(
    aborted: bool,
    request: Option<AddRequest>,
    refreshCount: bool,
    navigate: Option<string>,
    notice: Option<Notice>)

  /** The bounds of the detail page's quantity input. */
  predicate InDetailRange(q: int) { 1 <= q <= 100 }

  /** Every quantity the cart page accepts the detail page accepts too, but 100 only the detail page. */
  lemma DetailRangeWiderThanCart(q: int)
    ensures CartPage.InCartRange(q) ==> InDetailRange(q)
    ensures InDetailRange(q) && !CartPage.InCartRange(q) <==> q == 100
  {
  }

  /** The product id sent: the id from the route state when truthy, else the loaded product's id. */
  function ProductIdToSend(routeId: Option<int>, p: Product): (id: int)
    ensures HasId(routeId) ==> id == routeId.value
    ensures !HasId(routeId) ==> id == p.id
  {
    if routeId.Some? && routeId.value != 0 then routeId.value else p.id
  }

  /**
   * `handleAddToCart` with the stored user, the route-state id, the loaded
   * product, the chosen quantity, and the outcome of `POST /carts/add`
   * (its HTTP status when it resolved).
   */
  function AddToCart(stored: Slot<User>, routeId: Option<int>, p: Product, quantity: int,
                     reply: Response<int>): (r: Adding)
    ensures stored.Corrupt? ==> r.aborted && r.request == None && !r.refreshCount && r.notice == None
    ensures !stored.Corrupt? && !(stored.Present? && HasId(stored.value.id)) ==>
      !r.aborted && r.request == None && !r.refreshCount && r.navigate == Some("/auth/login") &&
      r.notice == Some(Failure("Bạn cần đăng nhập để thêm sản phẩm"))
    ensures r.request.Some? <==> stored.Present? && HasId(stored.value.id)
    ensures r.request.Some? ==>
      r.request.value == AddRequest(stored.value.id.value, ProductIdToSend(routeId, p), quantity) && r.navigate == None
    ensures r.refreshCount <==> r.request.Some? && reply.Returned? && (reply.body == 200 || reply.body == 201)
    ensures r.refreshCount ==> r.notice == Some(Success("Đã thêm vào giỏ hàng thành công!"))
    ensures r.request.Some? && reply.Thrown? ==> r.notice == Some(Failure("Thêm vào giỏ hàng thất bại"))
    ensures r.request.Some? && reply.Returned? && !r.refreshCount ==> r.notice == None
  {
    match stored
      case Corrupt => Adding(true, None, false, None, None)
      case Absent => Adding(false, None, false, Some("/auth/login"), Some(Failure("Bạn cần đăng nhập để thêm sản phẩm")))
      case Present(u) =>
        if !HasId(u.id) then
          Adding(false, None, false, Some("/auth/login"), Some(Failure("Bạn cần đăng nhập để thêm sản phẩm")))
        else
          var request := Some(AddRequest(u.id.value, ProductIdToSend(routeId, p), quantity));
          match reply
            case Thrown(_) => Adding(false, request, false, None, Some(Failure("Thêm vào giỏ hàng thất bại")))
            case Returned(status) =>
              if status == 200 || status == 201 then
                Adding(false, request, true, None, Some(Success("Đã thêm vào giỏ hàng thành công!")))
              else Adding(false, request, false, None, None)
  }

  /**
   * A click on the add-to-cart button: the button is disabled for an
   * inactive product, so such a click does nothing.
   */
  function ClickAdd(stored: Slot<User>, routeId: Option<int>, p: Product, quantity: int,
                    reply: Response<int>): (r: Adding)
    ensures !p.isActive ==> !r.aborted && r.request == None && r.navigate == None && r.notice == None
    ensures p.isActive ==> r == AddToCart(stored, routeId, p, quantity, reply)
  {
    if p.isActive then AddToCart(stored, routeId, p, quantity, reply)
    else Adding(false, None, false, None, None)
  }

  /**
   * A successful add is followed by a count refresh for the same user; when
   * the server's cart then holds the lines it held before plus a line for
   * the product sent with the quantity sent, the badge shows the old count
   * plus that quantity.
   */
  lemma AddedQuantityReachesBadge(stored: Slot<User>, routeId: Option<int>, p: Product, quantity: int, status: int,
                                  before: seq<CartLine>, added: CartLine, previous: int)
    requires AddToCart(stored, routeId, p, quantity, Returned(status)).refreshCount
    requires added.productId == ProductIdToSend(routeId, p) && added.quantity == quantity
    ensures stored.Present? && HasId(stored.value.id)
    ensures CartBadge.FetchCartCount(stored, previous, Returned(Some(before + [added]))).count ==
            Quantities(before) + quantity
  {
    QuantitiesAppend(before, [added]);
  }
}
