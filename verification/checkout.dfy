/**
 * The checkout page: loading the cart, pre-filling the form, the phone rule,
 * and order confirmation with its cash-on-delivery and PayPal branches.
 */
module Checkout {
  import opened Common
  import opened Storage
  import opened CartLines

  /** One item of the `POST /orders` body. */
  datatype OrderItem = OrderItem(productId: int, quantity: int, price: int)

  /** The payment choice on the page. */
  datatype PaymentMethod = Cod | Paypal

  /** The checkout form values the handler reads. */
  datatype OrderForm = OrderForm(note: Option<string>, address: string, phone: string)

  /** The `POST /orders` body. */
  datatype OrderRequest = OrderRequest(
    userId: Option<int>,
    items: seq<OrderItem>,
    totalPrice: int,
    note: string,
    shippingAddress: string,
    phone: string,
    payment: PaymentMethod)

  /** The items of an order: each cart line's product, quantity and price, in cart order. */
  function Project(lines: seq<CartLine>): (items: seq<OrderItem>)
    ensures |items| == |lines|
    ensures forall i :: 0 <= i < |lines| ==>
      items[i] == OrderItem(lines[i].productId, lines[i].quantity, lines[i].price)
  {
    if lines == [] then [] else [OrderItem(lines[0].productId, lines[0].quantity, lines[0].price)] + Project(lines[1..])
  }

  /** `items.reduce((sum, item) => sum + item.price * item.quantity, 0)`. */
  function ItemsTotal(items: seq<OrderItem>): int {
    if items == [] then 0 else items[0].price * items[0].quantity + ItemsTotal(items[1..])
  }

  /** The total sent with the order equals the total shown beside the cart. */
  lemma {:induction false} ProjectKeepsTotal(lines: seq<CartLine>)
    ensures ItemsTotal(Project(lines)) == Total(lines)
  {
    if lines != [] {
      assert Project(lines)[1..] == Project(lines[1..]);
      ProjectKeepsTotal(lines[1..]);
    }
  }

  /** The user the checkout page reads: `JSON.parse(...) || {}`; `None` when the parse throws. */
  function CheckoutUser(stored: Slot<User>): (u: Option<Option<User>>)
    ensures stored.Corrupt? <==> u.None?
    ensures stored.Absent? ==> u == Some(None)
    ensures stored.Present? ==> u == Some(Some(stored.value))
  {
    match stored
      case Corrupt => None
      case Absent => Some(None)
      case Present(v) => Some(Some(v))
  }

  /** The outcome of the checkout page's `fetchCart`. */
  datatype CheckoutLoad = CheckoutLoad(requested: bool, lines: seq<CartLine>, notice: Option<Notice>)

  /** `fetchCart` of the checkout page for the user id `userId`. */
  function LoadCheckout(userId: Option<int>, shown: seq<CartLine>, reply: Response<Option<seq<CartLine>>>): (r: CheckoutLoad)
    ensures !HasId(userId) ==> !r.requested && r.lines == shown
    ensures !HasId(userId) ==> r.notice == Some(Warning("Vui lòng đăng nhập để thực hiện thanh toán"))
    ensures HasId(userId) && reply.Thrown? ==>
      r.requested && r.lines == shown && r.notice == Some(Failure("Không thể tải thông tin giỏ hàng"))
    ensures HasId(userId) && reply.Returned? ==>
      r.requested && r.notice == None && r.lines == (if reply.body.Some? then reply.body.value else [])
  {
    if !HasId(userId) then CheckoutLoad(false, shown, Some(Warning("Vui lòng đăng nhập để thực hiện thanh toán")))
    else match reply
      case Thrown(_) => CheckoutLoad(true, shown, Some(Failure("Không thể tải thông tin giỏ hàng")))
      case Returned(data) => CheckoutLoad(true, if data.Some? then data.value else [], None)
  }

  /** The full-name field pre-filled from the stored user: `${lastname} ${firstname}`, trimmed. */
  function PrefillName(u: Option<User>): (name: string)
    ensures u.None? ==> name == ""
    ensures u.Some? ==> name == Trim(u.value.lastname + " " + u.value.firstname)
    ensures |name| > 0 ==> !IsSpace(name[0]) && !IsSpace(name[|name| - 1])
    ensures forall c :: c in name ==> c == ' ' || (u.Some? && (c in u.value.lastname || c in u.value.firstname))
  {
    var last := if u.Some? then u.value.lastname else "";
    var first := if u.Some? then u.value.firstname else "";
    var joined := last + " " + first;
    assert forall c :: c in joined ==> c == ' ' || c in last || c in first;
    Trim(joined)
  }

  /** A name with no whitespace at either end. */
  predicate Tidy(s: string) {
    |s| > 0 ==> !IsSpace(s[0]) && !IsSpace(s[|s| - 1])
  }

  /**
   * With tidy names the prefilled field is exactly "family given", or the one
   * name that is present when the other is empty.
   */
  lemma PrefillJoinsNames(u: User)
    requires Tidy(u.lastname) && Tidy(u.firstname)
    ensures |u.lastname| > 0 && |u.firstname| > 0 ==> PrefillName(Some(u)) == u.lastname + " " + u.firstname
    ensures u.lastname == "" ==> PrefillName(Some(u)) == u.firstname
    ensures u.firstname == "" ==> PrefillName(Some(u)) == u.lastname
  {
    if u.lastname == "" {
      TrimGivenOnly(u.firstname);
    } else if u.firstname == "" {
      TrimFamilyOnly(u.lastname);
    } else {
      TrimFamilyGiven(u.lastname, u.firstname);
    }
  }

  /** Two tidy, non-empty names joined by one space trim to themselves. */
  lemma TrimFamilyGiven(last: string, first: string)
    requires Tidy(last) && Tidy(first) && |last| > 0 && |first| > 0
    ensures Trim(last + " " + first) == last + " " + first
  {
    var w := last + " " + first;
    assert w[0] == last[0] && w[|w| - 1] == first[|first| - 1];
    TrimPadded("", w, "");
    assert "" + w + "" == w;
  }

  /** An empty family name leaves the given name after the space. */
  lemma TrimGivenOnly(first: string)
    requires Tidy(first)
    ensures Trim("" + " " + first) == first
  {
    var s := "" + " " + first;
    assert s[0] == ' ' && s[1..] == first;
    TrimDetermined(s, 1, first);
  }

  /** An empty given name leaves the family name before the space. */
  lemma TrimFamilyOnly(last: string)
    requires Tidy(last)
    ensures Trim(last + " " + "") == last
  {
    var s := last + " " + "";
    assert s[|last|] == ' ' && s[..|last|] == last;
    TrimDetermined(s, 0, last);
  }

  /** The phone field's rule: present and exactly ten ASCII digits. */
  method CheckPhone(phone: string) returns (ok: bool)
    ensures ok <==> |phone| == 10 && forall i :: 0 <= i < |phone| ==> IsDigit(phone[i])
  {
    if |phone| != 10 {
      return false;
    }
    var i := 0;
    while i < |phone|
      invariant 0 <= i <= |phone|
      invariant forall j :: 0 <= j < i ==> IsDigit(phone[j])
    {
      if !IsDigit(phone[i]) {
        return false;
      }
      i := i + 1;
    }
    return true;
  }

  /** The message shown when the order cannot be placed. */
  const OrderFailed := "Có lỗi xảy ra khi xử lý đơn hàng"

  /** What confirming the order does. */
  datatype Confirmation = Confirmation(
    order: Option<OrderRequest>,
    redirect: Option<string>,
    clearCart: bool,
    refreshCount: bool,
    navigate: Option<string>,
    notice: Option<Notice>)

  /**
   * `handleConfirmOrder` with the loaded cart `lines`. `posted` is the
   * outcome of `POST /orders`, whose body holds the optional `approveUrl`;
   * `cleared` is the outcome of `DELETE /carts/clear/:id`.
   */
  function ConfirmOrder(userId: Option<int>, lines: seq<CartLine>, form: OrderForm, payment: PaymentMethod,
                        posted: Response<Option<string>>, cleared: Response<()>): (r: Confirmation)
    ensures lines == [] ==> r.order == None && r.redirect == None && !r.clearCart && r.navigate == None
    ensures lines == [] ==> r.notice == Some(Failure("Giỏ hàng trống"))
    ensures lines != [] ==> r.order.Some?
    ensures r.order.Some? ==> r.order.value.items == Project(lines) && r.order.value.totalPrice == Total(lines)
    ensures r.order.Some? ==> r.order.value.note == OrElse(form.note, "") && r.order.value.payment == payment
    ensures r.order.Some? ==> r.order.value.userId == userId
    ensures r.redirect.Some? <==> lines != [] && posted.Returned? && payment == Paypal && Truthy(posted.body)
    ensures r.redirect.Some? ==> r.redirect == posted.body && !r.clearCart && !r.refreshCount
    ensures r.clearCart <==> lines != [] && posted.Returned? && !(payment == Paypal && Truthy(posted.body))
    ensures r.refreshCount <==> r.clearCart && cleared.Returned?
    ensures r.navigate == (if r.refreshCount then Some("/payment-success") else None)
    ensures r.redirect.Some? ==> r.notice == None
    ensures r.refreshCount ==> r.notice == Some(Success("Đặt hàng thành công! Cảm ơn bạn đã mua sắm."))
    ensures lines != [] && posted.Thrown? ==> r.notice == Some(Failure(OrElse(posted.message, OrderFailed)))
    ensures r.clearCart && cleared.Thrown? ==> r.notice == Some(Failure(OrElse(cleared.message, OrderFailed)))
  {
    if lines == [] then Confirmation(None, None, false, false, None, Some(Failure("Giỏ hàng trống")))
    else
      var items := Project(lines);
      ProjectKeepsTotal(lines);
      var order := OrderRequest(userId, items, ItemsTotal(items), OrElse(form.note, ""), form.address, form.phone, payment);
      match posted
        case Thrown(m) => Confirmation(Some(order), None, false, false, None, Some(Failure(OrElse(m, OrderFailed))))
        case Returned(approveUrl) =>
          if payment == Paypal && Truthy(approveUrl) then
            Confirmation(Some(order), approveUrl, false, false, None, None)
          else match cleared
            case Thrown(m) => Confirmation(Some(order), None, true, false, None, Some(Failure(OrElse(m, OrderFailed))))
            case Returned(_) =>
              Confirmation(Some(order), None, true, true, Some("/payment-success"),
                           Some(Success("Đặt hàng thành công! Cảm ơn bạn đã mua sắm.")))
  }
}
