/**
 * The cart page: loading the signed-in user's lines, the optimistic quantity
 * change with snapshot rollback, the non-optimistic removal, the stepper
 * buttons and the amount shown.
 */
module CartPage {
  import opened Common
  import opened Storage
  import opened CartLines

  /** The quantities the cart page accepts. */
  predicate InCartRange(q: int) { 1 <= q <= 99 }

  /** Every line of the cart holds a quantity the cart page accepts. */
  predicate AllInCartRange(lines: seq<CartLine>) {
    forall i :: 0 <= i < |lines| ==> InCartRange(lines[i].quantity)
  }

  /** The lines with the quantity of every line whose id is `id` replaced by `q`. */
  function WithQuantity(lines: seq<CartLine>, id: int, q: int): (r: seq<CartLine>)
    ensures |r| == |lines|
    ensures forall i :: 0 <= i < |lines| && lines[i].id != id ==> r[i] == lines[i]
    ensures forall i :: 0 <= i < |lines| && lines[i].id == id ==> r[i] == lines[i].(quantity := q)
  {
    if lines == [] then []
    else [if lines[0].id == id then lines[0].(quantity := q) else lines[0]] + WithQuantity(lines[1..], id, q)
  }

  /** The lines whose id is not `id`, in their original order. */
  function Without(lines: seq<CartLine>, id: int): (r: seq<CartLine>)
    ensures |r| <= |lines|
    ensures forall x :: x in r <==> x in lines && x.id != id
  {
    if lines == [] then []
    else if lines[0].id == id then Without(lines[1..], id)
    else [lines[0]] + Without(lines[1..], id)
  }

  /** The lines whose id is `id`. */
  function Only(lines: seq<CartLine>, id: int): (r: seq<CartLine>)
    ensures forall x :: x in r <==> x in lines && x.id == id
  {
    if lines == [] then []
    else if lines[0].id == id then [lines[0]] + Only(lines[1..], id)
    else Only(lines[1..], id)
  }

  /** How many lines carry the id `id`. */
  function Count(lines: seq<CartLine>, id: int): (n: nat)
    ensures n <= |lines|
    ensures n == 0 <==> forall i :: 0 <= i < |lines| ==> lines[i].id != id
  {
    if lines == [] then 0 else (if lines[0].id == id then 1 else 0) + Count(lines[1..], id)
  }

  /** Removal distributes over concatenation, so the kept lines keep their relative order. */
  lemma {:induction false} WithoutAppend(a: seq<CartLine>, b: seq<CartLine>, id: int)
    ensures Without(a + b, id) == Without(a, id) + Without(b, id)
  {
    if a == [] {
      assert a + b == b;
    } else {
      assert (a + b)[1..] == a[1..] + b;
      WithoutAppend(a[1..], b, id);
    }
  }

  /** Removing an id no line carries leaves the cart as it was. */
  lemma {:induction false} WithoutAbsent(lines: seq<CartLine>, id: int)
    requires Count(lines, id) == 0
    ensures Without(lines, id) == lines
  {
    if lines != [] {
      assert lines[0].id != id;
      WithoutAbsent(lines[1..], id);
      assert lines == [lines[0]] + lines[1..];
    }
  }

  /** The badge count splits into the lines removed and the lines kept. */
  lemma {:induction false} QuantitiesSplit(lines: seq<CartLine>, id: int)
    ensures Quantities(lines) == Quantities(Without(lines, id)) + Quantities(Only(lines, id))
  {
    if lines != [] {
      QuantitiesSplit(lines[1..], id);
      if lines[0].id == id {
        QuantitiesAppend([lines[0]], Only(lines[1..], id));
      } else {
        QuantitiesAppend([lines[0]], Without(lines[1..], id));
      }
    }
  }

  /**
   * After changing the quantity of id `id` to `q`, the badge count is that of
   * the other lines plus `q` once per line with that id.
   */
  lemma {:induction false} QuantitiesAfterChange(lines: seq<CartLine>, id: int, q: int)
    ensures Quantities(WithQuantity(lines, id, q)) == Quantities(Without(lines, id)) + q * Count(lines, id)
  {
    if lines != [] {
      QuantitiesAfterChange(lines[1..], id, q);
      AfterChangeStep(lines, id, q);
    }
  }

  /** The inductive step of `QuantitiesAfterChange`: from the tail's equation to the whole cart's. */
  lemma AfterChangeStep(lines: seq<CartLine>, id: int, q: int)
    requires lines != []
    requires Quantities(WithQuantity(lines[1..], id, q)) == Quantities(Without(lines[1..], id)) + q * Count(lines[1..], id)
    ensures Quantities(WithQuantity(lines, id, q)) == Quantities(Without(lines, id)) + q * Count(lines, id)
  {
    ChangedHead(lines, id, q);
    KeptHead(lines, id);
    var matches := lines[0].id == id;
    assert Count(lines, id) == (if matches then 1 else 0) + Count(lines[1..], id);
    ScaleStep(matches, q, Count(lines, id), Count(lines[1..], id));
  }

  /** One more matching line adds `q` once more to the scaled count. */
  lemma ScaleStep(matches: bool, q: int, n: int, c: int)
    requires n == (if matches then 1 else 0) + c
    ensures q * n == (if matches then q else 0) + q * c
  {
    if matches {
      MulSucc(q, c);
    }
  }

  /** The badge count of the changed lines, with the first line taken apart. */
  lemma ChangedHead(lines: seq<CartLine>, id: int, q: int)
    requires lines != []
    ensures Quantities(WithQuantity(lines, id, q)) ==
      (if lines[0].id == id then q else lines[0].quantity) + Quantities(WithQuantity(lines[1..], id, q))
  {
    var w := WithQuantity(lines[1..], id, q);
    var head := if lines[0].id == id then lines[0].(quantity := q) else lines[0];
    assert WithQuantity(lines, id, q) == [head] + w;
    QuantitiesAppend([head], w);
  }

  /** The badge count of the kept lines, with the first line taken apart. */
  lemma KeptHead(lines: seq<CartLine>, id: int)
    requires lines != []
    ensures Quantities(Without(lines, id)) ==
      (if lines[0].id == id then 0 else lines[0].quantity) + Quantities(Without(lines[1..], id))
  {
    if lines[0].id != id {
      assert Without(lines, id) == [lines[0]] + Without(lines[1..], id);
      QuantitiesAppend([lines[0]], Without(lines[1..], id));
    }
  }

  lemma MulSucc(q: int, c: int)
    ensures q * (1 + c) == q + q * c
  {
  }

  /** The `PUT /carts/update` body. */
  datatype UpdateRequest = UpdateRequest(cartItemId: int, quantity: int)

  /**
   * One call of the quantity handler: the lines shown while the request is in
   * flight, the request (if any), the lines shown once it settles, whether
   * the badge count is refreshed, and the notification.
   */
  datatype QuantityChange = QuantityChange(
    pending: seq<CartLine>,
    request: Option<UpdateRequest>,
    settled: seq<CartLine>,
    refreshCount: bool,
    notice: Option<Notice>)

  /**
   * `handleQuantityChange(q, id)` on the lines `lines`, where `updated` says
   * whether the `PUT` resolved.
   */
  function ChangeQuantity(lines: seq<CartLine>, q: int, id: int, updated: bool): (r: QuantityChange)
    ensures !InCartRange(q) ==> r.pending == lines && r.settled == lines && r.request == None
    ensures !InCartRange(q) ==> !r.refreshCount && r.notice == None
    ensures InCartRange(q) ==> r.request == Some(UpdateRequest(id, q))
    ensures InCartRange(q) ==> |r.pending| == |lines|
    ensures InCartRange(q) ==> forall i :: 0 <= i < |lines| ==>
      r.pending[i].quantity == (if lines[i].id == id then q else lines[i].quantity) &&
      r.pending[i].(quantity := lines[i].quantity) == lines[i]
    ensures InCartRange(q) && updated ==> r.settled == r.pending && r.refreshCount && r.notice == None
    ensures InCartRange(q) && !updated ==> r.settled == lines && !r.refreshCount
    ensures InCartRange(q) && !updated ==> r.notice == Some(Failure("Lỗi khi cập nhật số lượng"))
  {
    if !InCartRange(q) then QuantityChange(lines, None, lines, false, None)
    else
      var optimistic := WithQuantity(lines, id, q);
      if updated then QuantityChange(optimistic, Some(UpdateRequest(id, q)), optimistic, true, None)
      else QuantityChange(optimistic, Some(UpdateRequest(id, q)), lines, false, Some(Failure("Lỗi khi cập nhật số lượng")))
  }

  /** A quantity change never leaves the cart with a line outside 1..99. */
  lemma ChangeKeepsRange(lines: seq<CartLine>, q: int, id: int, updated: bool)
    requires AllInCartRange(lines)
    ensures AllInCartRange(ChangeQuantity(lines, q, id, updated).pending)
    ensures AllInCartRange(ChangeQuantity(lines, q, id, updated).settled)
  {
  }

  /**
   * When cart ids are unique, a successful change moves the badge count by
   * exactly the difference between the new and the old quantity.
   */
  lemma ChangeMovesCount(lines: seq<CartLine>, k: int, q: int)
    requires 0 <= k < |lines| && Count(lines, lines[k].id) == 1
    requires InCartRange(q)
    ensures Quantities(ChangeQuantity(lines, q, lines[k].id, true).settled)
         == Quantities(lines) - lines[k].quantity + q
  {
    var id := lines[k].id;
    QuantitiesAfterChange(lines, id, q);
    QuantitiesSplit(lines, id);
    OnlyUnique(lines, k);
  }

  /** With one line of that id, `Only` is exactly that line. */
  lemma {:induction false} OnlyUnique(lines: seq<CartLine>, k: int)
    requires 0 <= k < |lines| && Count(lines, lines[k].id) == 1
    ensures Only(lines, lines[k].id) == [lines[k]]
  {
    var id := lines[k].id;
    if k == 0 {
      assert Count(lines[1..], id) == 0;
      OnlyNone(lines[1..], id);
    } else {
      assert lines[1..][k - 1] == lines[k];
      CountPositive(lines[1..], k - 1);
      assert lines[0].id != id;
      OnlyUnique(lines[1..], k - 1);
    }
  }

  /** A line with the id makes the count positive. */
  lemma CountPositive(lines: seq<CartLine>, k: int)
    requires 0 <= k < |lines|
    ensures Count(lines, lines[k].id) >= 1
  {
  }

  /** No line with the id means `Only` is empty. */
  lemma {:induction false} OnlyNone(lines: seq<CartLine>, id: int)
    requires Count(lines, id) == 0
    ensures Only(lines, id) == []
  {
    if lines != [] {
      assert lines[0].id != id;
      OnlyNone(lines[1..], id);
    }
  }

  /** The `DELETE /carts/remove` outcome: the lines, the badge refresh and the notification. */
  datatype Removal = Removal(lines: seq<CartLine>, refreshCount: bool, notice: Notice)

  /** `handleRemove(id)`, where `deleted` says whether the `DELETE` resolved. */
  function RemoveLine(lines: seq<CartLine>, id: int, deleted: bool): (r: Removal)
    ensures deleted ==> r.lines == Without(lines, id) && r.refreshCount
    ensures deleted ==> r.notice == Success("Đã xóa sản phẩm")
    ensures !deleted ==> r.lines == lines && !r.refreshCount
    ensures !deleted ==> r.notice == Failure("Lỗi khi xóa sản phẩm")
  {
    if deleted then Removal(Without(lines, id), true, Success("Đã xóa sản phẩm"))
    else Removal(lines, false, Failure("Lỗi khi xóa sản phẩm"))
  }

  /** A successful removal takes exactly the removed lines' quantities off the badge count. */
  lemma RemoveLowersCount(lines: seq<CartLine>, id: int)
    ensures Quantities(RemoveLine(lines, id, true).lines) == Quantities(lines) - Quantities(Only(lines, id))
  {
    QuantitiesSplit(lines, id);
  }

  /** The user id the cart page reads; an unreadable stored user counts as signed out. */
  function CartUserId(stored: Slot<User>): (id: Option<int>)
    ensures id.Some? <==> stored.Present? && HasId(stored.value.id)
    ensures id.Some? ==> id.value != 0 && id == stored.value.id
  {
    if stored.Present? && HasId(stored.value.id) then stored.value.id else None
  }

  /** `fetchCart`: whether `GET /carts/:id` is issued, the lines after it, and the badge refresh. */
  datatype CartLoad = CartLoad(requested: bool, lines: seq<CartLine>, refreshCount: bool, notice: Option<Notice>)

  /**
   * `fetchCart` for the stored user `stored`, with the lines shown before it
   * and the response, whose body is `res.data.data`.
   */
  function LoadCart(stored: Slot<User>, shown: seq<CartLine>, reply: Response<Option<seq<CartLine>>>): (r: CartLoad)
    ensures CartUserId(stored) == None ==> !r.requested && r.lines == shown && !r.refreshCount && r.notice == None
    ensures CartUserId(stored).Some? ==> r.requested
    ensures CartUserId(stored).Some? && reply.Thrown? ==>
      r.lines == shown && !r.refreshCount && r.notice == Some(Failure("Không thể tải giỏ hàng"))
    ensures CartUserId(stored).Some? && reply.Returned? ==> r.refreshCount && r.notice == None
    ensures CartUserId(stored).Some? && reply.Returned? ==>
      r.lines == (if reply.body.Some? then reply.body.value else [])
  {
    if CartUserId(stored) == None then CartLoad(false, shown, false, None)
    else match reply
      case Thrown(_) => CartLoad(true, shown, false, Some(Failure("Không thể tải giỏ hàng")))
      case Returned(data) => CartLoad(true, if data.Some? then data.value else [], true, None)
  }

  /** The minus button of a row is disabled at a quantity of one or less. */
  predicate DecrementDisabled(quantity: int) { quantity <= 1 }

  /**
   * The stepper buttons of a row already in range: minus is enabled exactly
   * when it asks for a quantity the handler accepts, and plus is ignored
   * exactly at the cap.
   */
  lemma StepperButtons(lines: seq<CartLine>, k: int, updated: bool)
    requires 0 <= k < |lines| && InCartRange(lines[k].quantity)
    ensures !DecrementDisabled(lines[k].quantity) <==> InCartRange(lines[k].quantity - 1)
    ensures lines[k].quantity == 99 <==>
      ChangeQuantity(lines, lines[k].quantity + 1, lines[k].id, updated).request == None
  {
  }

  /** The amount shown under the cart: the sum of price times quantity. */
  function AmountDue(lines: seq<CartLine>): (t: int)
    ensures AllPriced(lines) ==> t >= 0
    ensures lines == [] ==> t == 0
  {
    Total(lines)
  }

  /** The amount due after a successful removal is the old amount less the removed lines' amount. */
  lemma {:induction false} RemoveLowersAmount(lines: seq<CartLine>, id: int)
    ensures AmountDue(RemoveLine(lines, id, true).lines) == AmountDue(lines) - Total(Only(lines, id))
  {
    if lines != [] {
      RemoveLowersAmount(lines[1..], id);
      if lines[0].id == id {
        TotalAppend([lines[0]], Only(lines[1..], id));
      } else {
        TotalAppend([lines[0]], Without(lines[1..], id));
      }
    }
  }
}
