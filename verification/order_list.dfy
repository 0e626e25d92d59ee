/**
 * The admin order table: the status tag and its fallback, the customer
 * column, and the status-change modal with its guard.
 */
module OrderList {
  import opened Common

  /** An entry of the status select: the stored value, its label and its colour. */
  datatype StatusOption = StatusOption(value: string, text: string, color: string)

  /** The five statuses an administrator can choose, in the order the select lists them. */
  const StatusOptions := [
    StatusOption("pending", "Chờ xử lý", "orange"),
    StatusOption("paid", "Đã thanh toán", "blue"),
    StatusOption("shipped", "Đã giao", "cyan"),
    StatusOption("completed", "Hoàn thành", "green"),
    StatusOption("cancelled", "Đã hủy", "red")]

  /** The first option with the given value, if there is one. */
  function FindOption(options: seq<StatusOption>, status: string): (o: Option<StatusOption>)
    ensures o.Some? ==> o.value in options && o.value.value == status
    ensures o.None? <==> forall i :: 0 <= i < |options| ==> options[i].value != status
  {
    if options == [] then None
    else if options[0].value == status then Some(options[0])
    else
      var rest := FindOption(options[1..], status);
      assert forall i :: 1 <= i < |options| ==> options[i] == options[1..][i - 1];
      rest
  }

  /** The tag of the status column: its label and colour. */
  datatype Tag = Tag(text: string, color: string)

  /** A known status shows its option's label and colour; any other shows the raw value in the default colour. */
  function StatusTag(status: string): (t: Tag)
    ensures FindOption(StatusOptions, status).Some? ==>
      t == Tag(FindOption(StatusOptions, status).value.text, FindOption(StatusOptions, status).value.color)
    ensures FindOption(StatusOptions, status).None? ==> t == Tag(status, "default")
  {
    var found := FindOption(StatusOptions, status);
    if found.Some? then Tag(found.value.text, found.value.color) else Tag(status, "default")
  }

  /** The values are compared exactly: a status in capitals is not recognised. */
  lemma StatusMatchIsExact()
    ensures StatusTag("paid") == Tag("Đã thanh toán", "blue")
    ensures StatusTag("PAID") == Tag("PAID", "default")
  {
    assert StatusOptions[1].value == "paid";
    assert forall i :: 0 <= i < |StatusOptions| ==> StatusOptions[i].value != "PAID";
  }

  /** A customer as the user list holds them. */
  datatype Customer = Customer(id: int, firstname: string, lastname: string)

  /** The first customer with the given id. */
  function FindCustomer(users: seq<Customer>, id: int): (c: Option<Customer>)
    ensures c.Some? ==> c.value in users && c.value.id == id
    ensures c.None? <==> forall i :: 0 <= i < |users| ==> users[i].id != id
  {
    if users == [] then None
    else if users[0].id == id then Some(users[0])
    else
      var rest := FindCustomer(users[1..], id);
      assert forall i :: 1 <= i < |users| ==> users[i] == users[1..][i - 1];
      rest
  }

  /** The customer column: family name first, or 'Không xác định' when the user is not in the (loaded) list. */
  function CustomerName(users: Option<seq<Customer>>, userId: int): (name: string)
    ensures users.None? ==> name == "Không xác định"
    ensures users.Some? && FindCustomer(users.value, userId).None? ==> name == "Không xác định"
    ensures users.Some? && FindCustomer(users.value, userId).Some? ==>
      var c := FindCustomer(users.value, userId).value;
      name == c.lastname + " " + c.firstname
  {
    if users.None? then "Không xác định"
    else
      var c := FindCustomer(users.value, userId);
      if c.Some? then c.value.lastname + " " + c.value.firstname else "Không xác định"
  }

  /** An order as the table row passes it to the modal. */
  datatype OrderRow = OrderRow(id: int, status: string)

  /** The status modal: whether it is open, the order it was opened for, and the chosen status. */
  datatype StatusModal = StatusModal(visible: bool, selected: Option<OrderRow>, status: string)

  /** The modal before any tag was clicked. */
  const Hidden := StatusModal(false, None, "")

  /** `openStatusModal(order)`: the order's current status is preselected. */
  function Open(m: StatusModal, order: OrderRow): (r: StatusModal)
    ensures r.visible && r.selected == Some(order) && r.status == order.status
  {
    StatusModal(true, Some(order), order.status)
  }

  /** Picking a status in the select. */
  function Pick(m: StatusModal, status: string): (r: StatusModal)
    ensures r.status == status && r.selected == m.selected && r.visible == m.visible
  {
    m.(status := status)
  }

  /**
   * `updateStatus`: `onUpdateStatus(id, status)` is called only when an
   * order is selected and the chosen status differs from its own; the modal
   * closes either way.
   */
  function Confirm(m: StatusModal): (r: (StatusModal, Option<(int, string)>))
    ensures !r.0.visible && r.0.selected == m.selected && r.0.status == m.status
    ensures r.1.Some? <==> m.selected.Some? && m.status != m.selected.value.status
    ensures r.1.Some? ==> r.1.value == (m.selected.value.id, m.status)
  {
    var fire := m.selected.Some? && m.status != m.selected.value.status;
    (m.(visible := false), if fire then Some((m.selected.value.id, m.status)) else None)
  }

  /** Cancelling closes the modal and calls nothing. */
  function Cancel(m: StatusModal): (r: StatusModal)
    ensures !r.visible && r.selected == m.selected && r.status == m.status
  {
    m.(visible := false)
  }

  /** Opening the modal and confirming at once changes no order. */
  lemma OpenThenConfirmFiresNothing(m: StatusModal, order: OrderRow)
    ensures Confirm(Open(m, order)).1 == None
  {
  }

  /** Picking a different status and confirming changes exactly the order the modal was opened for. */
  lemma PickThenConfirmFires(m: StatusModal, order: OrderRow, status: string)
    requires status != order.status
    ensures Confirm(Pick(Open(m, order), status)).1 == Some((order.id, status))
  {
  }
}
