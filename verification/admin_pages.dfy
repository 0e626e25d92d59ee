/**
 * The admin list pages (categories, roles, discounts, products, users,
 * orders and contacts): the page fetched after a delete, a search or a
 * submit, the request a submit sends, whether the modal closes, and the
 * multipart bodies of the product and user forms and the order payload.
 */
module AdminPages {
  import opened Common
  import opened FormData
  import FileName

  /** The pages that share the list-and-modal pattern, apart from contacts. */
  datatype Admin = Categories | Roles | Discounts | Products | Users | Orders

  /** The pagination state: current page, page size, total rows. */
  datatype Paging = Paging(current: int, pageSize: int, total: int)

  /** The page size the list pages start with, and the contact page's. */
  const DefaultPageSize := 6
  const ContactPageSize := 5

  /** A list request: `page`, `pageSize` and `search` (`keyword || null`). */
  datatype Fetch = Fetch(page: int, pageSize: int, search: Option<string>)

  /** The request `fetchData(page, pageSize, keyword)` sends; the order page has no search. */
  function ListRequest(a: Admin, page: int, pageSize: int, keyword: string): (f: Fetch)
    ensures f.page == page && f.pageSize == pageSize
    ensures f.search.Some? <==> a != Orders && keyword != ""
    ensures f.search.Some? ==> f.search.value == keyword
  {
    Fetch(page, pageSize, if a == Orders || keyword == "" then None else Some(keyword))
  }

  /** The first request of a page, sent on mount. */
  function MountRequest(a: Admin): (f: Fetch)
    ensures f == Fetch(1, DefaultPageSize, None)
  {
    ListRequest(a, 1, DefaultPageSize, "")
  }

  /**
   * The page to show after a delete, given how many rows the current page
   * held: one page back when the deleted row was the only one on a page
   * after the first.
   */
  function PageAfterDelete(rows: int, current: int): (p: int)
    ensures p == current - 1 <==> rows == 1 && current > 1
    ensures p != current - 1 ==> p == current
    ensures current >= 1 ==> p >= 1
  {
    if rows == 1 && current > 1 then current - 1 else current
  }

  /** The contact page's version: the rows left after the delete are counted instead. */
  function ContactPageAfterDelete(rows: int, current: int): (p: int)
    ensures p == current - 1 <==> rows - 1 == 0 && current > 1
    ensures p != current - 1 ==> p == current
  {
    var remaining := rows - 1;
    if remaining == 0 && current > 1 then current - 1 else current
  }

  /** Both ways of deciding the step back agree. */
  lemma ContactStepBackAgrees(rows: int, current: int)
    ensures ContactPageAfterDelete(rows, current) == PageAfterDelete(rows, current)
  {
  }

  /** What a handler does: the request it fetches the list with, whether the modal closes, the notice. */
  datatype Outcome = Outcome(refetch: Option<Fetch>, close: bool, notice: Notice)

  /** The message shown when a delete throws: the category page prefers the server's. */
  function DeleteFailed(a: Admin, thrown: Option<string>): (m: string)
    ensures a == Categories ==> m == OrElse(thrown, "Xóa thất bại")
    ensures a != Categories ==> m == "Xóa thất bại"
  {
    if a == Categories then OrElse(thrown, "Xóa thất bại") else "Xóa thất bại"
  }

  /**
   * `handleDelete` with the rows of the current page, the paging, the
   * search text and the response, whose body is `res.data.message`. A
   * success refetches the page `PageAfterDelete` chooses with the current
   * search; a failure refetches nothing. A missing message shows an empty
   * success toast, except on the category and order pages.
   */
  function Delete(a: Admin, rows: int, p: Paging, search: string, reply: Response<Option<string>>): (o: Outcome)
    ensures reply.Thrown? ==> o.refetch == None && o.notice == Failure(DeleteFailed(a, reply.message))
    ensures reply.Returned? ==> o.refetch == Some(ListRequest(a, PageAfterDelete(rows, p.current), p.pageSize, search))
    ensures reply.Returned? ==> o.notice.Success?
    ensures reply.Returned? && a == Orders ==> o.notice == Success("Xóa đơn hàng thành công")
    ensures reply.Returned? && a == Categories ==> o.notice == Success(OrElse(reply.body, "Xóa thành công"))
    ensures reply.Returned? && a != Orders && a != Categories ==> o.notice == Success(OrElse(reply.body, ""))
    ensures !o.close
  {
    match reply
      case Thrown(m) => Outcome(None, false, Failure(DeleteFailed(a, m)))
      case Returned(message) =>
        var text := if a == Orders then "Xóa đơn hàng thành công"
                    else if a == Categories then OrElse(message, "Xóa thành công")
                    else OrElse(message, "");
        Outcome(Some(ListRequest(a, PageAfterDelete(rows, p.current), p.pageSize, search)), false, Success(text))
  }

  /** After any successful delete the requested page is still a real page. */
  lemma DeleteNeverBelowFirstPage(a: Admin, rows: int, p: Paging, search: string, m: Option<string>)
    requires p.current >= 1
    ensures Delete(a, rows, p, search, Returned(m)).refetch.value.page >= 1
    ensures Delete(a, rows, p, search, Returned(m)).refetch.value.page >= p.current - 1
  {
  }

  /** Typing in the search box: page 1 is fetched with the new text. The contact page's box does the same. */
  function SearchTyped(a: Admin, value: string, p: Paging): (f: Fetch)
    requires a != Orders
    ensures f.page == 1 && f.pageSize == p.pageSize
    ensures f.search == (if value == "" then None else Some(value))
  {
    ListRequest(a, 1, p.pageSize, value)
  }

  /** The message of a list request that threw. */
  function LoadFailed(a: Admin): string {
    match a
      case Categories => "Lỗi khi tải danh mục"
      case Roles => "Lỗi khi tải danh sách vai trò"
      case Discounts => "Lỗi khi tải danh sách giảm giá"
      case Products => "Lỗi khi tải sản phẩm"
      case Users => "Lỗi khi tải người dùng"
      case Orders => "Lỗi khi tải đơn hàng"
  }

  /**
   * A list response, whose body gives the total: the paging becomes the
   * requested page and size with that total; a thrown request keeps the
   * paging and shows the page's error.
   */
  function Loaded(a: Admin, req: Fetch, p: Paging, reply: Response<int>): (r: (Paging, Option<Notice>))
    ensures reply.Returned? ==> r.0 == Paging(req.page, req.pageSize, reply.body) && r.1 == None
    ensures reply.Thrown? ==> r.0 == p && r.1 == Some(Failure(LoadFailed(a)))
  {
    match reply
      case Thrown(_) => (p, Some(Failure(LoadFailed(a))))
      case Returned(total) => (Paging(req.page, req.pageSize, total), None)
  }

  /** The request a submit sends: to the edited record, or a new one. */
  datatype Write = Put(id: int) | Post

  /** `editingX ? put : post`. */
  function WriteFor(editing: Option<int>): (w: Write)
    ensures w.Put? <==> editing.Some?
    ensures w.Put? ==> w.id == editing.value
  {
    if editing.Some? then Put(editing.value) else Post
  }

  /** The body of a submit's response. */
  datatype SubmitReply = SubmitReply(success: bool, message: Option<string>)

  /** The default error of a submit the server refused. */
  function RefusedDefault(a: Admin): (m: string)
    ensures m == (if a == Products then "Cập nhật thất bại" else "Thao tác thất bại")
  {
    if a == Products then "Cập nhật thất bại" else "Thao tác thất bại"
  }

  /**
   * `handleSubmit` after the write. The category page closes its modal only
   * on success; the role, discount, product and user pages close it on any
   * response; the order page ignores the success flag. A success, and any
   * order-page response, refetches the current page; a thrown request keeps
   * the modal open.
   */
  function Submit(a: Admin, p: Paging, search: string, reply: Response<SubmitReply>): (o: Outcome)
    ensures reply.Thrown? ==> o.refetch == None && !o.close
    ensures reply.Thrown? ==> o.notice == Failure(
      if a == Orders then "Lỗi khi gửi dữ liệu"
      else if a == Categories then OrElse(reply.message, "Thao tác thất bại")
      else "Thao tác thất bại")
    ensures reply.Returned? && (reply.body.success || a == Orders) ==>
      o.refetch == Some(ListRequest(a, p.current, p.pageSize, search)) && o.close && o.notice.Success?
    ensures reply.Returned? && !reply.body.success && a != Orders ==>
      o.refetch == None && o.notice == Failure(OrElse(reply.body.message, RefusedDefault(a)))
    ensures reply.Returned? && !reply.body.success && a != Orders ==> (o.close <==> a != Categories)
    ensures reply.Returned? && a == Orders ==> o.notice == Success("Thao tác thành công")
    ensures reply.Returned? && reply.body.success && a == Categories ==>
      o.notice == Success(OrElse(reply.body.message, "Thao tác thành công"))
    ensures reply.Returned? && reply.body.success && a != Orders && a != Categories ==>
      o.notice == Success(OrElse(reply.body.message, ""))
  {
    match reply
      case Thrown(m) =>
        var text := if a == Orders then "Lỗi khi gửi dữ liệu"
                    else if a == Categories then OrElse(m, "Thao tác thất bại")
                    else "Thao tác thất bại";
        Outcome(None, false, Failure(text))
      case Returned(body) =>
        if a == Orders then
          Outcome(Some(ListRequest(a, p.current, p.pageSize, search)), true, Success("Thao tác thành công"))
        else if body.success then
          var text := if a == Categories then OrElse(body.message, "Thao tác thành công") else OrElse(body.message, "");
          Outcome(Some(ListRequest(a, p.current, p.pageSize, search)), true, Success(text))
        else Outcome(None, a != Categories, Failure(OrElse(body.message, RefusedDefault(a))))
  }

  /** Only the category page keeps its modal open when the server refuses a submit. */
  lemma RefusedSubmitCloses(a: Admin, p: Paging, search: string, m: Option<string>)
    requires a != Orders
    ensures Submit(a, p, search, Returned(SubmitReply(false, m))).close <==> a != Categories
  {
  }

  /** `handleUpdateStatus` of the order page: a success refetches the current page, anything else does not. */
  function UpdateStatus(p: Paging, reply: Response<SubmitReply>): (o: Outcome)
    ensures o.refetch.Some? <==> reply.Returned? && reply.body.success
    ensures o.refetch.Some? ==> o.refetch.value == Fetch(p.current, p.pageSize, None)
    ensures o.refetch.Some? ==> o.notice == Success("Cập nhật trạng thái thành công")
    ensures reply.Returned? && !reply.body.success ==> o.notice == Failure(OrElse(reply.body.message, "Cập nhật trạng thái thất bại"))
    ensures reply.Thrown? ==> o.notice == Failure("Lỗi khi cập nhật trạng thái")
    ensures !o.close
  {
    match reply
      case Thrown(_) => Outcome(None, false, Failure("Lỗi khi cập nhật trạng thái"))
      case Returned(body) =>
        if body.success then Outcome(Some(Fetch(p.current, p.pageSize, None)), false, Success("Cập nhật trạng thái thành công"))
        else Outcome(None, false, Failure(OrElse(body.message, "Cập nhật trạng thái thất bại")))
  }

  /** The number in the first column of a row: `(current - 1) * pageSize + index + 1`. */
  function RowNumber(current: int, pageSize: int, index: int): (n: int)
    requires current >= 1 && pageSize >= 1 && 0 <= index < pageSize
    ensures (current - 1) * pageSize < n <= current * pageSize
  {
    (current - 1) * pageSize + index + 1
  }

  /** Different rows, on the same page or on different pages of one size, get different numbers. */
  lemma RowNumbersDistinct(c1: int, i1: int, c2: int, i2: int, pageSize: int)
    requires c1 >= 1 && c2 >= 1 && pageSize >= 1 && 0 <= i1 < pageSize && 0 <= i2 < pageSize
    requires RowNumber(c1, pageSize, i1) == RowNumber(c2, pageSize, i2)
    ensures c1 == c2 && i1 == i2
  {
    if c1 < c2 {
      MulMono(c1, c2 - 1, pageSize);
      assert false;
    } else if c2 < c1 {
      MulMono(c2, c1 - 1, pageSize);
      assert false;
    }
  }

  /** Multiplying by a positive size keeps the order. */
  lemma MulMono(a: int, b: int, k: int)
    requires a <= b && k >= 1
    ensures a * k <= b * k
  {
    assert b * k - a * k == (b - a) * k;
  }

  /** The text `FormData.append` stores for a number. */
  function Decimal(n: int): (s: string)
    decreases if n < 0 then 1 - n else n
  {
    if n < 0 then "-" + Decimal(-n)
    else if n < 10 then [(48 + n) as char]
    else Decimal(n / 10) + [(48 + n % 10) as char]
  }

  /** The image part: the first upload of an array, renamed by the file-name normaliser. */
  function ImagePart(image: Option<seq<string>>): (parts: seq<Part>)
    ensures image.None? || image.value == [] ==> parts == []
    ensures image.Some? && image.value != [] ==> parts == [File("image", FileName.NormalizeFileName(image.value[0]))]
  {
    if image.Some? && image.value != [] then [File("image", FileName.NormalizeFileName(image.value[0]))] else []
  }

  /** `is_active ? 1 : 0`. */
  function Flag(b: bool): (t: string)
    ensures t == (if b then "1" else "0")
  {
    if b then "1" else "0"
  }

  /**
   * The values of the product form. Prices and category ids arrive as the
   * text they are appended as; an upload is the original name of its file.
   */
  datatype ProductValues = ProductValues(
    name: Option<string>,
    price: Option<string>,
    description: Option<string>,
    categoryId: Option<string>,
    discountId: Option<int>,
    isActive: bool,
    image: Option<seq<string>>)

  /** The text fields of the product body: fixed fields, the discount only when set, then the flag. */
  function ProductFields(v: ProductValues): (parts: seq<Part>)
    ensures |parts| == (if HasId(v.discountId) then 6 else 5)
    ensures parts[..4] == [Text("name", AsText(v.name)), Text("price", AsText(v.price)),
                           Text("description", OrElse(v.description, "")), Text("categoryId", AsText(v.categoryId))]
    ensures parts[|parts| - 1] == Text("is_active", Flag(v.isActive))
    ensures HasId(v.discountId) ==> parts[4] == Text("discountId", Decimal(v.discountId.value))
  {
    var head := [Text("name", AsText(v.name)), Text("price", AsText(v.price)),
                 Text("description", OrElse(v.description, "")), Text("categoryId", AsText(v.categoryId))];
    var discount := if HasId(v.discountId) then [Text("discountId", Decimal(v.discountId.value))] else [];
    head + discount + [Text("is_active", Flag(v.isActive))]
  }

  /** The product body: the text fields, then the image when one was chosen. */
  function ProductBody(v: ProductValues): (parts: seq<Part>)
    ensures |parts| >= |ProductFields(v)|
    ensures parts[..|ProductFields(v)|] == ProductFields(v)
    ensures parts[|ProductFields(v)|..] == ImagePart(v.image)
  {
    var fields := ProductFields(v);
    assert (fields + ImagePart(v.image))[..|fields|] == fields;
    fields + ImagePart(v.image)
  }

  /** The product body names a discount exactly when a truthy one was chosen, and an image exactly when one was uploaded. */
  lemma ProductBodyKeys(v: ProductValues)
    ensures "discountId" in Keys(ProductBody(v)) <==> HasId(v.discountId)
    ensures "image" in Keys(ProductBody(v)) <==> v.image.Some? && v.image.value != []
  {
    var fields := ProductFields(v);
    var image := ImagePart(v.image);
    var body := ProductBody(v);
    assert body == fields + image;
    KeysAppend(fields, image);
    FieldKeysInOrder(v);
    ImageKeyPresent(v.image);
    var fk, ik := ProductFieldKeys(v), ImageKeys(v.image);
    assert Keys(body) == fk + ik;
    FieldKeyNames(v);
    assert "discountId" !in ik;
  }

  /** Among the text fields the discount key appears exactly when set, and the image key never. */
  lemma FieldKeyNames(v: ProductValues)
    ensures "discountId" in ProductFieldKeys(v) <==> HasId(v.discountId)
    ensures "image" !in ProductFieldKeys(v)
  {
    var fixed := ["name", "price", "description", "categoryId", "is_active"];
    assert forall k :: k in ProductFieldKeys(v) ==> k in fixed || k == "discountId";
    assert "discountId"[1] == 'i' && "image"[1] == 'm';
    assert forall i :: 0 <= i < |fixed| ==> fixed[i][1] != 'i' && fixed[i][1] != 'm';
  }

  /** The keys of the product's text fields, in order. */
  function ProductFieldKeys(v: ProductValues): seq<string> {
    ["name", "price", "description", "categoryId"] + (if HasId(v.discountId) then ["discountId"] else []) + ["is_active"]
  }

  /** The key of the image part, if there is one. */
  function ImageKeys(image: Option<seq<string>>): seq<string> {
    if image.Some? && image.value != [] then ["image"] else []
  }

  /** The text fields carry their keys in order. */
  lemma FieldKeysInOrder(v: ProductValues)
    ensures Keys(ProductFields(v)) == ProductFieldKeys(v)
  {
    var fields := ProductFields(v);
    var fk, expected := Keys(fields), ProductFieldKeys(v);
    forall i | 0 <= i < |fk|
      ensures fk[i] == expected[i]
    {
      if i < 4 { assert fields[i] == fields[..4][i]; }
    }
  }

  /** The image part carries the image key exactly when there is an upload. */
  lemma ImageKeyPresent(image: Option<seq<string>>)
    ensures Keys(ImagePart(image)) == ImageKeys(image)
  {
  }

  /** The values of the user form, as the text they are appended as. */
  datatype UserValues = UserValues(
    firstname: Option<string>,
    lastname: Option<string>,
    email: Option<string>,
    password: Option<string>,
    roleId: Option<string>,
    phone: Option<string>,
    isActive: bool,
    image: Option<seq<string>>)

  /** The user body: the six fields in order, the flag, then the image when one was chosen. */
  function UserBody(v: UserValues): (parts: seq<Part>)
    ensures |parts| >= 7
    ensures Keys(parts)[..7] == ["firstname", "lastname", "email", "password", "roleId", "phone", "is_active"]
    ensures parts[3] == Text("password", AsText(v.password)) && parts[6] == Text("is_active", Flag(v.isActive))
    ensures parts[7..] == ImagePart(v.image)
  {
    var fields :=
      [Text("firstname", AsText(v.firstname)), Text("lastname", AsText(v.lastname)), Text("email", AsText(v.email)),
       Text("password", AsText(v.password)), Text("roleId", AsText(v.roleId)), Text("phone", AsText(v.phone)),
       Text("is_active", Flag(v.isActive))];
    var image := ImagePart(v.image);
    FieldsThenImage(fields, image);
    fields + image
  }

  /** Seven fields followed by the image part keep the fields' keys and parts in front. */
  lemma FieldsThenImage(fields: seq<Part>, image: seq<Part>)
    requires |fields| == 7
    ensures Keys(fields + image)[..7] == Keys(fields)
    ensures (fields + image)[..7] == fields && (fields + image)[7..] == image
  {
    KeysAppend(fields, image);
  }

  /** An item of an order payload. */
  datatype Line = Line(productId: int, quantity: int, price: int)

  /** An item as an order returned by the server holds it. */
  datatype StoredItem = StoredItem(id: int, productId: int, quantity: int, price: int)

  /** The values the order form submits. */
  datatype OrderValues = OrderValues(
    userId: Option<int>,
    totalPrice: Option<int>,
    shippingAddress: Option<string>,
    note: Option<string>,
    items: Option<seq<Line>>,
    orderItem: Option<seq<StoredItem>>)

  /** The order payload. */
  datatype OrderPayload = OrderPayload(userId: Option<int>, totalPrice: Option<int>, shippingAddress: Option<string>,
                                       note: string, items: seq<Line>)

  /** `order_item` projected onto product, quantity and price. */
  function Project(stored: seq<StoredItem>): (lines: seq<Line>)
    ensures |lines| == |stored|
    ensures forall i :: 0 <= i < |stored| ==>
      lines[i] == Line(stored[i].productId, stored[i].quantity, stored[i].price)
  {
    seq(|stored|, i requires 0 <= i < |stored| => Line(stored[i].productId, stored[i].quantity, stored[i].price))
  }

  /**
   * The order page's payload: `items` when present, else `order_item`
   * projected, else none; the note defaults to the empty text and the total
   * is `total_price`.
   */
  function OrderPayloadOf(v: OrderValues): (p: OrderPayload)
    ensures v.items.Some? ==> p.items == v.items.value
    ensures v.items.None? && v.orderItem.Some? ==> p.items == Project(v.orderItem.value)
    ensures v.items.None? && v.orderItem.None? ==> p.items == []
    ensures p.note == OrElse(v.note, "")
    ensures p.totalPrice == v.totalPrice && p.userId == v.userId && p.shippingAddress == v.shippingAddress
  {
    var items := if v.items.Some? then v.items.value else if v.orderItem.Some? then Project(v.orderItem.value) else [];
    OrderPayload(v.userId, v.totalPrice, v.shippingAddress, OrElse(v.note, ""), items)
  }

  /** Projecting the items of an order loses nothing the payload needs. */
  lemma ProjectKeepsItems(stored: seq<StoredItem>, i: int)
    requires 0 <= i < |stored|
    ensures Project(stored)[i].productId == stored[i].productId
    ensures Project(stored)[i].quantity == stored[i].quantity && Project(stored)[i].price == stored[i].price
  {
  }

  /** The add/edit modal of a page: whether it is open and the record it edits. */
  datatype Editor = Editor(open: bool, editing: Option<int>)

  /** `handleAdd` on every page except contacts: nothing is being edited. */
  function Add(e: Editor): (r: Editor)
    ensures r.open && r.editing == None
  {
    Editor(true, None)
  }

  /** `handleEdit(record)`. */
  function Edit(e: Editor, id: int): (r: Editor)
    ensures r.open && r.editing == Some(id)
  {
    Editor(true, Some(id))
  }

  /** Closing or cancelling the modal: the edited record is kept. */
  function Close(e: Editor): (r: Editor)
    ensures !r.open && r.editing == e.editing
  {
    e.(open := false)
  }

  /** On the list pages the add button always leads to a create, whatever was edited before. */
  lemma AddThenSubmitPosts(e: Editor)
    ensures WriteFor(Add(e).editing) == Post
  {
  }

  /** The contact page's `handleAdd` as written: it opens the modal and keeps the contact edited last. */
  function ContactAddAsWritten(e: Editor): (r: Editor)
    ensures r.open && r.editing == e.editing
  {
    e.(open := true)
  }

  /**
   * As written, editing a contact, closing the modal and pressing the add
   * button submits a `PUT` on the old contact instead of creating one.
   */
  lemma ContactAddUpdatesOldContact(id: int)
    ensures WriteFor(ContactAddAsWritten(Close(Edit(Editor(false, None), id))).editing) == Put(id)
  {
  }

  /** The contact page's add button corrected to clear the edited contact, as the other pages do. */
  function ContactAdd(e: Editor): (r: Editor)
    ensures r.open && r.editing == None
    ensures r == Add(e)
  {
    Editor(true, None)
  }

  /** With the corrected add button, a submit after adding always creates a contact. */
  lemma ContactAddCreates(e: Editor)
    ensures WriteFor(ContactAdd(e).editing) == Post
  {
  }

  /**
   * `handleSubmit` of the contact page, for the edited contact (if any). An
   * edit refetches the current page when the server agrees; a create
   * refetches page 1 without looking at the success flag. Any response
   * closes the modal.
   */
  function ContactSubmit(editing: Option<int>, p: Paging, search: string, reply: Response<SubmitReply>): (r: (Write, Outcome))
    ensures r.0 == WriteFor(editing)
    ensures reply.Thrown? ==> r.1 == Outcome(None, false, Failure("Thao tác thất bại"))
    ensures reply.Returned? ==> r.1.close
    ensures reply.Returned? && editing.None? ==>
      r.1.refetch == Some(Fetch(1, p.pageSize, if search == "" then None else Some(search))) && r.1.notice.Success?
    ensures reply.Returned? && editing.Some? ==>
      (r.1.refetch.Some? <==> reply.body.success) &&
      (reply.body.success ==> r.1.refetch.value == Fetch(p.current, p.pageSize, if search == "" then None else Some(search)))
    ensures reply.Returned? && editing.Some? && !reply.body.success ==>
      r.1.notice == Failure(OrElse(reply.body.message, "Cập nhật thất bại"))
    ensures reply.Returned? && (editing.None? || reply.body.success) ==> r.1.notice == Success(OrElse(reply.body.message, ""))
  {
    var query := if search == "" then None else Some(search);
    var w := WriteFor(editing);
    match reply
      case Thrown(_) => (w, Outcome(None, false, Failure("Thao tác thất bại")))
      case Returned(body) =>
        if editing.None? then (w, Outcome(Some(Fetch(1, p.pageSize, query)), true, Success(OrElse(body.message, ""))))
        else if body.success then (w, Outcome(Some(Fetch(p.current, p.pageSize, query)), true, Success(OrElse(body.message, ""))))
        else (w, Outcome(None, true, Failure(OrElse(body.message, "Cập nhật thất bại"))))
  }

  /** The contact page's first request, on mount: page 1 of five contacts, no search. */
  function ContactMountRequest(): (f: Fetch)
    ensures f.page == 1 && f.pageSize == 5 && f.search == None
  {
    Fetch(1, ContactPageSize, None)
  }

  /**
   * The contact list's response: a reply sets the paging to the requested
   * page and size with the reported total; a thrown request keeps the paging
   * and shows the contact page's own error.
   */
  function ContactLoaded(req: Fetch, p: Paging, reply: Response<int>): (r: (Paging, Option<Notice>))
    ensures reply.Returned? ==> r.0 == Paging(req.page, req.pageSize, reply.body) && r.1 == None
    ensures reply.Thrown? ==> r.0 == p && r.1 == Some(Failure("Lỗi khi tải danh sách liên hệ"))
  {
    match reply
      case Thrown(_) => (p, Some(Failure("Lỗi khi tải danh sách liên hệ")))
      case Returned(total) => (Paging(req.page, req.pageSize, total), None)
  }

  /** The contact list handles a response as every other list does, except for the words of its error. */
  lemma ContactLoadedLikeOthers(a: Admin, req: Fetch, p: Paging, reply: Response<int>)
    ensures ContactLoaded(req, p, reply).0 == Loaded(a, req, p, reply).0
    ensures ContactLoaded(req, p, reply).1.Some? <==> Loaded(a, req, p, reply).1.Some?
    ensures reply.Thrown? ==> ContactLoaded(req, p, reply).1 != Loaded(a, req, p, reply).1
  {
  }

  /** The contact page's delete: the same shape as the others, with its own step-back rule. */
  function ContactDelete(rows: int, p: Paging, search: string, reply: Response<Option<string>>): (o: Outcome)
    ensures reply.Thrown? ==> o == Outcome(None, false, Failure("Thao tác thất bại"))
    ensures reply.Returned? ==>
      o.refetch == Some(Fetch(ContactPageAfterDelete(rows, p.current), p.pageSize, if search == "" then None else Some(search)))
    ensures p.current >= 1 && reply.Returned? ==> o.refetch.value.page >= 1
    ensures reply.Returned? ==> o.notice == Success(OrElse(reply.body, "")) && !o.close
  {
    match reply
      case Thrown(_) => Outcome(None, false, Failure("Thao tác thất bại"))
      case Returned(m) =>
        Outcome(Some(Fetch(ContactPageAfterDelete(rows, p.current), p.pageSize, if search == "" then None else Some(search))),
                false, Success(OrElse(m, "")))
  }
}
