/**
 * The signed-in user's order history: loading the orders newest first, the
 * status tag, and the item rows.
 */
module OrderHistory {
  import opened Common
  import opened Storage

  /** One item of an order, as far as the page shows it. */
  datatype Item = Item(id: int, productName: Option<string>, quantity: int, price: int)

  /** One order; `createdAt` is its creation time in milliseconds. */
  datatype Order = Order(id: int, createdAt: int, status: Option<string>, items: Option<seq<Item>>)

  /** The tag drawn for a status. */
  datatype Tag = Tag(color: string, text: string)

  /** Newest first: no order is older than one after it. */
  predicate NewestFirst(orders: seq<Order>) {
    forall i, j :: 0 <= i < j < |orders| ==> orders[i].createdAt >= orders[j].createdAt
  }

  /**
   * Places `x` into the newest-first list `t` ahead of every order that is
   * not newer than it, which is where a stable sort puts an order that came
   * before all of `t`.
   */
  function Insert(x: Order, t: seq<Order>): (r: seq<Order>)
    requires NewestFirst(t)
    ensures NewestFirst(r)
    ensures multiset(r) == multiset(t) + multiset{x}
    ensures |r| == |t| + 1
  {
    if t == [] || t[0].createdAt <= x.createdAt then [x] + t
    else
      var rest := Insert(x, t[1..]);
      InsertStep(x, t, rest);
      [t[0]] + rest
  }

  /** Putting the newest order of `t` back ahead of `x` inserted into the others. */
  lemma InsertStep(x: Order, t: seq<Order>, rest: seq<Order>)
    requires NewestFirst(t) && t != [] && t[0].createdAt > x.createdAt
    requires NewestFirst(rest) && multiset(rest) == multiset(t[1..]) + multiset{x}
    ensures NewestFirst([t[0]] + rest)
    ensures multiset([t[0]] + rest) == multiset(t) + multiset{x}
  {
    assert t == [t[0]] + t[1..];
    forall k | 0 <= k < |rest|
      ensures t[0].createdAt >= rest[k].createdAt
    {
      assert rest[k] in multiset(rest);
      assert rest[k] in multiset(t[1..]) || rest[k] == x;
      if rest[k] != x {
        var j :| 0 <= j < |t[1..]| && t[1..][j] == rest[k];
        assert t[j + 1] == rest[k];
      }
    }
    var r := [t[0]] + rest;
    forall i, j | 0 <= i < j < |r|
      ensures r[i].createdAt >= r[j].createdAt
    {
      if i > 0 { assert r[i] == rest[i - 1] && r[j] == rest[j - 1]; }
      else { assert r[j] == rest[j - 1]; }
    }
  }

  /** `(data || []).sort((a, b) => b.createdAt - a.createdAt)`. */
  function SortNewestFirst(orders: seq<Order>): (r: seq<Order>)
    ensures NewestFirst(r)
    ensures multiset(r) == multiset(orders)
  {
    if orders == [] then []
    else
      assert orders == [orders[0]] + orders[1..];
      Insert(orders[0], SortNewestFirst(orders[1..]))
  }

  /** What loading the history does. */
  datatype HistoryLoad = HistoryLoad(requested: bool, userId: Option<int>, orders: seq<Order>, notice: Option<Notice>)

  /**
   * `fetchOrders` with the stored user, the orders shown so far, and the
   * response, whose body is the optional `data` array.
   */
  function FetchOrders(stored: Slot<User>, shown: seq<Order>, reply: Response<Option<seq<Order>>>): (r: HistoryLoad)
    ensures stored.Absent? ==> !r.requested && r.orders == shown && r.notice == None
    ensures stored.Corrupt? ==> !r.requested && r.orders == shown
    ensures stored.Corrupt? ==> r.notice == Some(Failure("Không thể tải lịch sử đơn hàng"))
    ensures r.requested <==> stored.Present?
    ensures r.requested ==> r.userId == stored.value.id
    ensures r.requested && reply.Thrown? ==>
      r.orders == shown && r.notice == Some(Failure("Không thể tải lịch sử đơn hàng"))
    ensures r.requested && reply.Returned? ==> r.notice == None && NewestFirst(r.orders)
    ensures r.requested && reply.Returned? ==>
      multiset(r.orders) == multiset(if reply.body.Some? then reply.body.value else [])
  {
    match stored
      case Absent => HistoryLoad(false, None, shown, None)
      case Corrupt => HistoryLoad(false, None, shown, Some(Failure("Không thể tải lịch sử đơn hàng")))
      case Present(u) =>
        match reply
          case Thrown(_) => HistoryLoad(true, u.id, shown, Some(Failure("Không thể tải lịch sử đơn hàng")))
          case Returned(data) =>
            HistoryLoad(true, u.id, SortNewestFirst(if data.Some? then data.value else []), None)
  }

  /** The tag configured for a lower-cased status key, if it is one of the five known ones. */
  function StatusConfig(key: string): (t: Option<Tag>)
    ensures t.Some? <==> key in {"pending", "processing", "shipped", "completed", "cancelled"}
  {
    if key == "pending" then Some(Tag("gold", "Chờ xử lý"))
    else if key == "processing" then Some(Tag("blue", "Đang xử lý"))
    else if key == "shipped" then Some(Tag("cyan", "Đang giao"))
    else if key == "completed" then Some(Tag("success", "Đã hoàn thành"))
    else if key == "cancelled" then Some(Tag("error", "Đã hủy"))
    else None
  }

  /**
   * `renderStatusTag(status)`: `None` when rendering throws, which it does
   * for a missing status, whose fallback text has no `toUpperCase`.
   */
  function StatusTag(status: Option<string>): (t: Option<Tag>)
    ensures status.None? <==> t.None?
    ensures status.Some? && StatusConfig(Lower(status.value)).Some? ==>
      t == Some(Tag(StatusConfig(Lower(status.value)).value.color, Upper(StatusConfig(Lower(status.value)).value.text)))
    ensures status.Some? && StatusConfig(Lower(status.value)).None? ==>
      t == Some(Tag("default", Upper(status.value)))
  {
    if status.None? then None
    else
      var config := StatusConfig(Lower(status.value));
      if config.Some? then Some(Tag(config.value.color, Upper(config.value.text)))
      else Some(Tag("default", Upper(status.value)))
  }

  /** A known status is recognised whatever its case. */
  lemma StatusIgnoresCase(a: string, b: string)
    requires Lower(a) == Lower(b)
    ensures StatusTag(Some(a)).value.color == StatusTag(Some(b)).value.color
    ensures StatusConfig(Lower(a)).Some? ==> StatusTag(Some(a)) == StatusTag(Some(b))
  {
  }

  /** The tag of a status in capitals is that of the lower-case key. */
  lemma ShoutedStatusIsKnown()
    ensures StatusTag(Some("PENDING")) == StatusTag(Some("pending"))
    ensures StatusTag(Some("pending")).value.color == "gold"
  {
    LowerPending();
  }

  /** Lower-casing the key in capitals, or already in lower case, gives the key. */
  lemma LowerPending()
    ensures Lower("PENDING") == "pending" && Lower("pending") == "pending"
  {
    LowerPendingShouted();
    LowerPendingQuiet();
  }

  /** The capitals of the key lower-case one by one. */
  lemma LowerPendingShouted()
    ensures Lower("PENDING") == "pending"
  {
    LowerPointwise("PENDING", "pending");
  }

  /** The lower-case key is left as it is. */
  lemma LowerPendingQuiet()
    ensures Lower("pending") == "pending"
  {
    var s := "pending";
    forall i | 0 <= i < |s|
      ensures LowerChar(s[i]) == s[i]
    {
      LowerKeepsSmall(s[i]);
    }
    LowerPointwise(s, s);
  }

  /** An ASCII small letter has no lower-case mapping of its own. */
  lemma LowerKeepsSmall(c: char)
    requires 'a' <= c <= 'z'
    ensures LowerChar(c) == c
  {
  }

  /** The product column of an item row. */
  function ItemName(item: Item): (name: string)
    ensures Truthy(item.productName) ==> name == item.productName.value
    ensures !Truthy(item.productName) ==> name == "Sản phẩm"
  {
    OrElse(item.productName, "Sản phẩm")
  }

  /** The rows of an order's item table: one per item, in order, with the product name or its default. */
  function ItemRows(o: Order): (rows: seq<string>)
    ensures o.items.None? ==> rows == []
    ensures o.items.Some? ==> |rows| == |o.items.value|
    ensures o.items.Some? ==> forall i :: 0 <= i < |rows| ==> rows[i] == ItemName(o.items.value[i])
  {
    if o.items.None? then [] else seq(|o.items.value|, i requires 0 <= i < |o.items.value| => ItemName(o.items.value[i]))
  }
}
