/**
 * The cart badge count kept by the cart context and refreshed by every page
 * that changes the cart.
 */
module CartBadge {
  import opened Common
  import opened Storage
  import opened CartLines

  /** The count before the first fetch resolves. */
  const InitialCount := 0

  /**
   * One `fetchCartCount`: whether `GET /carts/:id` is issued, and the count
   * afterwards. `aborted` means `JSON.parse` threw before the `try`, so the
   * returned promise rejects and the count keeps its previous value.
   */
  datatype CountRefresh = CountRefresh(requested: bool, aborted: bool, count: int)

  /**
   * `fetchCartCount` with the stored user `stored`, the count `previous`, and
   * the response, whose body is the optional `data.data` array.
   */
  function FetchCartCount(stored: Slot<User>, previous: int, reply: Response<Option<seq<CartLine>>>): (r: CountRefresh)
    ensures stored.Corrupt? ==> r.aborted && !r.requested && r.count == previous
    ensures stored.Absent? ==> !r.aborted && !r.requested && r.count == 0
    ensures stored.Present? ==> !r.aborted && r.requested
    ensures stored.Present? && (reply.Thrown? || reply.body.None?) ==> r.count == 0
    ensures stored.Present? && reply.Returned? && reply.body.Some? ==> r.count == Quantities(reply.body.value)
  {
    match stored
      case Corrupt => CountRefresh(false, true, previous)
      case Absent => CountRefresh(false, false, 0)
      case Present(_) =>
        match reply
          case Thrown(_) => CountRefresh(true, false, 0)
          case Returned(data) =>
            var sum := if data.Some? then Quantities(data.value) else 0;
            CountRefresh(true, false, if sum != 0 then sum else 0)
  }

  /** The one fetch the provider issues when it mounts. */
  function MountCount(stored: Slot<User>, reply: Response<Option<seq<CartLine>>>): (r: CountRefresh)
    ensures stored.Corrupt? ==> r.count == 0
    ensures r.count != 0 ==> stored.Present? && reply.Returned? && reply.body.Some?
    ensures r.count == FetchCartCount(stored, InitialCount, reply).count
  {
    FetchCartCount(stored, InitialCount, reply)
  }
}
