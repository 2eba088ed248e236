/**
 * The Order record as checkout creates it (checkoutController.js:206-222)
 * and the status and access rules of src/controllers/orderController.js
 * and src/controllers/adminController.js. The Order model file is not part
 * of this model: the order number, id, creation time and initial status it
 * would default are inputs.
 */
module Orders {
  import opened Wrappers
  import opened Users

  /** A line snapshot: names, sku and price are copied, not referenced. */
  datatype OrderLine = OrderLine(
    product: nat,
    productName: string,
    variantId: nat,
    variantName: string,
    variantSku: string,
    quantity: int,
    price: int,
    subtotal: int)

  datatype StatusEntry = StatusEntry(status: string, time: int, note: Option<string>)

  datatype Order = Order(
    id: nat,
    orderNumber: string,
    user: nat,
    items: seq<OrderLine>,
    shippingAddress: Address,
    paymentMethod: string,
    subtotal: int,
    discountCode: Option<string>,
    discountAmount: int,
    pointsUsed: int,
    pointsDiscount: int,
    taxAmount: int,
    shippingFee: int,
    totalAmount: int,
    pointsEarned: int,
    isPaid: bool,
    paidAt: Option<int>,
    currentStatus: string,
    statusHistory: seq<StatusEntry>,
    createdAt: int)

  /** The statuses the admin handler accepts, in the order it lists them. */
  const ValidStatuses: seq<string> := ["pending", "confirmed", "shipping", "delivered", "cancelled"]

  const Delivered: string := "delivered"

  /** Every order carries one of the five statuses. */
  predicate StatusesKnown(os: seq<Order>) {
    forall i :: 0 <= i < |os| ==> os[i].currentStatus in ValidStatuses
  }

  /** Index of the order with id `id` (`Order.findById`); `|os|` when there is none. */
  function FindOrder(os: seq<Order>, id: nat): (r: nat)
    ensures r <= |os|
    ensures r < |os| ==> os[r].id == id
    ensures forall j :: 0 <= j < r ==> os[j].id != id
  {
    if |os| == 0 then 0
    else if os[0].id == id then 0
    else 1 + FindOrder(os[1..], id)
  }

  /**
   * The owner-or-admin rule of `getOrder` (orderController.js:74-80).
   */
  function CanView(o: Order, viewer: User): (ok: bool)
    ensures ok <==> o.user == viewer.id || viewer.role == Admin
    ensures viewer.role == Customer && o.user != viewer.id ==> !ok
  {
    o.user == viewer.id || viewer.role == Admin
  }

  /**
   * `updateOrderStatus` of the order routes (orderController.js:108-121): no
   * whitelist; one history entry is appended, the status is set, and
   * `delivered` marks the order paid now. Nothing else changes.
   */
  function RecordStatus(o: Order, status: string, note: Option<string>, now: int): (r: Order)
    ensures r.statusHistory == o.statusHistory + [StatusEntry(status, now, note)]
    ensures r.currentStatus == status
    ensures status == Delivered ==> r.isPaid && r.paidAt == Some(now)
    ensures status != Delivered ==> r.isPaid == o.isPaid && r.paidAt == o.paidAt
    ensures r.(statusHistory := o.statusHistory, currentStatus := o.currentStatus,
               isPaid := o.isPaid, paidAt := o.paidAt) == o
  {
    var o1 := o.(statusHistory := o.statusHistory + [StatusEntry(status, now, note)], currentStatus := status);
    if status == Delivered then o1.(isPaid := true, paidAt := Some(now)) else o1
  }

  /**
   * `updateOrderStatus` of the admin routes (adminController.js:349-380):
   * `None` for a status outside the five (400, order untouched); otherwise
   * the status is set and one entry appended with the note defaulting to "".
   * Payment fields are not touched on this route.
   */
  function AdminSetStatus(o: Order, status: string, note: Option<string>, now: int): (r: Option<Order>)
    ensures r.None? <==> status !in ValidStatuses
    ensures r.Some? ==> r.value.currentStatus == status
    ensures r.Some? ==>
      r.value.statusHistory == o.statusHistory + [StatusEntry(status, now, Some(if note.Some? then note.value else ""))]
    ensures r.Some? ==> r.value.(statusHistory := o.statusHistory, currentStatus := o.currentStatus) == o
  {
    if status !in ValidStatuses then None
    else
      var n := match note case Some(t) => t case None => "";
      Some(o.(currentStatus := status, statusHistory := o.statusHistory + [StatusEntry(status, now, Some(n))]))
  }

  /** A history only grows: every recorded status is kept, in order. */
  lemma RecordStatusAppendsOnly(o: Order, status: string, note: Option<string>, now: int)
    ensures |RecordStatus(o, status, note, now).statusHistory| == |o.statusHistory| + 1
    ensures RecordStatus(o, status, note, now).statusHistory[..|o.statusHistory|] == o.statusHistory
  {
  }
}
