/**
 * The order handlers over the store: the customer's list and detail
 * reads (src/controllers/orderController.js) and the two status updates,
 * the unchecked one of the order routes and the whitelisted one of the
 * admin routes (src/controllers/adminController.js).
 */
module OrderHandlers {
  import opened Wrappers
  import opened Users
  import opened Orders
  import opened Paging
  import opened Stores

  datatype OrderError = Unauthenticated | OrderNotFound | Forbidden | InvalidStatus
  {
    function Status(): int {
      match this
      case Unauthenticated => 401
      case OrderNotFound => 404
      case Forbidden => 403
      case InvalidStatus => 400
    }
  }

  /** The orders of user `uid`, in store order (`Order.find({ user })`). */
  function OrdersOf(os: seq<Order>, uid: nat): (r: seq<Order>)
    ensures |r| <= |os|
    ensures forall i :: 0 <= i < |r| ==> r[i].user == uid && r[i] in os
    ensures forall i :: 0 <= i < |os| && os[i].user == uid ==> os[i] in r
    ensures forall o :: multiset(r)[o] == (if o.user == uid then multiset(os)[o] else 0)
  {
    if |os| == 0 then []
    else
      assert os == [os[0]] + os[1..];
      if os[0].user == uid then [os[0]] + OrdersOf(os[1..], uid)
      else OrdersOf(os[1..], uid)
  }

  /**
   * The listing keeps store order: the orders of a store split in two are
   * those of the first part followed by those of the second.
   */
  lemma {:induction false} OrdersOfConcat(a: seq<Order>, b: seq<Order>, uid: nat)
    ensures OrdersOf(a + b, uid) == OrdersOf(a, uid) + OrdersOf(b, uid)
  {
    if |a| == 0 {
      assert a + b == b;
    } else {
      assert (a + b)[1..] == a[1..] + b;
      OrdersOfConcat(a[1..], b, uid);
    }
  }

  datatype Listing = Listing(orders: seq<Order>, total: nat, totalPages: nat)

  /**
   * `getOrders` (orderController.js:4-40): 401 without a user; otherwise the
   * requested page of the caller's orders with the total and page count.
   */
  function GetOrders(st: Store, viewer: Option<User>, page: int, limit: int): (r: Result<Listing, OrderError>)
    requires page >= 1 && limit >= 1
    ensures r.Err? <==> viewer.None?
    ensures r.Err? ==> r.error == Unauthenticated
    ensures r.Ok? ==> var mine := OrdersOf(st.orders, viewer.value.id);
      && r.value.total == |mine|
      && r.value.totalPages == TotalPages(|mine|, limit)
      && |r.value.orders| <= limit
      && (Skip(page, limit) < |mine| ==> |r.value.orders| == limit || Skip(page, limit) + |r.value.orders| == |mine|)
      && (page <= r.value.totalPages ==> |r.value.orders| > 0)
      && (|r.value.orders| == 0 || Skip(page, limit) + |r.value.orders| <= |mine|)
      && forall i :: 0 <= i < |r.value.orders| ==> r.value.orders[i] == mine[Skip(page, limit) + i]
  {
    match viewer
    case None => Err(Unauthenticated)
    case Some(u) =>
      var mine := OrdersOf(st.orders, u.id);
      Ok(Listing(Page(mine, page, limit), |mine|, TotalPages(|mine|, limit)))
  }

  /** Every order of the caller shows up on one of the pages the listing announces. */
  lemma EveryOwnOrderListed(st: Store, u: User, limit: int, i: nat)
    requires limit >= 1 && i < |OrdersOf(st.orders, u.id)|
    ensures var p := i / limit + 1;
      var l := GetOrders(st, Some(u), p, limit).value;
      p <= l.totalPages && i % limit < |l.orders| && l.orders[i % limit] == OrdersOf(st.orders, u.id)[i]
  {
    EntryOnItsPage(OrdersOf(st.orders, u.id), limit, i);
  }

  /**
   * `getOrder` (orderController.js:51-85): 401 without a user, 404 for an
   * unknown id, 403 unless the caller owns the order or is an admin.
   */
  function GetOrder(st: Store, viewer: Option<User>, id: nat): (r: Result<Order, OrderError>)
    ensures viewer.None? <==> r == Err(Unauthenticated)
    ensures r.Ok? <==> (viewer.Some? && FindOrder(st.orders, id) < |st.orders|
      && (st.orders[FindOrder(st.orders, id)].user == viewer.value.id || viewer.value.role == Admin))
    ensures r.Ok? ==> r.value in st.orders && r.value.id == id
    ensures r == Err(Forbidden) ==> viewer.Some? && viewer.value.role == Customer
  {
    match viewer
    case None => Err(Unauthenticated)
    case Some(u) =>
      var i := FindOrder(st.orders, id);
      if i == |st.orders| then Err(OrderNotFound)
      else if !CanView(st.orders[i], u) then Err(Forbidden)
      else Ok(st.orders[i])
  }

  /** A customer reads exactly their own orders; an admin reads any. */
  lemma GetOrderAccess(st: Store, u: User, id: nat)
    requires FindOrder(st.orders, id) < |st.orders|
    ensures u.role == Admin ==> GetOrder(st, Some(u), id).Ok?
    ensures u.role == Customer ==>
      (GetOrder(st, Some(u), id).Ok? <==> st.orders[FindOrder(st.orders, id)].user == u.id)
  {
  }

  /** `updateOrderStatus` of the order routes (orderController.js:96-137): any status is recorded. */
  function UpdateOrderStatus(st: Store, id: nat, status: string, note: Option<string>, now: int): (out: (Result<Order, OrderError>, Store))
    ensures out.0.Err? <==> FindOrder(st.orders, id) == |st.orders|
    ensures out.0.Err? ==> out.0.error == OrderNotFound && out.1 == st
    ensures out.0.Ok? ==> var i := FindOrder(st.orders, id);
      && out.0.value == RecordStatus(st.orders[i], status, note, now)
      && out.1 == st.(orders := st.orders[i := out.0.value])
  {
    var i := FindOrder(st.orders, id);
    if i == |st.orders| then (Err(OrderNotFound), st)
    else
      var o := RecordStatus(st.orders[i], status, note, now);
      (Ok(o), st.(orders := st.orders[i := o]))
  }

  /**
   * `updateOrderStatus` of the admin routes (adminController.js:349-385):
   * 404 for an unknown id, then 400 for a status outside the five; the
   * order is untouched on either rejection.
   */
  function AdminUpdateOrderStatus(st: Store, id: nat, status: string, note: Option<string>, now: int): (out: (Result<Order, OrderError>, Store))
    ensures out.0.Err? ==> out.1 == st
    ensures FindOrder(st.orders, id) == |st.orders| ==> out.0 == Err(OrderNotFound)
    ensures FindOrder(st.orders, id) < |st.orders| ==> (out.0 == Err(InvalidStatus) <==> status !in ValidStatuses)
    ensures out.0.Ok? ==> var i := FindOrder(st.orders, id);
      && i < |st.orders|
      && out.0.value == AdminSetStatus(st.orders[i], status, note, now).value
      && out.1 == st.(orders := st.orders[i := out.0.value])
  {
    var i := FindOrder(st.orders, id);
    if i == |st.orders| then (Err(OrderNotFound), st)
    else match AdminSetStatus(st.orders[i], status, note, now)
      case None => (Err(InvalidStatus), st)
      case Some(o) => (Ok(o), st.(orders := st.orders[i := o]))
  }

  /** The admin route only ever stores one of the five statuses. */
  lemma AdminStatusStaysValid(st: Store, id: nat, status: string, note: Option<string>, now: int)
    requires StatusesKnown(st.orders)
    ensures StatusesKnown(AdminUpdateOrderStatus(st, id, status, note, now).1.orders)
  {
  }
}
