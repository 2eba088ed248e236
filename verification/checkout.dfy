/**
 * The checkout handler and its preview (src/controllers/checkoutController.js),
 * as total functions from a store and a request to an outcome and a new
 * store. Stages follow the handler: resolve the identity (possibly creating
 * a guest account), validate, price, then commit as a plain sequence of
 * writes with no rollback.
 */
module Checkout {
  import opened Wrappers
  import opened Seqs
  import opened Text
  import opened Pricing
  import opened Discounts
  import opened Products
  import opened Inventory
  import opened Carts
  import opened Users
  import opened Orders
  import opened Stores

  datatype GuestInfo = GuestInfo(email: string, fullName: string, phone: string)

  /** The request body. Omitted strings are "", omitted points are 0 (JavaScript treats both as false). */
  datatype CheckoutRequest = CheckoutRequest(
    cartItems: seq<CartItem>,
    shippingAddressId: Option<nat>,
    shippingAddress: Option<Address>,
    paymentMethod: string,
    discountCode: string,
    pointsToUse: int,
    guestInfo: Option<GuestInfo>)

  /**
   * What the handler takes from outside the request: the user attached by
   * the optional-auth middleware, the clock, the random password, and the
   * ids and defaults the database and the Order model supply.
   */
  datatype Env = Env(
    authUser: Option<nat>,
    now: int,
    clockStamp: string,
    tempPassword: string,
    newUserId: nat,
    newAddressId: nat,
    orderId: nat,
    orderNumber: string,
    initialStatus: string)

  datatype CheckoutError =
    | GuestNotCreated
    | NoIdentity
    | EmptyCart
    | AddressNotFound
    | AddressRequired
    | ProductNotFound(productId: nat)
    | VariantNotFound(variantId: nat)
    | InsufficientInventory(productId: nat, variantId: nat)
    | InvalidDiscount
    | InsufficientPoints
  {
    /** The HTTP status the handler answers with. */
    function Status(): int {
      match this
      case GuestNotCreated => 500
      case ProductNotFound(_) => 404
      case _ => 400
    }
  }

  datatype CheckoutOutcome =
    | Created(order: Order, tokenIssued: bool)
    | Rejected(error: CheckoutError)
    | CommitFailed(order: Order, failedLine: nat)

  /** The authenticated user, when there is one, is a stored user (optional-auth loads it from the store). */
  predicate AuthUserStored(st: Store, env: Env) {
    env.authUser.Some? ==> FindUser(st.users, env.authUser.value) < |st.users|
  }

  /** The ids the database hands out are fresh. */
  predicate EnvFresh(st: Store, env: Env) {
    && FindUser(st.users, env.newUserId) == |st.users|
    && FindOrder(st.orders, env.orderId) == |st.orders|
  }

  // ---------------------------------------------------------------------
  // Identity
  // ---------------------------------------------------------------------

  /** `guest_${Date.now()}@temp.com`. */
  function TemporaryEmail(stamp: string): string {
    "guest_" + stamp + "@temp.com"
  }

  /** The digits of a clock reading: what `Date.now()` prints as. */
  predicate Digits(stamp: string) {
    forall i :: 0 <= i < |stamp| ==> IsDigit(stamp[i])
  }

  /** A temporary email is already in the form the email setters store. */
  lemma TemporaryEmailNormal(stamp: string)
    requires Digits(stamp)
    ensures NormalizeEmail(TemporaryEmail(stamp)) == TemporaryEmail(stamp)
  {
    var e := TemporaryEmail(stamp);
    assert e[0] == 'g' && e[|e| - 1] == 'm';
    TrimKeepsUnpadded(e);
    forall i | 0 <= i < |e|
      ensures !IsUpper(e[i])
    {
      if i < 6 {
        assert e[i] == "guest_"[i];
      } else if i < 6 + |stamp| {
        assert e[i] == stamp[i - 6];
      } else {
        assert e[i] == "@temp.com"[i - 6 - |stamp|];
      }
    }
    LowerKeepsNoUpper(e);
  }

  /** `guestInfo || { email: temporary, fullName/phone from the shipping address }`. */
  function GuestData(req: CheckoutRequest, env: Env): GuestInfo
    requires req.guestInfo.Some? || req.shippingAddress.Some?
  {
    match req.guestInfo
    case Some(g) => g
    case None => GuestInfo(TemporaryEmail(env.clockStamp), req.shippingAddress.value.fullName, req.shippingAddress.value.phone)
  }

  /** The account `User.create` stores for a new guest; the email passes through the schema's setters. */
  function NewGuest(g: GuestInfo, req: CheckoutRequest, env: Env): User {
    var addrs := match req.shippingAddress
      case Some(a) => [a.(id := env.newAddressId, isDefault := true)]
      case None => [];
    User(env.newUserId, NormalizeEmail(g.email), g.fullName, env.tempPassword, Customer, addrs, 0, true, false, env.now)
  }

  /** What `User.create` validates: the required email and name, and the address's required fields. */
  predicate Creatable(u: User) {
    u.email != "" && u.fullName != "" && AddressesValid(u.addresses)
  }

  /**
   * Identity resolution (checkoutController.js:27-84): the authenticated
   * user; else, given guest info or a shipping address, the account with the
   * guest email (as the email setters normalize it), created as a guest
   * account when there is none; else no identity.
   */
  function ResolveIdentity(users: seq<User>, req: CheckoutRequest, env: Env): (r: Result<(nat, seq<User>), CheckoutError>)
    ensures env.authUser.Some? ==> r == Ok((env.authUser.value, users))
    ensures env.authUser.None? && req.guestInfo.None? && req.shippingAddress.None? ==> r == Err(NoIdentity)
    ensures r.Ok? ==> r.value.1 == users || r.value.1 == users + [NewGuest(GuestData(req, env), req, env)]
    ensures r.Err? ==> r.error == NoIdentity || r.error == GuestNotCreated
    ensures env.authUser.None? && (req.guestInfo.Some? || req.shippingAddress.Some?) ==>
      var g := GuestData(req, env);
      var i := FindUserByEmail(users, NormalizeEmail(g.email));
      && (i < |users| ==> r == Ok((users[i].id, users)))
      && (i == |users| ==> r == (if Creatable(NewGuest(g, req, env))
                                 then Ok((env.newUserId, users + [NewGuest(g, req, env)]))
                                 else Err(GuestNotCreated)))
  {
    match env.authUser
    case Some(id) => Ok((id, users))
    case None =>
      if req.guestInfo.None? && req.shippingAddress.None? then Err(NoIdentity)
      else
        var g := GuestData(req, env);
        var i := FindUserByEmail(users, NormalizeEmail(g.email));
        if i < |users| then Ok((users[i].id, users))
        else
          var u := NewGuest(g, req, env);
          if Creatable(u) then Ok((u.id, users + [u])) else Err(GuestNotCreated)
  }

  // ---------------------------------------------------------------------
  // Validation and pricing
  // ---------------------------------------------------------------------

  /** `user.addresses.id(shippingAddressId)` when an id is given, else the address in the body. */
  function ShippingAddress(u: User, req: CheckoutRequest): (r: Result<Address, CheckoutError>)
    ensures req.shippingAddressId.Some? ==>
      (r.Ok? <==> exists i :: 0 <= i < |u.addresses| && u.addresses[i].id == req.shippingAddressId.value)
    ensures req.shippingAddressId.Some? && r.Ok? ==> r.value in u.addresses && r.value.id == req.shippingAddressId.value
    ensures r.Err? ==> r.error == AddressNotFound || r.error == AddressRequired
    ensures req.shippingAddressId.None? ==>
      r == (if req.shippingAddress.Some? then Ok(req.shippingAddress.value) else Err(AddressRequired))
  {
    match req.shippingAddressId
    case Some(id) =>
      var i := FindAddress(u.addresses, id);
      if i == |u.addresses| then Err(AddressNotFound) else Ok(u.addresses[i])
    case None =>
      match req.shippingAddress
      case Some(a) => Ok(a)
      case None => Err(AddressRequired)
  }

  /** The variant a resolvable line names. */
  function VariantOf(ps: seq<Product>, item: CartItem): Variant
    requires Resolvable(ps, item.productId, item.variantId)
  {
    var p := ps[FindProduct(ps, item.productId)];
    p.variants[FindVariant(p.variants, item.variantId)]
  }

  /** The order line snapshots a cart line: name, sku and price copied from the live variant. */
  predicate Snapshot(ps: seq<Product>, item: CartItem, l: OrderLine) {
    && Resolvable(ps, item.productId, item.variantId)
    && var p := ps[FindProduct(ps, item.productId)];
      var v := VariantOf(ps, item);
      && l.product == p.id && l.productName == p.name
      && l.variantId == v.id && l.variantName == v.name && l.variantSku == v.sku
      && l.quantity == item.quantity && l.price == v.price
      && l.subtotal == v.price * item.quantity
  }

  /** The errors the line loop can answer with. */
  predicate LineError(e: CheckoutError) {
    e.ProductNotFound? || e.VariantNotFound? || e.InsufficientInventory?
  }

  /** One iteration of the validation loop (checkoutController.js:118-158). */
  function PriceLine(ps: seq<Product>, item: CartItem): (r: Result<OrderLine, CheckoutError>)
    ensures r.Ok? <==> Resolvable(ps, item.productId, item.variantId) && StockOf(ps, item.productId, item.variantId) >= item.quantity
    ensures r.Ok? ==> Snapshot(ps, item, r.value)
    ensures r.Err? && FindProduct(ps, item.productId) == |ps| ==> r.error == ProductNotFound(item.productId)
    ensures r.Err? ==> LineError(r.error)
  {
    var i := FindProduct(ps, item.productId);
    if i == |ps| then Err(ProductNotFound(item.productId))
    else
      var p := ps[i];
      var j := FindVariant(p.variants, item.variantId);
      if j == |p.variants| then Err(VariantNotFound(item.variantId))
      else
        var v := p.variants[j];
        if v.inventory < item.quantity then Err(InsufficientInventory(item.productId, item.variantId))
        else Ok(OrderLine(p.id, p.name, v.id, v.name, v.sku, item.quantity, v.price, v.price * item.quantity))
  }

  /** The whole loop: the first failing line rejects; otherwise one snapshot per line, in order. */
  function PriceLines(ps: seq<Product>, items: seq<CartItem>): (r: Result<seq<OrderLine>, CheckoutError>)
    ensures r.Ok? <==> InStock(ps, items)
    ensures r.Ok? ==> |r.value| == |items| && forall i :: 0 <= i < |items| ==> Snapshot(ps, items[i], r.value[i])
    ensures r.Err? ==> LineError(r.error)
  {
    if |items| == 0 then Ok([])
    else match PriceLine(ps, items[0])
      case Err(e) => Err(e)
      case Ok(l) =>
        match PriceLines(ps, items[1..])
        case Err(e) =>
          assert !InStock(ps, items[1..]);
          Err(e)
        case Ok(ls) => Ok([l] + ls)
  }

  /** `price * quantity` summed over the order lines. */
  function LinesSubtotal(lines: seq<OrderLine>): int {
    if |lines| == 0 then 0 else lines[0].subtotal + LinesSubtotal(lines[1..])
  }

  /** `price * quantity` of the live variants, summed over the requested lines. */
  function CartSubtotal(ps: seq<Product>, items: seq<CartItem>): int
    requires forall i :: 0 <= i < |items| ==> Resolvable(ps, items[i].productId, items[i].variantId)
  {
    if |items| == 0 then 0 else VariantOf(ps, items[0]).price * items[0].quantity + CartSubtotal(ps, items[1..])
  }

  /** The order's subtotal is the sum of the live prices times the quantities. */
  lemma {:induction false} SnapshotSubtotal(ps: seq<Product>, items: seq<CartItem>, lines: seq<OrderLine>)
    requires |lines| == |items|
    requires forall i :: 0 <= i < |items| ==> Resolvable(ps, items[i].productId, items[i].variantId)
    requires forall i :: 0 <= i < |items| ==> Snapshot(ps, items[i], lines[i])
    ensures LinesSubtotal(lines) == CartSubtotal(ps, items)
  {
    if |items| > 0 {
      SnapshotSubtotal(ps, items[1..], lines[1..]);
    }
  }

  /** The discount code, uppercased, looked up (checkoutController.js:165-176). */
  function ApplyDiscount(ds: seq<Discount>, code: string, subtotal: int): (r: Result<(nat, int), CheckoutError>)
    ensures code == "" ==> r == Ok((|ds|, 0))
    ensures code != "" ==>
      var i := FindByCode(ds, ToUpper(code));
      (r.Ok? <==> i < |ds| && IsValid(ds[i]))
      && (r.Ok? ==> r.value == (i, CalculateDiscount(ds[i], subtotal)))
    ensures r.Err? ==> r.error == InvalidDiscount
  {
    if code == "" then Ok((|ds|, 0))
    else
      var i := FindByCode(ds, ToUpper(code));
      if i == |ds| || !IsValid(ds[i]) then Err(InvalidDiscount)
      else Ok((i, CalculateDiscount(ds[i], subtotal)))
  }

  /** Everything validation settles before the commit starts. */
  datatype Plan = Plan(
    userId: nat,
    userIndex: nat,
    address: Address,
    lines: seq<OrderLine>,
    discountIndex: nat,
    pricing: Breakdown)

  /**
   * The closed list of conditions validation checks after identity: a stored
   * user, a non-empty cart, a shipping address, every line in stock, a usable
   * discount code on the live subtotal, and enough points.
   */
  predicate Acceptable(st: Store, uid: nat, req: CheckoutRequest) {
    var ui := FindUser(st.users, uid);
    && ui < |st.users|
    && |req.cartItems| > 0
    && ShippingAddress(st.users[ui], req).Ok?
    && InStock(st.products, req.cartItems)
    && ApplyDiscount(st.discounts, req.discountCode, CartSubtotal(st.products, req.cartItems)).Ok?
    && (req.pointsToUse == 0 || req.pointsToUse <= st.users[ui].loyaltyPoints)
  }

  /**
   * The validation stages after identity, in the handler's order: empty
   * cart, shipping address, each line, discount, points.
   */
  function Validate(st: Store, uid: nat, req: CheckoutRequest): (r: Result<Plan, CheckoutError>)
    ensures r.Ok? <==> Acceptable(st, uid, req)
    ensures r.Ok? ==> r.value.userId == uid && r.value.userIndex == FindUser(st.users, uid) < |st.users|
    ensures r.Ok? ==> |req.cartItems| > 0 && InStock(st.products, req.cartItems)
    ensures r.Ok? ==> (|r.value.lines| == |req.cartItems|
      && forall i :: 0 <= i < |req.cartItems| ==> Snapshot(st.products, req.cartItems[i], r.value.lines[i]))
    ensures r.Ok? ==> r.value.pricing.subtotal == LinesSubtotal(r.value.lines)
    ensures r.Ok? ==> var ad := ApplyDiscount(st.discounts, req.discountCode, r.value.pricing.subtotal);
      ad.Ok? && r.value.discountIndex == ad.value.0 && r.value.pricing.discountAmount == ad.value.1
    ensures r.Ok? ==> (r.value.pricing.pointsDiscount == req.pointsToUse
      && (req.pointsToUse != 0 ==> req.pointsToUse <= st.users[r.value.userIndex].loyaltyPoints))
    ensures r.Ok? ==> r.value.pricing == Price(r.value.pricing.subtotal, r.value.pricing.discountAmount, r.value.pricing.pointsDiscount)
    ensures |req.cartItems| == 0 && FindUser(st.users, uid) < |st.users| ==> r == Err(EmptyCart)
    ensures r.Err? && r.error == InsufficientPoints ==>
      FindUser(st.users, uid) < |st.users| && req.pointsToUse > st.users[FindUser(st.users, uid)].loyaltyPoints
  {
    var ui := FindUser(st.users, uid);
    if ui == |st.users| then Err(NoIdentity)
    else if |req.cartItems| == 0 then Err(EmptyCart)
    else
      var u := st.users[ui];
      match ShippingAddress(u, req)
      case Err(e) => Err(e)
      case Ok(addr) =>
        match PriceLines(st.products, req.cartItems)
        case Err(e) => Err(e)
        case Ok(lines) =>
          SnapshotSubtotal(st.products, req.cartItems, lines);
          var sub := LinesSubtotal(lines);
          match ApplyDiscount(st.discounts, req.discountCode, sub)
          case Err(e) => Err(e)
          case Ok(d) =>
            if req.pointsToUse != 0 && req.pointsToUse > u.loyaltyPoints then Err(InsufficientPoints)
            else Ok(Plan(uid, ui, addr, lines, d.0, Price(sub, d.1, req.pointsToUse)))
  }

  // ---------------------------------------------------------------------
  // Payment flag
  // ---------------------------------------------------------------------

  const CashOnDelivery: string := "cod"

  /** `paymentMethod || 'cod'`: the method the order stores. */
  function StoredPaymentMethod(pm: string): (m: string)
    ensures m != ""
    ensures pm != "" ==> m == pm
  {
    if pm == "" then CashOnDelivery else pm
  }

  /**
   * `paymentMethod === 'cod' ? false : true`, as written: it tests the raw
   * request field, so an omitted method (stored as 'cod') reads as paid.
   */
  function IsPaidAsWritten(pm: string): bool {
    pm != CashOnDelivery
  }

  /** The as-written flag disagrees with the stored method when the method is omitted. */
  lemma OmittedMethodMarkedPaid()
    ensures StoredPaymentMethod("") == CashOnDelivery && IsPaidAsWritten("")
  {
  }

  /** The flag the order evidently means: paid unless the stored method is cash on delivery. */
  function IsPaid(pm: string): (paid: bool)
    ensures paid <==> StoredPaymentMethod(pm) != CashOnDelivery
    ensures pm != "" ==> paid == IsPaidAsWritten(pm)
  {
    pm != "" && pm != CashOnDelivery
  }

  /** The corrected flag differs from the one the handler stores exactly when the method is omitted. */
  lemma PaidFlagCorrection(pm: string)
    ensures IsPaid(pm) != IsPaidAsWritten(pm) <==> pm == ""
  {
  }

  // ---------------------------------------------------------------------
  // Commit
  // ---------------------------------------------------------------------

  function OrderBreakdown(o: Order): Breakdown {
    Breakdown(o.subtotal, o.discountAmount, o.pointsDiscount, o.taxAmount, o.shippingFee, o.totalAmount, o.pointsEarned)
  }

  /**
   * The document `Order.create` stores (checkoutController.js:206-222). The
   * payment flag is the one the handler computes, from the raw request field.
   */
  function BuildOrder(st: Store, plan: Plan, req: CheckoutRequest, env: Env): (o: Order)
    ensures OrderBreakdown(o) == plan.pricing
    ensures o.user == plan.userId && o.items == plan.lines && o.shippingAddress == plan.address
    ensures o.pointsUsed == plan.pricing.pointsDiscount
    ensures o.discountCode == (if plan.discountIndex < |st.discounts| then Some(st.discounts[plan.discountIndex].code) else None)
    ensures o.paymentMethod == StoredPaymentMethod(req.paymentMethod)
    ensures o.isPaid <==> req.paymentMethod != CashOnDelivery
    ensures o.paidAt == (if o.isPaid then Some(env.now) else None)
    ensures o.id == env.orderId && o.statusHistory == []
  {
    var b := plan.pricing;
    var code := if plan.discountIndex < |st.discounts| then Some(st.discounts[plan.discountIndex].code) else None;
    var paid := IsPaidAsWritten(req.paymentMethod);
    Order(env.orderId, env.orderNumber, plan.userId, plan.lines, plan.address,
      StoredPaymentMethod(req.paymentMethod), b.subtotal, code, b.discountAmount,
      b.pointsDiscount, b.pointsDiscount, b.taxAmount, b.shippingFee, b.totalAmount, b.pointsEarned,
      paid, if paid then Some(env.now) else None, env.initialStatus, [], env.now)
  }

  /** `Cart.findOneAndDelete({ user })`: the user's first cart goes, the others stay in order. */
  function DeleteCartOf(cs: seq<Cart>, uid: nat): (r: seq<Cart>)
    ensures FindCartOfUser(cs, uid) == |cs| ==> r == cs
    ensures FindCartOfUser(cs, uid) < |cs| ==> r == RemoveAt(cs, FindCartOfUser(cs, uid))
  {
    var i := FindCartOfUser(cs, uid);
    if i == |cs| then cs else RemoveAt(cs, i)
  }

  /**
   * The commit (checkoutController.js:205-257): create the order, then the
   * inventory loop, then discount usage, loyalty balance and the user's cart.
   * A failing product save stops the sequence where it is.
   */
  function Commit(st: Store, plan: Plan, req: CheckoutRequest, env: Env): (out: (CheckoutOutcome, Store))
    requires plan.userIndex < |st.users|
    ensures out.0.Created? || out.0.CommitFailed?
    ensures out.1.orders == st.orders + [BuildOrder(st, plan, req, env)]
    ensures out.0.order == BuildOrder(st, plan, req, env)
    ensures out.1.products == ApplyInventory(st.products, req.cartItems).0
    ensures out.0.Created? <==> ApplyInventory(st.products, req.cartItems).1 == |req.cartItems|
    ensures out.0.CommitFailed? ==> (out.0.failedLine < |req.cartItems|
      && out.1 == st.(products := out.1.products, orders := out.1.orders))
    ensures out.0.Created? ==> out.1.carts == DeleteCartOf(st.carts, plan.userId)
    ensures out.0.Created? ==> (|out.1.users| == |st.users|
      && out.1.users[plan.userIndex].loyaltyPoints
        == st.users[plan.userIndex].loyaltyPoints - plan.pricing.pointsDiscount + plan.pricing.pointsEarned
      && out.1.users[plan.userIndex].(loyaltyPoints := st.users[plan.userIndex].loyaltyPoints) == st.users[plan.userIndex]
      && forall i :: 0 <= i < |st.users| && i != plan.userIndex ==> out.1.users[i] == st.users[i])
    ensures out.0.Created? ==> (|out.1.discounts| == |st.discounts|
      && (forall i :: 0 <= i < |st.discounts| && i != plan.discountIndex ==> out.1.discounts[i] == st.discounts[i])
      && (plan.discountIndex < |st.discounts| ==>
            out.1.discounts[plan.discountIndex] == Redeem(st.discounts[plan.discountIndex], plan.userId, env.orderId, env.now)))
  {
    var order := BuildOrder(st, plan, req, env);
    var inv := ApplyInventory(st.products, req.cartItems);
    if inv.1 < |req.cartItems| then
      (CommitFailed(order, inv.1), st.(products := inv.0, orders := st.orders + [order]))
    else
      var ds := if plan.discountIndex < |st.discounts| then
        st.discounts[plan.discountIndex := Redeem(st.discounts[plan.discountIndex], plan.userId, env.orderId, env.now)]
      else st.discounts;
      var u := st.users[plan.userIndex];
      var us := st.users[plan.userIndex := u.(loyaltyPoints := u.loyaltyPoints - order.pointsUsed + order.pointsEarned)];
      (Created(order, env.authUser.None?), Store(inv.0, us, ds, DeleteCartOf(st.carts, plan.userId), st.orders + [order]))
  }

  /** The store after identity resolution: the only write that can precede a rejection. */
  function AfterIdentity(st: Store, users: seq<User>): Store {
    st.(users := users)
  }

  /** The store gained exactly the guest account identity resolution creates. */
  predicate GuestAdded(st: Store, req: CheckoutRequest, env: Env, st': Store) {
    && env.authUser.None?
    && (req.guestInfo.Some? || req.shippingAddress.Some?)
    && st'.users == st.users + [NewGuest(GuestData(req, env), req, env)]
    && st'.users[|st.users|].isGuestAccount
  }

  /** The whole checkout handler. */
  function Checkout(st: Store, req: CheckoutRequest, env: Env): (out: (CheckoutOutcome, Store))
    requires AuthUserStored(st, env) && EnvFresh(st, env)
    ensures out.0.Rejected? ==> (out.1.products == st.products && out.1.discounts == st.discounts
      && out.1.carts == st.carts && out.1.orders == st.orders)
    ensures out.0.Rejected? && env.authUser.Some? ==> out.1 == st
    ensures !out.0.Rejected? ==> |out.1.orders| == |st.orders| + 1 && out.1.orders[|st.orders|] == out.0.order
    ensures !out.0.Rejected? ==> (out.0.order.isPaid <==> req.paymentMethod != CashOnDelivery)
    ensures out.0.Created? ==> Balanced(OrderBreakdown(out.0.order)) && out.0.tokenIssued == env.authUser.None?
    ensures out.0.Rejected? ==> out.1.users == st.users || GuestAdded(st, req, env, out.1)
    ensures !out.0.Rejected? <==>
      var id := ResolveIdentity(st.users, req, env);
      id.Ok? && Acceptable(AfterIdentity(st, id.value.1), id.value.0, req)
  {
    match ResolveIdentity(st.users, req, env)
    case Err(e) => (Rejected(e), st)
    case Ok(id) =>
      var st1 := AfterIdentity(st, id.1);
      match Validate(st1, id.0, req)
      case Err(e) => (Rejected(e), st1)
      case Ok(plan) => Commit(st1, plan, req, env)
  }

  // ---------------------------------------------------------------------
  // Properties of the whole handler
  // ---------------------------------------------------------------------

  /**
   * A created order is priced from the live catalogue: its subtotal is the
   * sum of the current variant prices times the quantities, its discount is
   * the one the uppercased code grants, and the remaining figures follow
   * the pricing formula.
   */
  lemma CheckoutPricing(st: Store, req: CheckoutRequest, env: Env)
    requires AuthUserStored(st, env) && EnvFresh(st, env)
    requires Checkout(st, req, env).0.Created?
    ensures var o := Checkout(st, req, env).0.order;
      && InStock(st.products, req.cartItems)
      && o.subtotal == CartSubtotal(st.products, req.cartItems)
      && o.discountAmount == (if req.discountCode == "" then 0
                              else CalculateDiscount(st.discounts[FindByCode(st.discounts, ToUpper(req.discountCode))], o.subtotal))
      && OrderBreakdown(o) == Price(o.subtotal, o.discountAmount, o.pointsUsed)
  {
    var id := ResolveIdentity(st.users, req, env).value;
    var st1 := AfterIdentity(st, id.1);
    var plan := Validate(st1, id.0, req).value;
    SnapshotSubtotal(st.products, req.cartItems, plan.lines);
  }

  /** A created order took exactly the requested quantities out of stock and added them to the sold counts. */
  lemma CheckoutStockAccounting(st: Store, req: CheckoutRequest, env: Env, pid: nat, vid: nat)
    requires AuthUserStored(st, env) && EnvFresh(st, env)
    requires Checkout(st, req, env).0.Created?
    requires Resolvable(st.products, pid, vid)
    ensures var ps := Checkout(st, req, env).1.products;
      && StockOf(ps, pid, vid) == StockOf(st.products, pid, vid) - Requested(req.cartItems, pid, vid)
      && SoldOf(ps, pid) == SoldOf(st.products, pid) + RequestedOfProduct(req.cartItems, pid)
  {
    ApplyInventoryAccounting(st.products, req.cartItems, pid, vid);
  }

  /**
   * When no variant is named on two lines and the catalogue is valid, the
   * stock checked during validation covers the commit: it never fails part
   * way through.
   */
  lemma CheckoutDistinctLinesCommit(st: Store, req: CheckoutRequest, env: Env)
    requires AuthUserStored(st, env) && EnvFresh(st, env)
    requires AllValid(st.products) && DistinctLines(req.cartItems)
    ensures !Checkout(st, req, env).0.CommitFailed?
  {
    match ResolveIdentity(st.users, req, env)
    case Err(_) =>
    case Ok(id) =>
      var st1 := AfterIdentity(st, id.1);
      match Validate(st1, id.0, req)
      case Err(_) =>
      case Ok(plan) =>
        DistinctLinesCommit(st.products, req.cartItems);
  }

  /** A product with two variants, the first holding three units. */
  function TwoVariantProduct(): Product {
    Product(1, "Tee", "tee", [Variant(10, "T-S", "S", 100, 3), Variant(11, "T-M", "M", 100, 0)], 100, 0, true)
  }

  /** An authenticated customer with one address and no points. */
  function Shopper(): User {
    User(7, "a@b.c", "Ann", "", Customer, [Address(20, "Home", "Ann", "1", "Main St", "Town", "Prov", "VN", true)], 0, false, false, 0)
  }

  /**
   * Two lines asking for two units each of a variant holding three both pass
   * the per-line stock check, but the second save would leave -1 units: the
   * order is stored, the first decrement is kept, and the handler fails.
   */
  lemma DuplicateLinesCommitFails()
    ensures var st := Store([TwoVariantProduct()], [Shopper()], [], [], []);
      var req := CheckoutRequest([CartItem(1, 10, 2), CartItem(1, 10, 2)], Some(20), None, "cod", "", 0, None);
      var env := Env(Some(7), 0, "0", "", 8, 21, 30, "ORD-1", "pending");
      var out := Checkout(st, req, env);
      && out.0.CommitFailed? && out.0.failedLine == 1
      && |out.1.orders| == 1
      && StockOf(out.1.products, 1, 10) == 1
  {
    var st := Store([TwoVariantProduct()], [Shopper()], [], [], []);
    var req := CheckoutRequest([CartItem(1, 10, 2), CartItem(1, 10, 2)], Some(20), None, "cod", "", 0, None);
    var env := Env(Some(7), 0, "0", "", 8, 21, 30, "ORD-1", "pending");
    var ps := st.products;
    assert InStock(ps, req.cartItems);
    var qs := DecrementStock(ps, req.cartItems[0]).value;
    assert StockOf(qs, 1, 10) == 1;
    assert DecrementStock(qs, req.cartItems[1]).None?;
    assert ApplyInventory(ps, req.cartItems) == (qs, 1);
  }

  /**
   * A checkout without a login, guest details or saved address, giving only
   * a shipping address whose temporary email is unused, creates one guest
   * account owning that address as its default; a created order belongs to
   * it and comes with a login token.
   */
  lemma GuestCheckoutCreatesAccount(st: Store, req: CheckoutRequest, env: Env)
    requires AuthUserStored(st, env) && EnvFresh(st, env)
    requires env.authUser.None? && req.guestInfo.None? && req.shippingAddress.Some?
    requires Digits(env.clockStamp)
    requires FindUserByEmail(st.users, TemporaryEmail(env.clockStamp)) == |st.users|
    requires AddressValid(req.shippingAddress.value) && req.shippingAddress.value.fullName != ""
    ensures var out := Checkout(st, req, env);
      && |out.1.users| == |st.users| + 1
      && out.1.users[..|st.users|] == st.users
      && var g := out.1.users[|st.users|];
      && g.id == env.newUserId && g.email == TemporaryEmail(env.clockStamp) && g.isGuestAccount
      && g.addresses == [req.shippingAddress.value.(id := env.newAddressId, isDefault := true)]
      && (out.0.Created? ==> out.0.order.user == env.newUserId && out.0.tokenIssued)
  {
    var out := Checkout(st, req, env);
    TemporaryEmailNormal(env.clockStamp);
    var u := NewGuest(GuestData(req, env), req, env);
    assert Creatable(u);
    assert ResolveIdentity(st.users, req, env) == Ok((env.newUserId, st.users + [u]));
  }

  /**
   * A logged-in user whose request meets every validation condition is not
   * refused: the order is stored and belongs to that user.
   */
  lemma LoggedInCheckoutAccepted(st: Store, req: CheckoutRequest, env: Env)
    requires AuthUserStored(st, env) && EnvFresh(st, env)
    requires env.authUser.Some? && Acceptable(st, env.authUser.value, req)
    ensures var out := Checkout(st, req, env);
      && !out.0.Rejected?
      && out.0.order.user == env.authUser.value
      && |out.1.orders| == |st.orders| + 1
  {
  }

  /**
   * A guest checkout whose email, as the setters normalize it, already
   * belongs to an account creates no account: the order, if one is stored,
   * belongs to that account, and the user list keeps its length.
   */
  lemma GuestCheckoutReusesAccount(st: Store, req: CheckoutRequest, env: Env)
    requires AuthUserStored(st, env) && EnvFresh(st, env)
    requires env.authUser.None? && (req.guestInfo.Some? || req.shippingAddress.Some?)
    requires FindUserByEmail(st.users, NormalizeEmail(GuestData(req, env).email)) < |st.users|
    ensures var out := Checkout(st, req, env);
      var i := FindUserByEmail(st.users, NormalizeEmail(GuestData(req, env).email));
      && |out.1.users| == |st.users|
      && (out.0.Rejected? ==> out.1 == st)
      && (!out.0.Rejected? ==> out.0.order.user == st.users[i].id)
  {
    var i := FindUserByEmail(st.users, NormalizeEmail(GuestData(req, env).email));
    assert ResolveIdentity(st.users, req, env) == Ok((st.users[i].id, st.users));
  }

  /**
   * Every stored order carries the method the customer named (cash on
   * delivery when none), is marked paid exactly when the request did not
   * name cash on delivery, and has a payment time exactly when marked paid.
   */
  lemma CheckoutPaymentFlag(st: Store, req: CheckoutRequest, env: Env)
    requires AuthUserStored(st, env) && EnvFresh(st, env)
    requires !Checkout(st, req, env).0.Rejected?
    ensures var o := Checkout(st, req, env).0.order;
      && o.paymentMethod == StoredPaymentMethod(req.paymentMethod)
      && (o.isPaid <==> req.paymentMethod != CashOnDelivery)
      && (o.paidAt.Some? <==> o.isPaid)
  {
  }

  // ---------------------------------------------------------------------
  // Preview
  // ---------------------------------------------------------------------

  datatype PreviewOutcome =
    | PreviewEmptyCart
    | PreviewOk(pricing: Breakdown, discountValid: bool, availablePoints: int)

  /** The lines the preview can price: those naming an existing product and variant. */
  function Resolved(ps: seq<Product>, items: seq<CartItem>): (r: seq<CartItem>)
    ensures |r| <= |items|
    ensures forall i :: 0 <= i < |r| ==> Resolvable(ps, r[i].productId, r[i].variantId)
  {
    if |items| == 0 then []
    else if Resolvable(ps, items[0].productId, items[0].variantId) then [items[0]] + Resolved(ps, items[1..])
    else Resolved(ps, items[1..])
  }

  /** The preview's loop: lines whose product or variant is missing add nothing. */
  function PreviewSubtotal(ps: seq<Product>, items: seq<CartItem>): int {
    if |items| == 0 then 0
    else
      var here := if Resolvable(ps, items[0].productId, items[0].variantId)
        then VariantOf(ps, items[0]).price * items[0].quantity else 0;
      here + PreviewSubtotal(ps, items[1..])
  }

  /** The preview subtotal is the checkout subtotal of the resolvable lines. */
  lemma {:induction false} PreviewSubtotalResolved(ps: seq<Product>, items: seq<CartItem>)
    ensures PreviewSubtotal(ps, items) == CartSubtotal(ps, Resolved(ps, items))
  {
    if |items| > 0 {
      PreviewSubtotalResolved(ps, items[1..]);
      if Resolvable(ps, items[0].productId, items[0].variantId) {
        assert ([items[0]] + Resolved(ps, items[1..]))[1..] == Resolved(ps, items[1..]);
      }
    }
  }

  /** When every line resolves, nothing is skipped. */
  lemma {:induction false} ResolvedAll(ps: seq<Product>, items: seq<CartItem>)
    requires forall i :: 0 <= i < |items| ==> Resolvable(ps, items[i].productId, items[i].variantId)
    ensures Resolved(ps, items) == items
  {
    if |items| > 0 {
      ResolvedAll(ps, items[1..]);
      assert [items[0]] + items[1..] == items;
    }
  }

  /**
   * The preview handler (checkoutController.js:303-358): no stock check,
   * missing lines skipped, an unusable code gives no discount instead of an
   * error, and points are capped at the balance of the logged-in user.
   */
  function Preview(st: Store, items: seq<CartItem>, code: string, pointsToUse: int, authUser: Option<nat>): (r: PreviewOutcome)
    requires authUser.Some? ==> FindUser(st.users, authUser.value) < |st.users|
    ensures r.PreviewEmptyCart? <==> |items| == 0
    ensures r.PreviewOk? ==> r.pricing.subtotal == PreviewSubtotal(st.products, items)
    ensures r.PreviewOk? ==> r.pricing == Price(r.pricing.subtotal, r.pricing.discountAmount, r.pricing.pointsDiscount)
    ensures r.PreviewOk? ==>
      var i := FindByCode(st.discounts, ToUpper(code));
      (r.discountValid <==> code != "" && i < |st.discounts| && IsValid(st.discounts[i]))
      && r.pricing.discountAmount == (if r.discountValid then CalculateDiscount(st.discounts[i], r.pricing.subtotal) else 0)
    ensures r.PreviewOk? && authUser.None? ==> r.availablePoints == 0 && r.pricing.pointsDiscount == 0
    ensures r.PreviewOk? && authUser.Some? ==>
      r.availablePoints == st.users[FindUser(st.users, authUser.value)].loyaltyPoints
      && (pointsToUse == 0 ==> r.pricing.pointsDiscount == 0)
      && (pointsToUse != 0 ==>
            r.pricing.pointsDiscount <= pointsToUse && r.pricing.pointsDiscount <= r.availablePoints
            && (r.pricing.pointsDiscount == pointsToUse || r.pricing.pointsDiscount == r.availablePoints))
  {
    if |items| == 0 then PreviewEmptyCart
    else
      var sub := PreviewSubtotal(st.products, items);
      var i := FindByCode(st.discounts, ToUpper(code));
      var valid := code != "" && i < |st.discounts| && IsValid(st.discounts[i]);
      var disc := if valid then CalculateDiscount(st.discounts[i], sub) else 0;
      var avail := if authUser.Some? then st.users[FindUser(st.users, authUser.value)].loyaltyPoints else 0;
      var pts := if authUser.Some? && pointsToUse != 0 then (if pointsToUse <= avail then pointsToUse else avail) else 0;
      PreviewOk(Price(sub, disc, pts), valid, avail)
  }

  /**
   * For a checkout that creates an order, the preview of the same cart,
   * code and points shows exactly the order's figures — as long as the
   * points were asked for by a logged-in user (the preview ignores points
   * without one, the checkout charges them to the guest account).
   */
  lemma PreviewAgreesWithCheckout(st: Store, req: CheckoutRequest, env: Env)
    requires AuthUserStored(st, env) && EnvFresh(st, env)
    requires env.authUser.Some? || req.pointsToUse == 0
    requires Checkout(st, req, env).0.Created?
    ensures var o := Checkout(st, req, env).0.order;
      var pv := Preview(st, req.cartItems, req.discountCode, req.pointsToUse, env.authUser);
      && pv.PreviewOk?
      && pv.pricing == OrderBreakdown(o)
      && pv.discountValid == (req.discountCode != "")
  {
    var id := ResolveIdentity(st.users, req, env).value;
    var st1 := AfterIdentity(st, id.1);
    var plan := Validate(st1, id.0, req).value;
    SnapshotSubtotal(st.products, req.cartItems, plan.lines);
    ResolvedAll(st.products, req.cartItems);
    PreviewSubtotalResolved(st.products, req.cartItems);
  }
}
