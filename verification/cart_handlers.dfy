/**
 * The cart handlers (src/controllers/cartController.js) over the store:
 * set one line, clear, and merge a guest cart into a user cart.
 */
module CartHandlers {
  import opened Wrappers
  import opened Seqs
  import opened Products
  import opened Inventory
  import opened Carts
  import opened Stores

  /** Who asks: the logged-in user, else the `x-session-id` header (an empty header counts as absent). */
  datatype Requester = Requester(userId: Option<nat>, sessionId: Option<string>)

  datatype CartError =
    | ProductMissing
    | VariantMissing
    | NotEnoughStock
    | SessionRequired
    | LineBelowOne
  {
    /** The HTTP status the handler answers with; a failed save surfaces as 500. */
    function Status(): int {
      match this
      case ProductMissing => 404
      case VariantMissing => 404
      case LineBelowOne => 500
      case _ => 400
    }
  }

  /** The requester's cart: by user when logged in, else by session; `|cs|` when there is none. */
  function CartIndexOf(cs: seq<Cart>, who: Requester): (r: nat)
    ensures r <= |cs|
    ensures who.userId.Some? ==> r == FindCartOfUser(cs, who.userId.value)
    ensures who.userId.None? && who.sessionId.Some? ==> r == FindCartOfSession(cs, who.sessionId.value)
    ensures who.userId.None? && who.sessionId.None? ==> r == |cs|
  {
    if who.userId.Some? then FindCartOfUser(cs, who.userId.value)
    else if who.sessionId.Some? then FindCartOfSession(cs, who.sessionId.value)
    else |cs|
  }

  /** A saved cart written back: in place when it was stored, appended when it is new. */
  function PutCart(cs: seq<Cart>, i: nat, c: Cart): (r: seq<Cart>)
    requires i <= |cs|
    ensures i < |cs| ==> r == cs[i := c]
    ensures i == |cs| ==> r == cs + [c]
  {
    if i < |cs| then cs[i := c] else cs + [c]
  }

  /** The lines of the requester's cart before an edit; none when the cart does not exist yet. */
  function CurrentLines(cs: seq<Cart>, who: Requester): seq<CartLine> {
    var i := CartIndexOf(cs, who);
    if i < |cs| then cs[i].items else []
  }

  /**
   * `updateCart` (cartController.js:37-112). Product, variant and stock are
   * checked before the cart is looked up; a requester with neither user nor
   * session is rejected; a missing cart is created (and saved even when the
   * edit leaves it empty); the total is recomputed before the save.
   */
  function UpdateCart(st: Store, who: Requester, productId: nat, variantId: nat, quantity: int, newCartId: nat): (out: (Result<Cart, CartError>, Store))
    ensures out.0.Err? ==> out.1 == st
    ensures FindProduct(st.products, productId) == |st.products| ==> out.0 == Err(ProductMissing)
    ensures FindProduct(st.products, productId) < |st.products| && !Resolvable(st.products, productId, variantId) ==>
      out.0 == Err(VariantMissing)
    ensures out.0.Ok? <==>
      && Resolvable(st.products, productId, variantId) && StockOf(st.products, productId, variantId) >= quantity
      && (who.userId.Some? || who.sessionId.Some?)
      && !(HasKey(CurrentLines(st.carts, who), LineKey(productId, variantId)) && quantity < 0)
    ensures Resolvable(st.products, productId, variantId) && StockOf(st.products, productId, variantId) < quantity ==>
      out.0 == Err(NotEnoughStock)
    ensures out.0.Err? && out.0.error == SessionRequired <==>
      Resolvable(st.products, productId, variantId) && StockOf(st.products, productId, variantId) >= quantity
      && who.userId.None? && who.sessionId.None?
    ensures out.0.Ok? ==> Resolvable(st.products, productId, variantId) && StockOf(st.products, productId, variantId) >= quantity
    ensures out.0.Ok? ==> out.1 == st.(carts := out.1.carts) && out.0.value.totalAmount == Total(out.0.value.items)
    ensures out.0.Ok? ==> var i := CartIndexOf(st.carts, who);
      && (i < |st.carts| ==> (out.1.carts == st.carts[i := out.0.value]
            && out.0.value.(items := st.carts[i].items, totalAmount := st.carts[i].totalAmount) == st.carts[i]))
      && (i == |st.carts| ==> (out.1.carts == st.carts + [out.0.value]
            && out.0.value.id == newCartId
            && out.0.value.user == who.userId
            && out.0.value.sessionId == (if who.userId.Some? then None else who.sessionId)))
  {
    var pi := FindProduct(st.products, productId);
    if pi == |st.products| then (Err(ProductMissing), st)
    else
      var p := st.products[pi];
      var vi := FindVariant(p.variants, variantId);
      if vi == |p.variants| then (Err(VariantMissing), st)
      else
        var v := p.variants[vi];
        if v.inventory < quantity then (Err(NotEnoughStock), st)
        else if who.userId.None? && who.sessionId.None? then (Err(SessionRequired), st)
        else
          var ci := CartIndexOf(st.carts, who);
          var cart := if ci < |st.carts| then st.carts[ci]
            else if who.userId.Some? then Cart(newCartId, who.userId, None, [], 0)
            else Cart(newCartId, None, who.sessionId, [], 0);
          match SetLine(cart.items, LineKey(productId, variantId), quantity, v.price)
          case QuantityBelowOne => (Err(LineBelowOne), st)
          case Saved(items) =>
            var saved := CalculateTotal(cart.(items := items)).0;
            (Ok(saved), st.(carts := PutCart(st.carts, ci, saved)))
  }

  /**
   * The line-level promise of `updateCart`: starting from a cart whose keys
   * are unique, a saved update leaves them unique, puts exactly one line with
   * the requested quantity and the variant's current price under the key when
   * the quantity is positive and none otherwise, and leaves every other key's
   * lines as they were.
   */
  lemma UpdateCartLines(st: Store, who: Requester, productId: nat, variantId: nat, quantity: int, newCartId: nat)
    requires CartIndexOf(st.carts, who) < |st.carts| ==> KeysUnique(st.carts[CartIndexOf(st.carts, who)].items)
    requires UpdateCart(st, who, productId, variantId, quantity, newCartId).0.Ok?
    ensures var c := UpdateCart(st, who, productId, variantId, quantity, newCartId).0.value;
      var before := CurrentLines(st.carts, who);
      var k := LineKey(productId, variantId);
      && KeysUnique(c.items)
      && LinesWith(c.items, k) == (if quantity > 0 then [CartLine(productId, variantId, quantity, StockVariant(st.products, productId, variantId).price)] else [])
      && (forall k' :: k' != k ==> LinesWith(c.items, k') == LinesWith(before, k'))
  {
    var before := CurrentLines(st.carts, who);
    SetLineSpec(before, LineKey(productId, variantId), quantity, StockVariant(st.products, productId, variantId).price);
  }

  /** The variant a resolvable (product, variant) pair names. */
  function StockVariant(ps: seq<Product>, pid: nat, vid: nat): (v: Variant)
    requires Resolvable(ps, pid, vid)
    ensures v.id == vid && v.inventory == StockOf(ps, pid, vid)
  {
    var p := ps[FindProduct(ps, pid)];
    p.variants[FindVariant(p.variants, vid)]
  }

  /** `clearCart` (cartController.js:137-153): the requester's cart, if any, keeps its owner and loses its lines. */
  function ClearCart(st: Store, who: Requester): (st': Store)
    ensures st' == st.(carts := st'.carts) && |st'.carts| == |st.carts|
    ensures var i := CartIndexOf(st.carts, who);
      && (i < |st.carts| ==> (st'.carts[i].items == [] && st'.carts[i].totalAmount == 0
            && st'.carts[i].(items := st.carts[i].items, totalAmount := st.carts[i].totalAmount) == st.carts[i]))
      && forall j :: 0 <= j < |st.carts| && j != i ==> st'.carts[j] == st.carts[j]
  {
    var i := CartIndexOf(st.carts, who);
    if i < |st.carts| then st.(carts := st.carts[i := st.carts[i].(items := [], totalAmount := 0)])
    else st
  }

  /** Clearing twice is clearing once. */
  lemma ClearCartIdempotent(st: Store, who: Requester)
    ensures ClearCart(ClearCart(st, who), who) == ClearCart(st, who)
  {
    var i := CartIndexOf(st.carts, who);
    var st1 := ClearCart(st, who);
    if i < |st.carts| {
      if who.userId.Some? {
        assert FindCartOfUser(st1.carts, who.userId.value) == i by {
          assert forall j :: 0 <= j < i ==> st1.carts[j] == st.carts[j];
        }
      } else if who.sessionId.Some? {
        assert FindCartOfSession(st1.carts, who.sessionId.value) == i by {
          assert forall j :: 0 <= j < i ==> st1.carts[j] == st.carts[j];
        }
      }
    }
  }

  datatype MergeOutcome = NothingToMerge | Transferred(cart: Cart) | Merged(cart: Cart)

  /**
   * `mergeCart` (cartController.js:168-207), for the logged-in user `uid`.
   * An absent or empty guest cart changes nothing. Without a user cart the
   * guest cart is handed over as it is. Otherwise every guest line is folded
   * into the user's lines, the total recomputed, and the guest cart deleted.
   */
  function MergeCart(st: Store, uid: nat, sessionId: string): (out: (MergeOutcome, Store))
    ensures out.1 == st.(carts := out.1.carts)
    ensures var g := FindCartOfSession(st.carts, sessionId);
      g == |st.carts| || |st.carts[g].items| == 0 <==> out.0.NothingToMerge?
    ensures out.0.NothingToMerge? ==> out.1 == st
    ensures out.0.Transferred? ==> var g := FindCartOfSession(st.carts, sessionId);
      && FindCartOfUser(st.carts, uid) == |st.carts|
      && out.0.cart == st.carts[g].(user := Some(uid), sessionId := None)
      && out.1.carts == st.carts[g := out.0.cart]
    ensures out.0.Merged? ==> var g := FindCartOfSession(st.carts, sessionId);
      var u := FindCartOfUser(st.carts, uid);
      && u < |st.carts|
      && out.0.cart == st.carts[u].(items := MergeLines(st.carts[u].items, st.carts[g].items),
                                     totalAmount := Total(MergeLines(st.carts[u].items, st.carts[g].items)))
      && out.1.carts == RemoveAt(st.carts[u := out.0.cart], g)
  {
    var g := FindCartOfSession(st.carts, sessionId);
    if g == |st.carts| || |st.carts[g].items| == 0 then (NothingToMerge, st)
    else
      var guest := st.carts[g];
      var u := FindCartOfUser(st.carts, uid);
      if u == |st.carts| then
        var moved := guest.(user := Some(uid), sessionId := None);
        (Transferred(moved), st.(carts := st.carts[g := moved]))
      else
        var merged := CalculateTotal(st.carts[u].(items := MergeLines(st.carts[u].items, guest.items))).0;
        (Merged(merged), st.(carts := RemoveAt(st.carts[u := merged], g)))
  }

  /**
   * Merging onto an existing user cart whose keys are unique: the user's
   * lines keep their place and price, keys stay unique, a key is present iff
   * it was in either cart, and each key's quantity is the sum of the two.
   */
  lemma MergeCartLines(st: Store, uid: nat, sessionId: string)
    requires MergeCart(st, uid, sessionId).0.Merged?
    requires KeysUnique(st.carts[FindCartOfUser(st.carts, uid)].items)
    ensures var c := MergeCart(st, uid, sessionId).0.cart;
      var user := st.carts[FindCartOfUser(st.carts, uid)].items;
      var guest := st.carts[FindCartOfSession(st.carts, sessionId)].items;
      && KeysUnique(c.items)
      && |c.items| >= |user|
      && (forall i :: 0 <= i < |user| ==> c.items[i].Key() == user[i].Key() && c.items[i].price == user[i].price)
      && (forall k :: HasKey(c.items, k) <==> HasKey(user, k) || HasKey(guest, k))
      && (forall k :: QtyOf(c.items, k) == QtyOf(user, k) + QtyOf(guest, k))
  {
    var u := FindCartOfUser(st.carts, uid);
    var g := FindCartOfSession(st.carts, sessionId);
    MergeLinesSpec(st.carts[u].items, st.carts[g].items);
  }
}
