/**
 * The inventory step of checkout's commit (checkoutController.js:224-231):
 * for each requested line, reload the product, subtract the quantity from
 * the variant's stock, add it to the product's sold count, and save. The
 * save validates the whole product (src/models/Product.js), so a line that
 * would take a variant's stock below zero makes the save fail; the lines
 * before it stay saved, because nothing is rolled back.
 */
module Inventory {
  import opened Wrappers
  import opened Products

  /** One requested line of a checkout: which variant and how many. */
  datatype CartItem = CartItem(productId: nat, variantId: nat, quantity: int)

  /** The product and the variant both exist under these ids. */
  predicate Resolvable(ps: seq<Product>, pid: nat, vid: nat) {
    var i := FindProduct(ps, pid);
    i < |ps| && FindVariant(ps[i].variants, vid) < |ps[i].variants|
  }

  /** The variant's stock, as a first-match lookup reads it (0 when it does not resolve). */
  function StockOf(ps: seq<Product>, pid: nat, vid: nat): int {
    var i := FindProduct(ps, pid);
    if i == |ps| then 0
    else
      var j := FindVariant(ps[i].variants, vid);
      if j == |ps[i].variants| then 0 else ps[i].variants[j].inventory
  }

  /** The product's sold count (0 when there is no such product). */
  function SoldOf(ps: seq<Product>, pid: nat): int {
    var i := FindProduct(ps, pid);
    if i == |ps| then 0 else ps[i].soldCount
  }

  /** The quantity the lines request of one variant, summed over every line naming it. */
  function Requested(items: seq<CartItem>, pid: nat, vid: nat): int {
    if |items| == 0 then 0
    else
      var here := if items[0].productId == pid && items[0].variantId == vid then items[0].quantity else 0;
      here + Requested(items[1..], pid, vid)
  }

  /** The quantity the lines request of one product, over all its variants. */
  function RequestedOfProduct(items: seq<CartItem>, pid: nat): int {
    if |items| == 0 then 0
    else (if items[0].productId == pid then items[0].quantity else 0) + RequestedOfProduct(items[1..], pid)
  }

  /** Two catalogues with the same products and variants at the same places. */
  predicate SameShape(ps: seq<Product>, qs: seq<Product>) {
    && |ps| == |qs|
    && forall i :: 0 <= i < |ps| ==>
      && qs[i].id == ps[i].id
      && |qs[i].variants| == |ps[i].variants|
      && forall j :: 0 <= j < |ps[i].variants| ==> qs[i].variants[j].id == ps[i].variants[j].id
  }

  /** Lookups give the same places in catalogues of the same shape. */
  lemma SameShapeFinds(ps: seq<Product>, qs: seq<Product>, pid: nat, vid: nat)
    requires SameShape(ps, qs)
    ensures FindProduct(qs, pid) == FindProduct(ps, pid)
    ensures FindProduct(ps, pid) < |ps| ==>
      FindVariant(qs[FindProduct(ps, pid)].variants, vid) == FindVariant(ps[FindProduct(ps, pid)].variants, vid)
    ensures Resolvable(qs, pid, vid) <==> Resolvable(ps, pid, vid)
  {
    var i := FindProduct(ps, pid);
    if i < |ps| {
      assert forall j :: 0 <= j < |ps[i].variants| ==> qs[i].variants[j].id == ps[i].variants[j].id;
    }
  }

  /**
   * One iteration of the loop: `None` when the product or variant is gone
   * or the save's validation rejects the updated product.
   */
  function DecrementStock(ps: seq<Product>, item: CartItem): (r: Option<seq<Product>>)
    ensures r.Some? ==> Resolvable(ps, item.productId, item.variantId)
    ensures r.Some? ==> SameShape(ps, r.value)
    ensures r.Some? ==> var i := FindProduct(ps, item.productId);
      && ProductValid(r.value[i])
      && (forall k :: 0 <= k < |ps| && k != i ==> r.value[k] == ps[k])
    ensures Resolvable(ps, item.productId, item.variantId) ==>
      (r.Some? <==> ProductValid(ps[FindProduct(ps, item.productId)].(
        variants := ps[FindProduct(ps, item.productId)].variants[
          FindVariant(ps[FindProduct(ps, item.productId)].variants, item.variantId) :=
            ps[FindProduct(ps, item.productId)].variants[FindVariant(ps[FindProduct(ps, item.productId)].variants, item.variantId)].(
              inventory := StockOf(ps, item.productId, item.variantId) - item.quantity)])))
  {
    var i := FindProduct(ps, item.productId);
    if i == |ps| then None
    else
      var p := ps[i];
      var j := FindVariant(p.variants, item.variantId);
      if j == |p.variants| then None
      else
        var v := p.variants[j];
        var p' := p.(variants := p.variants[j := v.(inventory := v.inventory - item.quantity)],
                     soldCount := p.soldCount + item.quantity);
        if ProductValid(p') then Some(ps[i := p']) else None
  }

  /** What one successful iteration does to the stock of every variant and the sold count of every product. */
  lemma DecrementStockEffect(ps: seq<Product>, item: CartItem, pid: nat, vid: nat)
    requires DecrementStock(ps, item).Some?
    ensures var qs := DecrementStock(ps, item).value;
      && (Resolvable(qs, pid, vid) <==> Resolvable(ps, pid, vid))
      && StockOf(qs, pid, vid) == StockOf(ps, pid, vid)
           - (if pid == item.productId && vid == item.variantId then item.quantity else 0)
      && SoldOf(qs, pid) == SoldOf(ps, pid) + (if pid == item.productId then item.quantity else 0)
  {
    var qs := DecrementStock(ps, item).value;
    SameShapeFinds(ps, qs, pid, vid);
    SameShapeFinds(ps, qs, item.productId, item.variantId);
    var i := FindProduct(ps, item.productId);
    var k := FindProduct(ps, pid);
    if k < |ps| && k == i {
      assert pid == item.productId;
    }
  }

  /**
   * The loop over all lines. The second component is the index of the line
   * whose save failed, or the number of lines when every save succeeded.
   */
  function ApplyInventory(ps: seq<Product>, items: seq<CartItem>): (r: (seq<Product>, nat))
    ensures r.1 <= |items|
    decreases |items|
  {
    if |items| == 0 then (ps, 0)
    else match DecrementStock(ps, items[0])
      case None => (ps, 0)
      case Some(qs) =>
        var rest := ApplyInventory(qs, items[1..]);
        (rest.0, rest.1 + 1)
  }

  /**
   * A committed checkout takes from every variant exactly the quantity its
   * lines requested, and adds to every product's sold count the quantity of
   * all its lines.
   */
  lemma {:induction false} ApplyInventoryAccounting(ps: seq<Product>, items: seq<CartItem>, pid: nat, vid: nat)
    requires ApplyInventory(ps, items).1 == |items|
    requires Resolvable(ps, pid, vid)
    ensures var qs := ApplyInventory(ps, items).0;
      && Resolvable(qs, pid, vid)
      && StockOf(qs, pid, vid) == StockOf(ps, pid, vid) - Requested(items, pid, vid)
      && SoldOf(qs, pid) == SoldOf(ps, pid) + RequestedOfProduct(items, pid)
    decreases |items|
  {
    if |items| > 0 {
      var qs := DecrementStock(ps, items[0]).value;
      DecrementStockEffect(ps, items[0], pid, vid);
      ApplyInventoryAccounting(qs, items[1..], pid, vid);
    }
  }

  /** Distinct lines name distinct variants. */
  predicate DistinctLines(items: seq<CartItem>) {
    forall i, j :: 0 <= i < j < |items| ==>
      !(items[i].productId == items[j].productId && items[i].variantId == items[j].variantId)
  }

  /** Every line resolves and its variant has at least the requested stock: what validation checked. */
  predicate InStock(ps: seq<Product>, items: seq<CartItem>) {
    forall i :: 0 <= i < |items| ==>
      Resolvable(ps, items[i].productId, items[i].variantId)
      && StockOf(ps, items[i].productId, items[i].variantId) >= items[i].quantity
  }

  predicate AllValid(ps: seq<Product>) {
    forall i :: 0 <= i < |ps| ==> ProductValid(ps[i])
  }

  /**
   * When no variant appears on two lines, the stock check done before the
   * commit is enough: every save succeeds and every stock stays non-negative.
   */
  lemma {:induction false} DistinctLinesCommit(ps: seq<Product>, items: seq<CartItem>)
    requires AllValid(ps) && InStock(ps, items) && DistinctLines(items)
    ensures ApplyInventory(ps, items).1 == |items|
    ensures AllValid(ApplyInventory(ps, items).0)
    decreases |items|
  {
    if |items| > 0 {
      var it := items[0];
      var i := FindProduct(ps, it.productId);
      var p := ps[i];
      var j := FindVariant(p.variants, it.variantId);
      var v := p.variants[j];
      var p' := p.(variants := p.variants[j := v.(inventory := v.inventory - it.quantity)],
                   soldCount := p.soldCount + it.quantity);
      assert ProductValid(p') by {
        forall k | 0 <= k < |p'.variants| ensures VariantValid(p'.variants[k]) {
          if k != j { assert p'.variants[k] == p.variants[k]; }
        }
      }
      var qs := DecrementStock(ps, it).value;
      forall k | 1 <= k < |items|
        ensures Resolvable(qs, items[k].productId, items[k].variantId)
        ensures StockOf(qs, items[k].productId, items[k].variantId) >= items[k].quantity
      {
        DecrementStockEffect(ps, it, items[k].productId, items[k].variantId);
      }
      assert InStock(qs, items[1..]) by {
        forall k | 0 <= k < |items[1..]|
          ensures Resolvable(qs, items[1..][k].productId, items[1..][k].variantId)
          ensures StockOf(qs, items[1..][k].productId, items[1..][k].variantId) >= items[1..][k].quantity
        {
          assert items[1..][k] == items[k + 1];
        }
      }
      assert AllValid(qs);
      DistinctLinesCommit(qs, items[1..]);
    }
  }
}
