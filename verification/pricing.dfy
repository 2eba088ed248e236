/**
 * The money arithmetic shared by checkout and its preview
 * (src/controllers/checkoutController.js). The handlers multiply by the
 * floating-point constants 0.10; the model reads those products as exact
 * rationals, so `Math.round(b * 0.10)` is the integer nearest to b/10 with
 * halves rounded up and `Math.floor(t * 0.10)` is floor(t/10).
 */
module Pricing {

  /** Orders whose subtotal is strictly above this ship for free. */
  const FreeShippingAbove: int := 500000
  /** The flat shipping fee charged otherwise. */
  const FlatShippingFee: int := 30000

  /** `Math.round(base * 0.10)`: the nearest integer to base/10, halves going up. The base may be negative. */
  function Tax(base: int): (t: int)
    ensures 10 * t - 5 <= base < 10 * t + 5
  {
    (base + 5) / 10
  }

  /** `subtotal > 500000 ? 0 : 30000`. */
  function ShippingFee(subtotal: int): (f: int)
    ensures f == 0 <==> subtotal > FreeShippingAbove
    ensures f == 0 || f == FlatShippingFee
  {
    if subtotal > FreeShippingAbove then 0 else FlatShippingFee
  }

  /** `Math.floor(total * 0.10)`: one loyalty point per ten currency units, rounded down. */
  function PointsEarned(total: int): (e: int)
    ensures 10 * e <= total < 10 * e + 10
  {
    total / 10
  }

  /** The monetary fields an order (or a preview) carries. */
  datatype Breakdown = Breakdown(
    subtotal: int,
    discountAmount: int,
    pointsDiscount: int,
    taxAmount: int,
    shippingFee: int,
    totalAmount: int,
    pointsEarned: int)

  /** Money balances: the total is exactly what the other fields add up to. */
  predicate Balanced(b: Breakdown) {
    b.totalAmount == b.subtotal - b.discountAmount - b.pointsDiscount + b.taxAmount + b.shippingFee
  }

  /**
   * The pricing formula both handlers run (checkoutController.js:196-203 and 354-358).
   * The taxable base is not clamped at zero: discounts larger than the
   * subtotal give a negative tax.
   */
  function Price(subtotal: int, discountAmount: int, pointsDiscount: int): (b: Breakdown)
    ensures b.subtotal == subtotal && b.discountAmount == discountAmount && b.pointsDiscount == pointsDiscount
    ensures Balanced(b)
    ensures 10 * b.taxAmount - 5 <= subtotal - discountAmount - pointsDiscount < 10 * b.taxAmount + 5
    ensures b.shippingFee == 0 <==> subtotal > FreeShippingAbove
    ensures b.shippingFee == 0 || b.shippingFee == FlatShippingFee
    ensures 10 * b.pointsEarned <= b.totalAmount < 10 * b.pointsEarned + 10
  {
    var tax := Tax(subtotal - discountAmount - pointsDiscount);
    var shipping := ShippingFee(subtotal);
    var total := subtotal - discountAmount - pointsDiscount + tax + shipping;
    Breakdown(subtotal, discountAmount, pointsDiscount, tax, shipping, total, PointsEarned(total))
  }

  /** Every base ending in a half (10k + 5 tenths) rounds up: `Math.round` goes towards +infinity, also for negative bases. */
  lemma TaxRoundsHalfUp(k: int)
    ensures Tax(10 * k + 5) == k + 1
    ensures Tax(10 * k - 5) == k
  {
  }

  /**
   * The taxable base is not clamped at zero: reductions above the subtotal
   * give a tax of at most zero, and strictly negative once they exceed it by
   * more than half a tenth's rounding.
   */
  lemma TaxBaseNotClamped(s: int, d: int, p: int)
    ensures s - d - p < 0 ==> Price(s, d, p).taxAmount <= 0
    ensures s - d - p <= -6 ==> Price(s, d, p).taxAmount < 0
  {
  }

  /**
   * When the reductions do not exceed the subtotal, the order costs at least
   * its reduced subtotal and earns no negative points.
   */
  lemma TotalCoversReducedSubtotal(s: int, d: int, p: int)
    requires 0 <= d + p <= s
    ensures Price(s, d, p).totalAmount >= s - d - p >= 0
    ensures Price(s, d, p).pointsEarned >= 0
  {
  }
}
