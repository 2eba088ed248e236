/** The Discount model (src/models/Discount.js): schema bounds, `isValid` and `calculateDiscount`. */
module Discounts {
  import opened Text

  datatype ValueType = Percent | Fixed

  /** One redemption: who used the code, for which order, and when. */
  datatype Usage = Usage(user: nat, order: nat, usedAt: int)

  datatype Discount = Discount(
    id: nat,
    code: string,
    valueType: ValueType,
    value: int,
    usageLimit: int,
    usedCount: int,
    usageHistory: seq<Usage>,
    isActive: bool,
    createdBy: nat)

  const MaxUsageLimit: int := 10
  const CodeLength: nat := 5

  /** A character of `[A-Z0-9]`. */
  predicate IsCodeChar(c: char) { IsUpper(c) || IsDigit(c) }

  /** `/^[A-Z0-9]{5}$/`. */
  predicate CodeFormatOk(code: string) {
    |code| == CodeLength && forall i :: 0 <= i < |code| ==> IsCodeChar(code[i])
  }

  /** The schema's bounds: code format, `value >= 0`, `1 <= usageLimit <= 10`. */
  predicate SchemaValid(d: Discount) {
    CodeFormatOk(d.code) && d.value >= 0 && 1 <= d.usageLimit <= MaxUsageLimit
  }

  /** The usage invariant a sequence of redemptions keeps. */
  predicate WithinLimit(d: Discount) {
    0 <= d.usedCount <= d.usageLimit && |d.usageHistory| == d.usedCount
  }

  /** `isValid()`: active and not yet used up. */
  function IsValid(d: Discount): (ok: bool)
    ensures ok <==> d.isActive && d.usedCount < d.usageLimit
  {
    d.isActive && d.usedCount < d.usageLimit
  }

  /**
   * `calculateDiscount(subtotal)`. The percent branch is
   * `Math.round(subtotal * value / 100)` read exactly; the fixed branch caps
   * the value at the subtotal.
   */
  function CalculateDiscount(d: Discount, subtotal: int): (r: int)
    ensures !IsValid(d) ==> r == 0
    ensures IsValid(d) && d.valueType == Percent ==>
      100 * r - 50 <= subtotal * d.value < 100 * r + 50
    ensures IsValid(d) && d.valueType == Fixed ==>
      r <= d.value && r <= subtotal && (r == d.value || r == subtotal)
  {
    if !IsValid(d) then 0
    else match d.valueType
      case Percent => (subtotal * d.value + 50) / 100
      case Fixed => if d.value < subtotal then d.value else subtotal
  }

  /** A discount never exceeds the subtotal when its percentage is at most 100. */
  lemma DiscountAtMostSubtotal(d: Discount, subtotal: int)
    requires subtotal >= 0
    requires d.valueType == Percent ==> d.value <= 100
    ensures CalculateDiscount(d, subtotal) <= subtotal
  {
    if IsValid(d) && d.valueType == Percent {
      var r := CalculateDiscount(d, subtotal);
      ScaleAtMostHundred(subtotal, d.value);
      assert 100 * r - 50 <= 100 * subtotal;
    }
  }

  /** Scaling a non-negative amount by at most a hundred percent gives at most the whole amount. */
  lemma ScaleAtMostHundred(a: int, v: int)
    requires a >= 0 && v <= 100
    ensures a * v <= a * 100
  {
    assert a * 100 - a * v == a * (100 - v);
  }

  /** With a non-negative value and subtotal the discount is non-negative. */
  lemma DiscountNonNegative(d: Discount, subtotal: int)
    requires subtotal >= 0 && d.value >= 0
    ensures CalculateDiscount(d, subtotal) >= 0
  {
    var r := CalculateDiscount(d, subtotal);
    if IsValid(d) && d.valueType == Percent {
      assert subtotal * d.value >= 0;
      assert 100 * r + 50 > 0;
    }
  }

  /**
   * One successful redemption inside checkout (checkoutController.js:234-240):
   * the count goes up by one and the usage is appended to the history.
   */
  function Redeem(d: Discount, user: nat, order: nat, now: int): (r: Discount)
    ensures r.usedCount == d.usedCount + 1
    ensures r.usageHistory == d.usageHistory + [Usage(user, order, now)]
    ensures r.(usedCount := d.usedCount, usageHistory := d.usageHistory) == d
  {
    d.(usedCount := d.usedCount + 1, usageHistory := d.usageHistory + [Usage(user, order, now)])
  }

  /** Redeeming only a valid code never pushes the count past the limit. */
  lemma RedeemKeepsWithinLimit(d: Discount, user: nat, order: nat, now: int)
    requires WithinLimit(d) && IsValid(d)
    ensures WithinLimit(Redeem(d, user, order, now))
  {
  }

  /**
   * Successive checkouts offering the code, in order: each redeems it only
   * when `isValid()` holds at its validation step, as usage `us[i]`.
   */
  function OfferAll(d: Discount, us: seq<Usage>): (r: Discount)
    ensures r.(usedCount := d.usedCount, usageHistory := d.usageHistory) == d
    decreases |us|
  {
    if |us| == 0 then d
    else
      var next := if IsValid(d) then Redeem(d, us[0].user, us[0].order, us[0].usedAt) else d;
      OfferAll(next, us[1..])
  }

  /** How many of n offers an offered discount accepts: none when inactive, else up to its remaining uses. */
  function Accepted(d: Discount, n: nat): (k: nat)
    ensures k <= n
    ensures d.isActive && d.usedCount <= d.usageLimit ==> k == (if n < d.usageLimit - d.usedCount then n else d.usageLimit - d.usedCount)
    ensures !d.isActive || d.usedCount >= d.usageLimit ==> k == 0
  {
    if !d.isActive || d.usedCount >= d.usageLimit then 0
    else if n < d.usageLimit - d.usedCount then n
    else d.usageLimit - d.usedCount
  }

  /**
   * Offered to a run of checkouts, a discount is redeemed by the first
   * `Accepted` of them and no more: the count and the history grow by exactly
   * those, the usage invariant is kept, and once the offers reach its
   * remaining uses the discount is no longer valid.
   */
  lemma {:induction false} OfferAllRedeemsUpToLimit(d: Discount, us: seq<Usage>)
    ensures var r := OfferAll(d, us);
      var k := Accepted(d, |us|);
      && r.usedCount == d.usedCount + k
      && r.usageHistory == d.usageHistory + us[..k]
      && (WithinLimit(d) ==> WithinLimit(r))
      && (IsValid(r) <==> IsValid(d) && |us| < d.usageLimit - d.usedCount)
    decreases |us|
  {
    if |us| > 0 {
      var k := Accepted(d, |us|);
      if IsValid(d) {
        var next := Redeem(d, us[0].user, us[0].order, us[0].usedAt);
        OfferAllRedeemsUpToLimit(next, us[1..]);
        var k' := Accepted(next, |us| - 1);
        assert k == k' + 1;
        assert us[1..][..k'] == us[1..k];
        assert [us[0]] + us[1..k] == us[..k];
        assert next.usageHistory + us[1..][..k'] == d.usageHistory + us[..k];
      } else {
        OfferAllRedeemsUpToLimit(d, us[1..]);
        assert us[..k] == us[1..][..0];
      }
    }
  }

  /** A fresh discount as `Discount.create` stores it: unused, active, empty history. */
  function NewDiscount(id: nat, code: string, valueType: ValueType, value: int, usageLimit: int, createdBy: nat): (d: Discount)
    ensures d.usedCount == 0 && d.isActive && d.usageHistory == []
    ensures d.code == code && d.valueType == valueType && d.value == value && d.usageLimit == usageLimit
    ensures usageLimit >= 1 ==> WithinLimit(d) && IsValid(d)
  {
    Discount(id, code, valueType, value, usageLimit, 0, [], true, createdBy)
  }

  /** `isActive = !isActive`. */
  function Toggle(d: Discount): (r: Discount)
    ensures r.isActive != d.isActive
    ensures r.(isActive := d.isActive) == d
  {
    d.(isActive := !d.isActive)
  }

  /** Toggling twice restores the discount. */
  lemma ToggleTwice(d: Discount)
    ensures Toggle(Toggle(d)) == d
  {
  }

  /** Index of the discount stored under `code` (`Discount.findOne({ code })`). */
  function FindByCode(ds: seq<Discount>, code: string): (r: nat)
    ensures r <= |ds|
    ensures r < |ds| ==> ds[r].code == code
    ensures forall j :: 0 <= j < r ==> ds[j].code != code
  {
    if |ds| == 0 then 0
    else if ds[0].code == code then 0
    else 1 + FindByCode(ds[1..], code)
  }

  /** Index of the discount with id `id` (`Discount.findById`). */
  function FindById(ds: seq<Discount>, id: nat): (r: nat)
    ensures r <= |ds|
    ensures r < |ds| ==> ds[r].id == id
    ensures forall j :: 0 <= j < r ==> ds[j].id != id
  {
    if |ds| == 0 then 0
    else if ds[0].id == id then 0
    else 1 + FindById(ds[1..], id)
  }
}
