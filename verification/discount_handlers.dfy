/**
 * The discount handlers (src/controllers/discountController.js): creation
 * with its format and limit checks, the public validate endpoint, and the
 * active-flag toggle.
 */
module DiscountHandlers {
  import opened Wrappers
  import opened Text
  import opened Discounts
  import opened Stores
  import Checkout

  datatype CreateError =
    | BadCodeFormat
    | LimitTooHigh
    | SchemaRejected
    | DuplicateCode
  {
    /** The HTTP status: the handler's own checks and a duplicate key answer 400, a schema failure 500. */
    function Status(): int {
      if this == SchemaRejected then 500 else 400
    }
  }

  /** No two discounts share a code: what the unique index on `code` maintains. */
  predicate CodesUnique(ds: seq<Discount>) {
    forall i, j :: 0 <= i < j < |ds| ==> ds[i].code != ds[j].code
  }

  /**
   * `createDiscount` (discountController.js:4-48). `valueType` is `None`
   * when the body names something outside the schema's enum. The handler
   * checks the code pattern and the upper limit; the schema then checks the
   * enum, `value >= 0` and `usageLimit >= 1`; the unique index rejects a
   * code already stored.
   */
  function CreateDiscount(st: Store, code: string, valueType: Option<ValueType>, value: int, usageLimit: int, creator: nat, newId: nat): (out: (Result<Discount, CreateError>, Store))
    ensures out.0.Err? ==> out.1 == st
    ensures !CodeFormatOk(code) ==> out.0 == Err(BadCodeFormat)
    ensures CodeFormatOk(code) && usageLimit > MaxUsageLimit ==> out.0 == Err(LimitTooHigh)
    ensures CodeFormatOk(code) && usageLimit <= MaxUsageLimit && !(valueType.Some? && value >= 0 && usageLimit >= 1) ==>
      out.0 == Err(SchemaRejected)
    ensures (CodeFormatOk(code) && valueType.Some? && value >= 0 && 1 <= usageLimit <= MaxUsageLimit
             && FindByCode(st.discounts, code) < |st.discounts|) ==> out.0 == Err(DuplicateCode)
    ensures out.0.Ok? <==>
      CodeFormatOk(code) && valueType.Some? && value >= 0 && 1 <= usageLimit <= MaxUsageLimit
      && FindByCode(st.discounts, code) == |st.discounts|
    ensures out.0.Ok? ==> var d := out.0.value;
      && out.1 == st.(discounts := st.discounts + [d])
      && d.code == code && d.valueType == valueType.value && d.value == value && d.usageLimit == usageLimit
      && d.createdBy == creator
      && SchemaValid(d) && IsValid(d) && WithinLimit(d) && d.usageHistory == []
    ensures CodesUnique(st.discounts) ==> CodesUnique(out.1.discounts)
  {
    if !CodeFormatOk(code) then (Err(BadCodeFormat), st)
    else if usageLimit > MaxUsageLimit then (Err(LimitTooHigh), st)
    else
      var upper := ToUpper(code);
      UpperKeepsCode(code);
      if valueType.None? || value < 0 || usageLimit < 1 then (Err(SchemaRejected), st)
      else if FindByCode(st.discounts, upper) < |st.discounts| then (Err(DuplicateCode), st)
      else
        var d := NewDiscount(newId, upper, valueType.value, value, usageLimit, creator);
        (Ok(d), st.(discounts := st.discounts + [d]))
  }

  /** `code.toUpperCase()` leaves a code that already matches the pattern as it is. */
  lemma UpperKeepsCode(code: string)
    requires CodeFormatOk(code)
    ensures ToUpper(code) == code
  {
    assert forall i :: 0 <= i < |code| ==> UpperChar(code[i]) == code[i];
  }

  datatype Validation =
    | NotFound
    | NoLongerValid(usedCount: int, usageLimit: int)
    | Valid(code: string, valueType: ValueType, value: int, remainingUses: int, discountAmount: int)

  /** `validateDiscount` (discountController.js:84-121): lookup by the uppercased code; never an error status. */
  function ValidateDiscount(ds: seq<Discount>, code: string, subtotal: int): (r: Validation)
    ensures var i := FindByCode(ds, ToUpper(code));
      && (r.NotFound? <==> i == |ds|)
      && (r.NoLongerValid? <==> i < |ds| && !IsValid(ds[i]))
      && (r.Valid? ==> (i < |ds| && IsValid(ds[i]) && r.code == ds[i].code
            && r.remainingUses == ds[i].usageLimit - ds[i].usedCount
            && r.discountAmount == CalculateDiscount(ds[i], subtotal)))
    ensures r.Valid? ==> r.remainingUses >= 1
  {
    var i := FindByCode(ds, ToUpper(code));
    if i == |ds| then NotFound
    else
      var d := ds[i];
      if !IsValid(d) then NoLongerValid(d.usedCount, d.usageLimit)
      else Valid(d.code, d.valueType, d.value, d.usageLimit - d.usedCount, CalculateDiscount(d, subtotal))
  }

  /**
   * The validate endpoint accepts a code exactly when checkout would, and
   * quotes the discount checkout would grant on the same subtotal.
   */
  lemma ValidateAgreesWithCheckout(ds: seq<Discount>, code: string, subtotal: int)
    requires code != ""
    ensures var v := ValidateDiscount(ds, code, subtotal);
      var c := Checkout.ApplyDiscount(ds, code, subtotal);
      && (v.Valid? <==> c.Ok?)
      && (v.Valid? ==> v.discountAmount == c.value.1)
  {
  }

  /** `toggleDiscount` (discountController.js:158-175): flips `isActive`; an unknown id answers 404 (`None`). */
  function ToggleDiscount(st: Store, id: nat): (r: Option<Store>)
    ensures r.None? <==> FindById(st.discounts, id) == |st.discounts|
    ensures r.Some? ==> var i := FindById(st.discounts, id);
      && r.value == st.(discounts := r.value.discounts)
      && |r.value.discounts| == |st.discounts|
      && r.value.discounts[i].isActive == !st.discounts[i].isActive
      && r.value.discounts[i].(isActive := st.discounts[i].isActive) == st.discounts[i]
      && forall j :: 0 <= j < |st.discounts| && j != i ==> r.value.discounts[j] == st.discounts[j]
  {
    var i := FindById(st.discounts, id);
    if i == |st.discounts| then None
    else Some(st.(discounts := st.discounts[i := Toggle(st.discounts[i])]))
  }

  /** Toggling the same discount twice restores the store. */
  lemma ToggleDiscountTwice(st: Store, id: nat)
    requires ToggleDiscount(st, id).Some?
    ensures ToggleDiscount(ToggleDiscount(st, id).value, id) == Some(st)
  {
    var i := FindById(st.discounts, id);
    var st1 := ToggleDiscount(st, id).value;
    assert FindById(st1.discounts, id) == i by {
      assert forall j :: 0 <= j <= i ==> st1.discounts[j].id == st.discounts[j].id;
    }
    ToggleTwice(st.discounts[i]);
    assert st1.discounts[i := Toggle(st1.discounts[i])] == st.discounts;
  }
}
