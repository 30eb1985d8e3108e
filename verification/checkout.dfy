/**
 The order summary: the subtotal of the cart, a flat delivery charge, and a
 single case-insensitive coupon worth 5% of the subtotal. Applying any
 other code sets the discount back to zero.
 */
module Checkout {
  import opened Js
  import opened Types
  import opened Pricing
  import opened Catalog

  const DELIVERY_CHARGE: real := 150.0
  const COUPON_CODE: string := "4EVERYOUNG"
  const COUPON_RATE: real := 0.05

  /** The code matches when its upper-case form is the coupon. */
  predicate CouponMatches(code: string) {
    ToUpper(code) == COUPON_CODE
  }

  /** `handleApplyCoupon`: the discount the code earns on this subtotal. */
  function CouponDiscount(code: string, subtotal: Number): (d: Number)
    ensures CouponMatches(code) ==> d == Mul(subtotal, Finite(COUPON_RATE))
    ensures !CouponMatches(code) ==> d == Finite(0.0)
  {
    if CouponMatches(code) then Mul(subtotal, Finite(COUPON_RATE)) else Finite(0.0)
  }

  /** `subtotal + deliveryCharge - discount`. */
  function Total(subtotal: Number, discount: Number): (t: Number)
    ensures t.Finite? <==> subtotal.Finite? && discount.Finite?
    ensures t.Finite? ==> t.v == subtotal.v + DELIVERY_CHARGE - discount.v
  {
    Sub(Add(subtotal, Finite(DELIVERY_CHARGE)), discount)
  }

  /** The discount row is rendered when `discount > 0`. */
  predicate ShowsDiscount(discount: Number) {
    Positive(discount)
  }

  /** The checkout page's own state: the typed code and the applied discount. */
  datatype CheckoutState = CheckoutState(couponCode: string, discount: Number)

  const INITIAL: CheckoutState := CheckoutState("", Finite(0.0))

  /** Typing a code records it; the discount stays as it was until Apply. */
  function TypeCode(s: CheckoutState, code: string): (r: CheckoutState)
    ensures r.couponCode == code && r.discount == s.discount
  {
    s.(couponCode := code)
  }

  /** Pressing Apply replaces the discount; the previous discount plays no part. */
  function Apply(s: CheckoutState, subtotal: Number): (r: CheckoutState)
    ensures r.couponCode == s.couponCode
    ensures r.discount == CouponDiscount(s.couponCode, subtotal)
  {
    s.(discount := CouponDiscount(s.couponCode, subtotal))
  }

  /** The coupon is accepted in any letter case. */
  lemma CouponCaseInsensitive(code: string)
    ensures CouponMatches(code) <==> EqualIgnoringCase(code, COUPON_CODE)
  {
    ToUpperEqualIff(code, COUPON_CODE);
    assert ToUpper(COUPON_CODE) == COUPON_CODE;
  }

  lemma CouponExamples(subtotal: Number)
    ensures CouponDiscount("4everyoung", subtotal) == Mul(subtotal, Finite(COUPON_RATE))
    ensures CouponDiscount("4EVERYOUNG", subtotal) == Mul(subtotal, Finite(COUPON_RATE))
    ensures CouponDiscount("bogus", subtotal) == Finite(0.0)
  {
    assert ToUpper("bogus")[0] == 'B';
  }

  /** A bad code after a good one erases the discount, and applying the same
      code twice gives what applying it once gives. */
  lemma ReapplyBehaviour(s: CheckoutState, good: string, bad: string, subtotal: Number)
    requires CouponMatches(good) && !CouponMatches(bad)
    ensures Apply(TypeCode(Apply(TypeCode(s, good), subtotal), bad), subtotal).discount == Finite(0.0)
    ensures Apply(Apply(s, subtotal), subtotal) == Apply(s, subtotal)
  {
  }

  /** For a non-negative subtotal the discount lies between 0 and the
      subtotal, so the total lies between the delivery charge and
      subtotal + delivery. */
  lemma TotalBounds(code: string, subtotal: real)
    requires subtotal >= 0.0
    ensures var d := CouponDiscount(code, Finite(subtotal));
      d.Finite? && 0.0 <= d.v <= subtotal
      && DELIVERY_CHARGE <= Total(Finite(subtotal), d).v <= subtotal + DELIVERY_CHARGE
  {
  }

  /** Subtotal 1000 with the coupon: 1000 + 150 - 50. */
  lemma ThousandWithCoupon()
    ensures Total(Finite(1000.0), CouponDiscount("4everyoung", Finite(1000.0))) == Finite(1100.0)
  {
    CouponExamples(Finite(1000.0));
  }

  /** The discount row shows exactly when the coupon matched and the
      subtotal is a positive number. */
  lemma DiscountRowIff(code: string, subtotal: Number)
    ensures ShowsDiscount(CouponDiscount(code, subtotal)) <==> CouponMatches(code) && Positive(subtotal)
  {
  }

  /** Every catalogue product that lists sizes prices each of them at a
      positive number under the subtotal's rule. */
  lemma CatalogSizedPricesResolve(i: nat, k: nat, q: int)
    requires i < |PRODUCTS| && PRODUCTS[i].sizes.Some? && k < |PRODUCTS[i].sizes.value|
    ensures var item := CartItem("", PRODUCTS[i], q, Some(PRODUCTS[i].sizes.value[k]));
      SubtotalUnitPrice(item).Finite? && SubtotalUnitPrice(item).v > 0.0
  {
    CatalogSizesPriced();
    assert PRODUCTS[i] == GLYCOLIC_GLOSS;
  }
}
