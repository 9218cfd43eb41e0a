/** The cart-wise strategy: a percentage of the whole cart's subtotal,
    granted once that subtotal reaches the rule's threshold. */
module CartWise {
  import opened Wrappers
  import opened Carts
  import opened Coupons

  /** The coupon's details, when present, are a cart-wise rule. */
  predicate Fits(coupon: Coupon) {
    coupon.details.None? || coupon.details.value.CartWiseRule?
  }

  /** A usable rule: both a positive threshold and a positive percentage. */
  predicate ValidRule(d: CartWiseDetails) {
    && d.threshold.Some? && d.threshold.value > 0.0
    && d.discount.Some? && d.discount.value > 0.0
  }

  /** The coupon grants a discount on this cart: it has a valid rule, the cart
      has lines, and their subtotal is at least the threshold. */
  predicate Qualifies(coupon: Coupon, cart: Cart)
    requires Fits(coupon)
  {
    && coupon.details.Some? && ValidRule(coupon.details.value.cartWise)
    && cart.items.Some? && |cart.items.value| > 0
    && Subtotal(cart.items.value) >= coupon.details.value.cartWise.threshold.value
  }

  function CalculateDiscount(coupon: Coupon, cart: Cart): (r: real)
    requires Fits(coupon)
    ensures r >= 0.0
    ensures r > 0.0 <==> Qualifies(coupon, cart)
    ensures r > 0.0 ==> r == Subtotal(cart.items.value) * coupon.details.value.cartWise.discount.value / 100.0
  {
    if coupon.details.None? || cart.items.None? || |cart.items.value| == 0 then 0.0
    else
      var d := coupon.details.value.cartWise;
      if d.threshold.None? || d.threshold.value <= 0.0 then 0.0
      else if d.discount.None? || d.discount.value <= 0.0 then 0.0
      else
        var total := Subtotal(cart.items.value);
        if total < d.threshold.value then 0.0
        else total * (d.discount.value / 100.0)
  }

  /** A missing or non-positive threshold or percentage yields no discount,
      whatever the cart holds. */
  lemma InvalidRuleNoDiscount(coupon: Coupon, cart: Cart)
    requires Fits(coupon) && coupon.details.Some?
    requires !ValidRule(coupon.details.value.cartWise)
    ensures CalculateDiscount(coupon, cart) == 0.0
  {
  }

  /** Reordering the lines does not change the discount. */
  lemma DiscountIgnoresOrder(coupon: Coupon, a: seq<CartItem>, b: seq<CartItem>)
    requires Fits(coupon)
    requires multiset(a) == multiset(b)
    ensures CalculateDiscount(coupon, Cart(Some(a))) == CalculateDiscount(coupon, Cart(Some(b)))
  {
    SubtotalPermutation(a, b);
    assert |a| == |multiset(a)| == |multiset(b)| == |b|;
  }

  /** The discount depends on the lines' price times quantity alone: product
      ids and the discounts already written on the lines play no part. */
  lemma DiscountOnlyLineTotals(coupon: Coupon, a: seq<CartItem>, b: seq<CartItem>)
    requires Fits(coupon)
    requires |a| == |b|
    requires forall i :: 0 <= i < |a| ==> LineTotal(a[i]) == LineTotal(b[i])
    ensures CalculateDiscount(coupon, Cart(Some(a))) == CalculateDiscount(coupon, Cart(Some(b)))
  {
    SubtotalOnlyLineTotals(a, b);
  }

  /** Sets every line's discount to 0 (the cart-wise discount is reported for
      the cart as a whole, never per line) and changes nothing else. */
  function ApplyCoupon(coupon: Coupon, cart: Cart): (r: Cart)
    ensures r.items.Some? <==> cart.items.Some?
    ensures cart.items.Some? ==>
      && |r.items.value| == |cart.items.value|
      && forall i :: 0 <= i < |cart.items.value| ==>
           SameGoods(r.items.value[i], cart.items.value[i]) && r.items.value[i].totalDiscount == 0.0
  {
    if cart.items.Some? then Cart(Some(ResetDiscounts(cart.items.value))) else cart
  }

  /** Applying the coupon twice is the same as applying it once. */
  lemma ApplyIdempotent(coupon: Coupon, cart: Cart)
    ensures ApplyCoupon(coupon, ApplyCoupon(coupon, cart)) == ApplyCoupon(coupon, cart)
  {
    if cart.items.Some? {
      var once := ResetDiscounts(cart.items.value);
      var twice := ResetDiscounts(once);
      assert forall i :: 0 <= i < |once| ==> twice[i] == once[i];
      assert twice == once;
    }
  }

  /** After applying, the lines carry no discount at all. */
  lemma ApplyLeavesNoLineDiscount(coupon: Coupon, items: seq<CartItem>)
    ensures TotalDiscount(ApplyCoupon(coupon, Cart(Some(items))).items.value) == 0.0
  {
    TotalDiscountOfZeros(ApplyCoupon(coupon, Cart(Some(items))).items.value);
  }

  function Rule(threshold: real, percent: real): Coupon {
    Coupon(None, Some("cart-wise"), Some(CartWiseRule(CartWiseDetails(Some(threshold), Some(percent)))))
  }

  /** Lines of 2 x 50 and 1 x 50 make 150, which meets a threshold of 100: 10% gives 15. */
  lemma ExampleThresholdMet()
    ensures CalculateDiscount(Rule(100.0, 10.0), Cart(Some([NewItem(1, 2, 50.0), NewItem(2, 1, 50.0)]))) == 15.0
  {
    var items := [NewItem(1, 2, 50.0), NewItem(2, 1, 50.0)];
    assert Subtotal(items) == 150.0;
  }

  /** A subtotal of 50 misses a threshold of 100. */
  lemma ExampleBelowThreshold()
    ensures CalculateDiscount(Rule(100.0, 10.0), Cart(Some([NewItem(1, 1, 50.0)]))) == 0.0
  {
    assert Subtotal([NewItem(1, 1, 50.0)]) == 50.0;
  }

  /** Threshold -10 and percentage -5 are invalid, so a cart worth 100 gets nothing. */
  lemma ExampleNegativeRule()
    ensures CalculateDiscount(Rule(-10.0, -5.0), Cart(Some([NewItem(1, 2, 50.0)]))) == 0.0
  {
  }
}
