/** The product-wise strategy: a percentage off every line of one target product. */
module ProductWise {
  import opened Wrappers
  import opened Carts
  import opened Coupons

  /** The coupon's details, when present, are a product-wise rule. */
  predicate Fits(coupon: Coupon) {
    coupon.details.None? || coupon.details.value.ProductWiseRule?
  }

  /** The rule can be evaluated against this cart: details, target product and
      percentage are all present, and the cart has lines. */
  predicate Targeted(coupon: Coupon, cart: Cart)
    requires Fits(coupon)
  {
    && coupon.details.Some?
    && cart.items.Some? && |cart.items.value| > 0
    && coupon.details.value.productWise.productId.Some?
    && coupon.details.value.productWise.discount.Some?
  }

  function Target(coupon: Coupon): int
    requires Fits(coupon) && coupon.details.Some? && coupon.details.value.productWise.productId.Some?
  {
    coupon.details.value.productWise.productId.value
  }

  /** The percentage as a fraction. */
  function Rate(coupon: Coupon): real
    requires Fits(coupon) && coupon.details.Some? && coupon.details.value.productWise.discount.Some?
  {
    coupon.details.value.productWise.discount.value / 100.0
  }

  /** The discount of one line at the given rate. */
  function LineDiscount(item: CartItem, rate: real): real {
    item.price * item.quantity as real * rate
  }

  /** The lines of product `pid`, in cart order. */
  function Matching(items: seq<CartItem>, pid: int): (r: seq<CartItem>)
    ensures |r| <= |items|
    ensures forall k :: 0 <= k < |r| ==> r[k].productId == pid
  {
    if |items| == 0 then []
    else if items[0].productId == pid then [items[0]] + Matching(items[1..], pid)
    else Matching(items[1..], pid)
  }

  /** No line of product `pid` leaves nothing to match. */
  lemma {:induction false} MatchingEmpty(items: seq<CartItem>, pid: int)
    requires forall i :: 0 <= i < |items| ==> items[i].productId != pid
    ensures Matching(items, pid) == []
    decreases |items|
  {
    if |items| > 0 {
      MatchingEmpty(items[1..], pid);
    }
  }

  lemma {:induction false} MatchingAppend(a: seq<CartItem>, b: seq<CartItem>, pid: int)
    ensures Matching(a + b, pid) == Matching(a, pid) + Matching(b, pid)
    decreases |a|
  {
    if |a| > 0 {
      assert (a + b)[1..] == a[1..] + b;
      MatchingAppend(a[1..], b, pid);
    } else {
      assert a + b == b;
    }
  }

  /** The discount written on the lines of product `pid`, summed. */
  function MatchedDiscount(items: seq<CartItem>, pid: int): real {
    TotalDiscount(Matching(items, pid))
  }

  /** The sum `ProductWiseStrategy.calculateDiscount` streams over the matching lines. */
  function MatchingSum(items: seq<CartItem>, pid: int, rate: real): real {
    if |items| == 0 then 0.0
    else (if items[0].productId == pid then LineDiscount(items[0], rate) else 0.0) + MatchingSum(items[1..], pid, rate)
  }

  lemma LineDiscountIsRateOfTotal(item: CartItem, rate: real)
    ensures LineDiscount(item, rate) == rate * LineTotal(item)
  {
  }

  lemma SubtotalCons(x: CartItem, rest: seq<CartItem>)
    ensures Subtotal([x] + rest) == LineTotal(x) + Subtotal(rest)
  {
    assert ([x] + rest)[1..] == rest;
  }

  /** Summing line discounts over the matching lines is the rate times the
      matching lines' subtotal. */
  lemma {:induction false} MatchingSumIsRateOfSubtotal(items: seq<CartItem>, pid: int, rate: real)
    ensures MatchingSum(items, pid, rate) == rate * Subtotal(Matching(items, pid))
    decreases |items|
  {
    if |items| > 0 {
      var rest := Matching(items[1..], pid);
      var tail := MatchingSum(items[1..], pid, rate);
      MatchingSumIsRateOfSubtotal(items[1..], pid, rate);
      assert tail == rate * Subtotal(rest);
      if items[0].productId == pid {
        assert MatchingSum(items, pid, rate) == LineDiscount(items[0], rate) + tail;
        assert Matching(items, pid) == [items[0]] + rest;
        SubtotalCons(items[0], rest);
        LineDiscountIsRateOfTotal(items[0], rate);
        assert rate * (LineTotal(items[0]) + Subtotal(rest)) == rate * LineTotal(items[0]) + rate * Subtotal(rest);
      } else {
        assert MatchingSum(items, pid, rate) == tail;
        assert Matching(items, pid) == rest;
      }
    } else {
      assert Subtotal(Matching(items, pid)) == 0.0;
    }
  }

  function CalculateDiscount(coupon: Coupon, cart: Cart): (r: real)
    requires Fits(coupon)
    ensures !Targeted(coupon, cart) ==> r == 0.0
    ensures Targeted(coupon, cart) ==>
      r == Rate(coupon) * Subtotal(Matching(cart.items.value, Target(coupon)))
  {
    if coupon.details.None? || cart.items.None? || |cart.items.value| == 0 then 0.0
    else
      var d := coupon.details.value.productWise;
      if d.productId.None? || d.discount.None? then 0.0
      else
        var rate := d.discount.value / 100.0;
        MatchingSumIsRateOfSubtotal(cart.items.value, d.productId.value, rate);
        MatchingSum(cart.items.value, d.productId.value, rate)
  }

  /** A cart without a line of the target product gets nothing. */
  lemma NoMatchNoDiscount(coupon: Coupon, items: seq<CartItem>)
    requires Fits(coupon) && coupon.details.Some? && coupon.details.value.productWise.productId.Some?
    requires forall i :: 0 <= i < |items| ==> items[i].productId != Target(coupon)
    ensures CalculateDiscount(coupon, Cart(Some(items))) == 0.0
  {
    MatchingEmpty(items, Target(coupon));
  }

  /** A percentage of 0 gives nothing. */
  lemma ZeroPercentNoDiscount(coupon: Coupon, cart: Cart)
    requires Fits(coupon) && coupon.details.Some? && coupon.details.value.productWise.discount == Some(0.0)
    ensures CalculateDiscount(coupon, cart) == 0.0
  {
  }

  /** Two carts with the same lines of the target product get the same
      discount, whatever other lines they hold. */
  lemma OtherProductsIrrelevant(coupon: Coupon, a: seq<CartItem>, b: seq<CartItem>)
    requires Fits(coupon) && coupon.details.Some? && coupon.details.value.productWise.productId.Some?
    requires Matching(a, Target(coupon)) == Matching(b, Target(coupon))
    ensures CalculateDiscount(coupon, Cart(Some(a))) == CalculateDiscount(coupon, Cart(Some(b)))
  {
  }

  /** Adding a line of another product leaves the discount unchanged. */
  lemma AddOtherLine(coupon: Coupon, a: seq<CartItem>, b: seq<CartItem>, x: CartItem)
    requires Fits(coupon) && coupon.details.Some? && coupon.details.value.productWise.productId.Some?
    requires x.productId != Target(coupon)
    ensures CalculateDiscount(coupon, Cart(Some(a + [x] + b))) == CalculateDiscount(coupon, Cart(Some(a + b)))
  {
    var pid := Target(coupon);
    MatchingAppend(a + [x], b, pid);
    MatchingAppend(a, [x], pid);
    MatchingAppend(a, b, pid);
    assert Matching([x], pid) == [];
    OtherProductsIrrelevant(coupon, a + [x] + b, a + b);
  }

  /** The lines with each line of product `pid` given its discount at `rate`. */
  function WriteDiscounts(items: seq<CartItem>, pid: int, rate: real): (r: seq<CartItem>)
    ensures |r| == |items|
    ensures forall i :: 0 <= i < |items| ==> SameGoods(r[i], items[i])
    ensures forall i :: 0 <= i < |items| && items[i].productId == pid ==>
      r[i].totalDiscount == LineDiscount(items[i], rate)
    ensures forall i :: 0 <= i < |items| && items[i].productId != pid ==> r[i] == items[i]
  {
    seq(|items|, i requires 0 <= i < |items| =>
      if items[i].productId == pid then items[i].(totalDiscount := LineDiscount(items[i], rate)) else items[i])
  }

  /** Writes each target line's discount; every other line, including any
      discount it already carries, is left untouched. */
  function ApplyCoupon(coupon: Coupon, cart: Cart): (r: Cart)
    requires Fits(coupon)
    ensures !Targeted(coupon, cart) ==> r == cart
    ensures Targeted(coupon, cart) ==>
      && r.items.Some?
      && r.items.value == WriteDiscounts(cart.items.value, Target(coupon), Rate(coupon))
  {
    if coupon.details.None? || cart.items.None? || |cart.items.value| == 0 then cart
    else
      var d := coupon.details.value.productWise;
      if d.productId.None? || d.discount.None? then cart
      else Cart(Some(WriteDiscounts(cart.items.value, d.productId.value, d.discount.value / 100.0)))
  }

  lemma {:induction false} WrittenMatchedDiscount(items: seq<CartItem>, pid: int, rate: real)
    ensures MatchedDiscount(WriteDiscounts(items, pid, rate), pid) == MatchingSum(items, pid, rate)
    decreases |items|
  {
    if |items| > 0 {
      var w := WriteDiscounts(items, pid, rate);
      assert w[1..] == WriteDiscounts(items[1..], pid, rate);
      WrittenMatchedDiscount(items[1..], pid, rate);
      if items[0].productId == pid {
        var m := Matching(w, pid);
        assert m[0] == w[0] && m[1..] == Matching(w[1..], pid);
      }
    }
  }

  /** After applying, the discounts written on the target lines add up to
      exactly what `CalculateDiscount` reports. */
  lemma ApplyMatchesCalculate(coupon: Coupon, cart: Cart)
    requires Fits(coupon) && Targeted(coupon, cart)
    ensures MatchedDiscount(ApplyCoupon(coupon, cart).items.value, Target(coupon)) == CalculateDiscount(coupon, cart)
  {
    WrittenMatchedDiscount(cart.items.value, Target(coupon), Rate(coupon));
  }

  function Rule(pid: int, percent: real): Coupon {
    Coupon(None, Some("product-wise"), Some(ProductWiseRule(ProductWiseDetails(Some(pid), Some(percent)))))
  }

  /** 2 x 100 of product 1 at 20% gives 40; the line of product 2 keeps its discount. */
  lemma ExampleTwoLines(other: real)
    ensures var items := [NewItem(1, 2, 100.0), CartItem(2, 1, 50.0, other)];
      && CalculateDiscount(Rule(1, 20.0), Cart(Some(items))) == 40.0
      && ApplyCoupon(Rule(1, 20.0), Cart(Some(items))).items.value
         == [CartItem(1, 2, 100.0, 40.0), CartItem(2, 1, 50.0, other)]
  {
    var items := [NewItem(1, 2, 100.0), CartItem(2, 1, 50.0, other)];
    assert Matching(items, 1) == [items[0]];
    assert Subtotal([items[0]]) == 200.0;
  }
}
