/** The buy-X-get-Y strategy: for every full batch of the buy product in the
    cart, some units of the get product are free, up to a repetition limit.
    Only the first entry of the buy list and of the get list count. */
module BxGy {
  import opened Wrappers
  import opened Carts
  import opened Coupons

  /** The coupon's details, when present, are a buy-X-get-Y rule. */
  predicate Fits(coupon: Coupon) {
    coupon.details.None? || coupon.details.value.BxGyRule?
  }

  /** How a cart line's product id is compared with a rule's. `ByValue`
      compares the numbers. `ByReference` is Java's `==` on two separately
      boxed `Integer`s: they are the same object only when both come from
      the JVM's box cache. */
  datatype IdComparison = ByValue | ByReference

  /** The range of the JVM's default `Integer` box cache. */
  const BoxCacheLow: int := -128
  const BoxCacheHigh: int := 127

  predicate InBoxCache(n: int) {
    BoxCacheLow <= n <= BoxCacheHigh
  }

  predicate SameId(cmp: IdComparison, a: int, b: int) {
    a == b && (cmp.ByReference? ==> InBoxCache(a))
  }

  /** Sum of the quantities of the lines of product `pid`: nothing when no
      line matches, and never negative when no quantity is. */
  function BoughtQuantity(items: seq<CartItem>, pid: int, cmp: IdComparison): (r: int)
    ensures (forall i :: 0 <= i < |items| ==> !SameId(cmp, items[i].productId, pid)) ==> r == 0
    ensures (forall i :: 0 <= i < |items| ==> items[i].quantity >= 0) ==> r >= 0
  {
    if |items| == 0 then 0
    else (if SameId(cmp, items[0].productId, pid) then items[0].quantity else 0) + BoughtQuantity(items[1..], pid, cmp)
  }

  /** The position of the first line of product `pid`, if there is one. */
  function FirstLineOf(items: seq<CartItem>, pid: int, cmp: IdComparison): (r: Option<nat>)
    ensures r.None? <==> forall i :: 0 <= i < |items| ==> !SameId(cmp, items[i].productId, pid)
    ensures r.Some? ==>
      && r.value < |items| && SameId(cmp, items[r.value].productId, pid)
      && forall j :: 0 <= j < r.value ==> !SameId(cmp, items[j].productId, pid)
  {
    if |items| == 0 then None
    else if SameId(cmp, items[0].productId, pid) then Some(0)
    else match FirstLineOf(items[1..], pid, cmp)
      case None => None
      case Some(k) => Some(k + 1)
  }

  /** The first matching line depends on the lines' product ids alone. */
  lemma FirstLineOfSameIds(a: seq<CartItem>, b: seq<CartItem>, pid: int, cmp: IdComparison)
    requires |a| == |b|
    requires forall i :: 0 <= i < |a| ==> a[i].productId == b[i].productId
    ensures FirstLineOf(a, pid, cmp) == FirstLineOf(b, pid, cmp)
  {
  }

  /** Java's `int` division, which truncates toward zero. */
  function JavaDiv(a: int, b: int): (q: int)
    requires b != 0
    ensures a >= 0 && b > 0 ==> q == a / b
    ensures a < 0 && b > 0 ==> q == -((-a) / b)
    ensures a >= 0 && b < 0 ==> q == -(a / (-b))
    ensures a < 0 && b < 0 ==> q == (-a) / (-b)
  {
    var n := if a < 0 then -a else a;
    var d := if b < 0 then -b else b;
    if (a < 0) == (b < 0) then n / d else -(n / d)
  }

  function Min(a: int, b: int): int {
    if a <= b then a else b
  }

  /** How often the offer repeats: the number of full buy batches, capped by the limit. */
  function Repetitions(bought: int, buyQuantity: int, limit: int): (r: int)
    requires buyQuantity != 0
    ensures r <= limit && r <= JavaDiv(bought, buyQuantity)
    ensures r == limit || r == JavaDiv(bought, buyQuantity)
  {
    Min(JavaDiv(bought, buyQuantity), limit)
  }

  /** Both the buy list and the get list are present and non-empty. */
  predicate HasRules(d: BxGyDetails) {
    && d.buyProducts.Some? && |d.buyProducts.value| > 0
    && d.getProducts.Some? && |d.getProducts.value| > 0
  }

  /** The only buy entry that counts: the first. */
  function BuyRule(d: BxGyDetails): BxGyProduct
    requires HasRules(d)
  {
    d.buyProducts.value[0]
  }

  /** The only get entry that counts: the first. */
  function GetRule(d: BxGyDetails): BxGyProduct
    requires HasRules(d)
  {
    d.getProducts.value[0]
  }

  /** The offer is evaluated at all: there are details, the cart has lines,
      and both lists have an entry. */
  predicate Active(coupon: Coupon, cart: Cart)
    requires Fits(coupon)
  {
    && coupon.details.Some? && HasRules(coupon.details.value.bxgy)
    && cart.items.Some? && |cart.items.value| > 0
  }

  function Rules(coupon: Coupon): BxGyDetails
    requires Fits(coupon) && coupon.details.Some?
  {
    coupon.details.value.bxgy
  }

  /** The cart holds at least the buy entry's quantity of the buy product. */
  predicate BuyMet(coupon: Coupon, cart: Cart)
    requires Fits(coupon) && Active(coupon, cart)
  {
    var buy := BuyRule(Rules(coupon));
    BoughtQuantity(cart.items.value, buy.productId, ByValue) >= buy.quantity
  }

  /** What `calculateDiscount` needs to run without an exception: once the
      buy quantity is met it divides by that quantity and unboxes the limit. */
  predicate CalculateDefined(coupon: Coupon, cart: Cart) {
    && Fits(coupon)
    && (Active(coupon, cart) && BuyMet(coupon, cart) ==>
          BuyRule(Rules(coupon)).quantity != 0 && Rules(coupon).repetitionLimit.Some?)
  }

  /** The repetitions `calculateDiscount` grants; 0 when the buy quantity is not met. */
  function CalculatedRepetitions(coupon: Coupon, cart: Cart): int
    requires CalculateDefined(coupon, cart) && Active(coupon, cart)
  {
    if !BuyMet(coupon, cart) then 0
    else
      var buy := BuyRule(Rules(coupon));
      Repetitions(BoughtQuantity(cart.items.value, buy.productId, ByValue), buy.quantity, Rules(coupon).repetitionLimit.value)
  }

  /** The first line of the get product, which is where the free units go. */
  function FreeLine(coupon: Coupon, cart: Cart, cmp: IdComparison): Option<nat>
    requires Fits(coupon) && Active(coupon, cart)
  {
    FirstLineOf(cart.items.value, GetRule(Rules(coupon)).productId, cmp)
  }

  function CalculateDiscount(coupon: Coupon, cart: Cart): (r: real)
    requires CalculateDefined(coupon, cart)
    ensures !Active(coupon, cart) ==> r == 0.0
    ensures Active(coupon, cart) && !BuyMet(coupon, cart) ==> r == 0.0
    ensures Active(coupon, cart) && CalculatedRepetitions(coupon, cart) <= 0 ==> r == 0.0
    ensures Active(coupon, cart) && FreeLine(coupon, cart, ByValue).None? ==> r == 0.0
    ensures Active(coupon, cart) && CalculatedRepetitions(coupon, cart) > 0 && FreeLine(coupon, cart, ByValue).Some? ==>
      r == (CalculatedRepetitions(coupon, cart) * GetRule(Rules(coupon)).quantity) as real
           * cart.items.value[FreeLine(coupon, cart, ByValue).value].price
  {
    if coupon.details.None? || cart.items.None? || |cart.items.value| == 0 then 0.0
    else
      var d := coupon.details.value.bxgy;
      if d.buyProducts.None? || |d.buyProducts.value| == 0
         || d.getProducts.None? || |d.getProducts.value| == 0 then 0.0
      else
        var buyRule := d.buyProducts.value[0];
        var getRule := d.getProducts.value[0];
        var totalBuyQty := BoughtQuantity(cart.items.value, buyRule.productId, ByValue);
        if totalBuyQty < buyRule.quantity then 0.0
        else
          var repetitionCount := Min(JavaDiv(totalBuyQty, buyRule.quantity), d.repetitionLimit.value);
          if repetitionCount <= 0 then 0.0
          else
            var freeQty := repetitionCount * getRule.quantity;
            match FirstLineOf(cart.items.value, getRule.productId, ByValue)
            case None => 0.0
            case Some(k) => freeQty as real * cart.items.value[k].price
  }

  /** Entries after the first in either list play no part: two coupons that
      agree on the first buy entry, the first get entry and the limit give
      every cart the same discount. */
  lemma OnlyFirstEntriesCount(c1: Coupon, c2: Coupon, cart: Cart)
    requires CalculateDefined(c1, cart) && CalculateDefined(c2, cart)
    requires c1.details.Some? && c2.details.Some?
    requires HasRules(Rules(c1)) && HasRules(Rules(c2))
    requires BuyRule(Rules(c1)) == BuyRule(Rules(c2)) && GetRule(Rules(c1)) == GetRule(Rules(c2))
    requires Rules(c1).repetitionLimit == Rules(c2).repetitionLimit
    ensures CalculateDiscount(c1, cart) == CalculateDiscount(c2, cart)
  {
    if Active(c1, cart) {
      assert Active(c2, cart);
      assert FreeLine(c1, cart, ByValue) == FreeLine(c2, cart, ByValue);
      if BuyMet(c1, cart) {
        assert BuyMet(c2, cart);
        assert CalculatedRepetitions(c1, cart) == CalculatedRepetitions(c2, cart);
      }
    }
  }

  /** What `applyCoupon` needs to run without an exception: an item list
      (its early exit resets the lines of the very list it found null), and,
      once both lists have an entry, a non-zero buy quantity and a limit. */
  predicate ApplyDefined(coupon: Coupon, cart: Cart) {
    && Fits(coupon) && cart.items.Some?
    && (Active(coupon, cart) ==>
          BuyRule(Rules(coupon)).quantity != 0 && Rules(coupon).repetitionLimit.Some?)
  }

  /** The free units `applyCoupon` hands out; 0 when it stops before counting.
      Unlike `calculateDiscount` it does not check the buy quantity first. */
  function FreeQuantity(coupon: Coupon, cart: Cart, cmp: IdComparison): (r: int)
    requires ApplyDefined(coupon, cart)
    ensures !Active(coupon, cart) ==> r == 0
    ensures cmp == ByValue && Active(coupon, cart) && CalculateDefined(coupon, cart) && BuyMet(coupon, cart) ==>
      r == CalculatedRepetitions(coupon, cart) * GetRule(Rules(coupon)).quantity
    ensures (&& cmp == ByReference && Active(coupon, cart) && !InBoxCache(BuyRule(Rules(coupon)).productId)
             && Rules(coupon).repetitionLimit.value >= 0) ==> r == 0
  {
    if !Active(coupon, cart) then 0
    else
      var d := Rules(coupon);
      var buy := BuyRule(d);
      Repetitions(BoughtQuantity(cart.items.value, buy.productId, cmp), buy.quantity, d.repetitionLimit.value)
        * GetRule(d).quantity
  }

  /** The line `applyCoupon` credits: the first line of the get product,
      when the offer is evaluated at all. */
  function CreditedLine(coupon: Coupon, cart: Cart, cmp: IdComparison): Option<nat>
    requires Fits(coupon)
  {
    if Active(coupon, cart) then FreeLine(coupon, cart, cmp) else None
  }

  /** `r` is `items` with every line's discount reset, except that when
      `free` is positive and `line` names a line, that line gains `free`
      units and a discount of their price. Product ids and prices never change. */
  predicate Credited(items: seq<CartItem>, r: seq<CartItem>, free: int, line: Option<nat>) {
    && |r| == |items|
    && (forall i :: 0 <= i < |items| ==> r[i].productId == items[i].productId && r[i].price == items[i].price)
    && if free > 0 && line.Some? && line.value < |items| then
         var k := line.value;
         && r[k].quantity == items[k].quantity + free
         && r[k].totalDiscount == free as real * items[k].price
         && forall i :: 0 <= i < |items| && i != k ==> SameGoods(r[i], items[i]) && r[i].totalDiscount == 0.0
       else r == ResetDiscounts(items)
  }

  /** Every discount reset, and line `k` given `free` more units and a
      discount of their price. */
  function Credit(items: seq<CartItem>, k: nat, free: int): (r: seq<CartItem>)
    requires k < |items|
    ensures |r| == |items|
    ensures r[k].productId == items[k].productId && r[k].price == items[k].price
    ensures r[k].quantity == items[k].quantity + free
    ensures r[k].totalDiscount == free as real * items[k].price
    ensures forall i :: 0 <= i < |items| && i != k ==> SameGoods(r[i], items[i]) && r[i].totalDiscount == 0.0
  {
    var reset := ResetDiscounts(items);
    reset[k := reset[k].(quantity := reset[k].quantity + free, totalDiscount := free as real * reset[k].price)]
  }

  lemma CreditIsCredited(items: seq<CartItem>, k: nat, free: int)
    requires k < |items| && free > 0
    ensures Credited(items, Credit(items, k, free), free, Some(k))
  {
  }

  lemma ResetIsCredited(items: seq<CartItem>, free: int, line: Option<nat>)
    requires !(free > 0 && line.Some? && line.value < |items|)
    ensures Credited(items, ResetDiscounts(items), free, line)
  {
  }

  /** `applyCoupon` with a given way of comparing product ids: every line's
      discount is reset, and only the first line of the get product, when
      there are free units, gains them and a discount of their price. The
      line is searched among the reset lines, as `applyCoupon` does; they
      keep their product ids, so it is the first line of the get product in
      the cart as given (`FirstLineOfSameIds`). */
  function ApplyWith(coupon: Coupon, cart: Cart, cmp: IdComparison): (r: Cart)
    requires ApplyDefined(coupon, cart)
    ensures r.items.Some?
    ensures Credited(cart.items.value, r.items.value, FreeQuantity(coupon, cart, cmp), CreditedLine(coupon, cart, cmp))
  {
    var items := cart.items.value;
    var freeQty := FreeQuantity(coupon, cart, cmp);
    var reset := ResetDiscounts(items);
    var line :=
      if Active(coupon, cart) then
        FirstLineOfSameIds(reset, items, GetRule(Rules(coupon)).productId, cmp);
        FirstLineOf(reset, GetRule(Rules(coupon)).productId, cmp)
      else None;
    if freeQty > 0 && line.Some? then
      CreditIsCredited(items, line.value, freeQty);
      Cart(Some(Credit(items, line.value, freeQty)))
    else
      ResetIsCredited(items, freeQty, line);
      Cart(Some(ResetDiscounts(items)))
  }

  /** Resets every line's discount; then, when there are free units and a
      line of the get product, the first such line gains the free units and
      a discount of their price. Nothing else changes. */
  function ApplyCoupon(coupon: Coupon, cart: Cart): (r: Cart)
    requires ApplyDefined(coupon, cart)
    ensures r.items.Some?
    ensures Credited(cart.items.value, r.items.value, FreeQuantity(coupon, cart, ByValue), CreditedLine(coupon, cart, ByValue))
  {
    ApplyWith(coupon, cart, ByValue)
  }

  /** `BxGyStrategy.applyCoupon` as written: lines are matched to the rule's
      product ids by reference. A get product outside the box cache is never
      found, and a buy product outside it is never counted, so with a
      non-negative limit no free units are handed out. With both ids inside
      the cache it is `ApplyCoupon`. */
  function ApplyCouponAsWritten(coupon: Coupon, cart: Cart): (r: Cart)
    requires ApplyDefined(coupon, cart)
    ensures r.items.Some? && |r.items.value| == |cart.items.value|
    ensures Active(coupon, cart) && !InBoxCache(GetRule(Rules(coupon)).productId) ==>
      r.items.value == ResetDiscounts(cart.items.value)
    ensures (&& Active(coupon, cart) && !InBoxCache(BuyRule(Rules(coupon)).productId)
             && Rules(coupon).repetitionLimit.value >= 0) ==>
      r.items.value == ResetDiscounts(cart.items.value)
  {
    ApplyWith(coupon, cart, ByReference)
  }

  /** Inside the box cache a reference comparison is a value comparison. */
  lemma {:induction false} BoughtInCache(items: seq<CartItem>, pid: int)
    requires InBoxCache(pid)
    ensures BoughtQuantity(items, pid, ByReference) == BoughtQuantity(items, pid, ByValue)
    decreases |items|
  {
    if |items| > 0 {
      BoughtInCache(items[1..], pid);
    }
  }

  lemma {:induction false} FirstLineInCache(items: seq<CartItem>, pid: int)
    requires InBoxCache(pid)
    ensures FirstLineOf(items, pid, ByReference) == FirstLineOf(items, pid, ByValue)
    decreases |items|
  {
    if |items| > 0 {
      FirstLineInCache(items[1..], pid);
    }
  }

  /** With both the buy id and the get id inside the box cache the
      reference comparison of `BxGyStrategy.applyCoupon` does no harm: the
      as-written apply is the corrected one. */
  lemma AsWrittenInsideCache(coupon: Coupon, cart: Cart)
    requires ApplyDefined(coupon, cart)
    requires Active(coupon, cart) ==>
      InBoxCache(BuyRule(Rules(coupon)).productId) && InBoxCache(GetRule(Rules(coupon)).productId)
    ensures ApplyCouponAsWritten(coupon, cart) == ApplyCoupon(coupon, cart)
  {
    if Active(coupon, cart) {
      BoughtInCache(cart.items.value, BuyRule(Rules(coupon)).productId);
      FirstLineInCache(cart.items.value, GetRule(Rules(coupon)).productId);
    }
  }

  /** Under sensible rule values, free units are handed out only when
      `calculateDiscount` also grants repetitions, and then as many. */
  lemma FreeOnlyWhenCalculated(coupon: Coupon, cart: Cart)
    requires ApplyDefined(coupon, cart) && CalculateDefined(coupon, cart)
    requires Active(coupon, cart) ==> BuyRule(Rules(coupon)).quantity > 0 && GetRule(Rules(coupon)).quantity >= 0
    ensures FreeQuantity(coupon, cart, ByValue) > 0 ==>
      && Active(coupon, cart) && CalculatedRepetitions(coupon, cart) > 0
      && FreeQuantity(coupon, cart, ByValue) == CalculatedRepetitions(coupon, cart) * GetRule(Rules(coupon)).quantity
  {
    var free := FreeQuantity(coupon, cart, ByValue);
    if Active(coupon, cart) {
      var d := Rules(coupon);
      var buy := BuyRule(d);
      var g := GetRule(d).quantity;
      var bought := BoughtQuantity(cart.items.value, buy.productId, ByValue);
      var reps := Repetitions(bought, buy.quantity, d.repetitionLimit.value);
      assert free == reps * g;
      if !BuyMet(coupon, cart) {
        assert JavaDiv(bought, buy.quantity) <= 0;
        assert free <= 0 by {
          assert reps * g <= 0 * g;
        }
      } else if reps <= 0 {
        assert free <= 0 by {
          assert reps * g <= 0 * g;
        }
      }
    }
  }

  /** Under sensible rule values (a positive buy quantity, a non-negative get
      quantity), the discounts `ApplyCoupon` writes add up to exactly what
      `CalculateDiscount` reports. */
  lemma ApplyMatchesCalculate(coupon: Coupon, cart: Cart)
    requires ApplyDefined(coupon, cart) && CalculateDefined(coupon, cart)
    requires Active(coupon, cart) ==> BuyRule(Rules(coupon)).quantity > 0 && GetRule(Rules(coupon)).quantity >= 0
    ensures TotalDiscount(ApplyCoupon(coupon, cart).items.value) == CalculateDiscount(coupon, cart)
  {
    FreeOnlyWhenCalculated(coupon, cart);
    CreditedTotal(cart.items.value, ApplyCoupon(coupon, cart).items.value,
      FreeQuantity(coupon, cart, ByValue), CreditedLine(coupon, cart, ByValue));
  }

  /** The discounts of a credited cart add up to the price of the free units. */
  lemma CreditedTotal(items: seq<CartItem>, r: seq<CartItem>, free: int, line: Option<nat>)
    requires Credited(items, r, free, line)
    ensures free > 0 && line.Some? && line.value < |items| ==> TotalDiscount(r) == free as real * items[line.value].price
    ensures !(free > 0 && line.Some? && line.value < |items|) ==> TotalDiscount(r) == 0.0
  {
    if free > 0 && line.Some? && line.value < |items| {
      var k := line.value;
      var reset := ResetDiscounts(items);
      TotalDiscountOfZeros(reset);
      assert r == reset[k := r[k]];
      TotalDiscountUpdate(reset, k, r[k]);
    } else {
      TotalDiscountOfZeros(r);
    }
  }

  /** The reference comparison of `BxGyStrategy.applyCoupon` loses the discount: when the get
      product's id is outside the box cache, a cart that `CalculateDiscount`
      credits gets no discount on any line from `ApplyCouponAsWritten`. */
  lemma AsWrittenDropsDiscount(coupon: Coupon, cart: Cart)
    requires ApplyDefined(coupon, cart) && CalculateDefined(coupon, cart)
    requires Active(coupon, cart) && !InBoxCache(GetRule(Rules(coupon)).productId)
    requires CalculateDiscount(coupon, cart) > 0.0
    ensures TotalDiscount(ApplyCouponAsWritten(coupon, cart).items.value) == 0.0 < CalculateDiscount(coupon, cart)
  {
    TotalDiscountOfZeros(ApplyCouponAsWritten(coupon, cart).items.value);
  }

  function Rule(buyId: int, buyQty: int, getId: int, getQty: int, limit: int): Coupon {
    Coupon(None, Some("bxgy"), Some(BxGyRule(BxGyDetails(
      Some([BxGyProduct(buyId, buyQty)]), Some([BxGyProduct(getId, getQty)]), Some(limit)))))
  }

  /** Buy 4 of product 1 on a buy-2-get-1 offer: 2 repetitions, 2 free units of product 5 at 30. */
  lemma ExampleTwoRepetitions()
    ensures CalculateDiscount(Rule(1, 2, 5, 1, 5), Cart(Some([NewItem(1, 4, 50.0), NewItem(5, 10, 30.0)]))) == 60.0
  {
    var items := [NewItem(1, 4, 50.0), NewItem(5, 10, 30.0)];
    assert BoughtQuantity(items, 1, ByValue) == 4 by {
      assert items[1..][1..] == [];
    }
  }

  /** Buy 10 with a limit of 2: 5 batches, capped to 2 repetitions, still 60. */
  lemma ExampleLimitCaps()
    ensures CalculateDiscount(Rule(1, 2, 5, 1, 2), Cart(Some([NewItem(1, 10, 50.0), NewItem(5, 10, 30.0)]))) == 60.0
  {
    var items := [NewItem(1, 10, 50.0), NewItem(5, 10, 30.0)];
    assert BoughtQuantity(items, 1, ByValue) == 10 by {
      assert items[1..][1..] == [];
    }
  }

  /** The buy quantity is met but product 5 is not in the cart: no discount. */
  lemma ExampleFreeProductMissing()
    ensures CalculateDiscount(Rule(1, 2, 5, 1, 5), Cart(Some([NewItem(1, 4, 50.0)]))) == 0.0
  {
  }

  /** With ids 200 and 300 the calculated discount is 60; the corrected
      apply adds 2 units to the line of product 300 and credits it 60, while
      `BxGyStrategy.applyCoupon` as written finds neither product and changes nothing. */
  lemma ExampleLargeIds()
    ensures var items := [NewItem(200, 4, 50.0), NewItem(300, 10, 30.0)];
      var coupon := Rule(200, 2, 300, 1, 5);
      && CalculateDiscount(coupon, Cart(Some(items))) == 60.0
      && ApplyCoupon(coupon, Cart(Some(items))).items.value == [NewItem(200, 4, 50.0), CartItem(300, 12, 30.0, 60.0)]
      && ApplyCouponAsWritten(coupon, Cart(Some(items))).items.value == items
  {
    var items := [NewItem(200, 4, 50.0), NewItem(300, 10, 30.0)];
    assert BoughtQuantity(items, 200, ByValue) == 4 by {
      assert items[1..][1..] == [];
    }
    var coupon := Rule(200, 2, 300, 1, 5);
    assert FreeLine(coupon, Cart(Some(items)), ByValue) == Some(1);
    assert FreeQuantity(coupon, Cart(Some(items)), ByValue) == 2;
    var r := ApplyCoupon(coupon, Cart(Some(items))).items.value;
    assert r[0] == items[0];
    assert r == [r[0], r[1]];
    var w := ApplyCouponAsWritten(coupon, Cart(Some(items))).items.value;
    assert w == ResetDiscounts(items);
    assert w == [w[0], w[1]];
  }
}
