/** The coupon service: creating, reading, updating and deleting coupons in
    a store keyed by id, listing the coupons that give a cart a discount, and
    pricing a cart with one coupon. */
module CouponService {
  import opened Wrappers
  import opened Text
  import opened Carts
  import opened Coupons
  import opened StrategyFactory
  import CartWise
  import ProductWise

  datatype ServiceError =
    | CouponNotFound(id: int)
    | TypeRequired
    | DetailsRequired
    | InvalidType
    | TypeAndDetailsRequired
    | StrategyFailure(cause: FactoryError)

  /** The coupon store, by id. How it is persisted is not modelled. */
  type Store = map<int, Coupon>

  /** Validates a new coupon and normalises its tag (trimmed, lower-cased);
      the result is what gets saved. */
  function CreateCoupon(coupon: Coupon): (r: Result<Coupon, ServiceError>)
    ensures coupon.couponType.None? || IsBlank(coupon.couponType.value) ==> r == Failure(TypeRequired)
    ensures coupon.couponType.Some? && !IsBlank(coupon.couponType.value) && coupon.details.None? ==>
      r == Failure(DetailsRequired)
    ensures r.Success? <==>
      && coupon.couponType.Some? && !IsBlank(coupon.couponType.value) && coupon.details.Some?
      && Normalize(coupon.couponType.value) in KnownTags
    ensures r.Success? ==> r.value == coupon.(couponType := Some(Normalize(coupon.couponType.value)))
    ensures r.Success? ==>
      && GetStrategy(r.value.couponType).Success?
      && Tag(GetStrategy(r.value.couponType).value) == r.value.couponType.value
  {
    if coupon.couponType.None? || IsBlank(coupon.couponType.value) then Failure(TypeRequired)
    else if coupon.details.None? then Failure(DetailsRequired)
    else
      var t := Normalize(coupon.couponType.value);
      LowerIdempotent(Trim(coupon.couponType.value));
      if t in KnownTags then Success(coupon.(couponType := Some(t)))
      else Failure(InvalidType)
  }

  /** None of the known tags is blank. */
  lemma KnownTagsNotBlank(t: string)
    requires t in KnownTags
    ensures !IsBlank(t)
  {
    assert "cart-wise"[0] == 'c' && "product-wise"[0] == 'p' && "bxgy"[0] == 'b';
    assert !IsWhitespace(t[0]);
  }

  /** Creating a coupon that was already created returns it unchanged. */
  lemma CreateIdempotent(coupon: Coupon)
    requires CreateCoupon(coupon).Success?
    ensures CreateCoupon(CreateCoupon(coupon).value) == CreateCoupon(coupon)
  {
    var t := coupon.couponType.value;
    NormalizeIdempotent(t);
    KnownTagsNotBlank(Normalize(t));
  }

  function GetCouponById(store: Store, id: int): (r: Result<Coupon, ServiceError>)
    ensures r.Success? <==> id in store
    ensures r.Failure? ==> r.error == CouponNotFound(id)
    ensures r.Success? ==> r.value == store[id]
  {
    if id in store then Success(store[id]) else Failure(CouponNotFound(id))
  }

  /** Replaces type and details of a stored coupon, verbatim: the new tag is
      neither trimmed, lower-cased nor checked. The id is kept. */
  function UpdateCoupon(store: Store, id: int, updated: Coupon): (r: Result<(Store, Coupon), ServiceError>)
    ensures id !in store ==> r == Failure(CouponNotFound(id))
    ensures id in store && (updated.couponType.None? || updated.details.None?) ==>
      r == Failure(TypeAndDetailsRequired)
    ensures r.Success? <==> id in store && updated.couponType.Some? && updated.details.Some?
    ensures r.Success? ==>
      && r.value.1.id == store[id].id
      && r.value.1.couponType == updated.couponType
      && r.value.1.details == updated.details
      && r.value.0 == store[id := r.value.1]
  {
    var existing :- GetCouponById(store, id);
    if updated.couponType.None? || updated.details.None? then Failure(TypeAndDetailsRequired)
    else
      var saved := existing.(couponType := updated.couponType, details := updated.details);
      Success((store[id := saved], saved))
  }

  /** Reading an updated coupon back returns the saved coupon; every other id reads as before. */
  lemma UpdateThenGet(store: Store, id: int, updated: Coupon, other: int)
    requires UpdateCoupon(store, id, updated).Success?
    ensures var (s, saved) := UpdateCoupon(store, id, updated).value;
      && GetCouponById(s, id) == Success(saved)
      && (other != id ==> GetCouponById(s, other) == GetCouponById(store, other))
  {
  }

  function DeleteCoupon(store: Store, id: int): (r: Result<Store, ServiceError>)
    ensures r.Failure? <==> id !in store
    ensures r.Failure? ==> r.error == CouponNotFound(id)
    ensures r.Success? ==> id !in r.value && forall k :: k != id ==> (k in r.value <==> k in store)
    ensures r.Success? ==> forall k :: k in r.value ==> r.value[k] == store[k]
  {
    var existing :- GetCouponById(store, id);
    Success(store - {id})
  }

  /** A deleted coupon can no longer be read. */
  lemma DeleteThenGet(store: Store, id: int)
    requires DeleteCoupon(store, id).Success?
    ensures GetCouponById(DeleteCoupon(store, id).value, id) == Failure(CouponNotFound(id))
  {
  }

  /** The coupon's tag selects a strategy. */
  predicate Known(c: Coupon) {
    GetStrategy(c.couponType).Success?
  }

  predicate AllKnown(cs: seq<Coupon>) {
    forall i :: 0 <= i < |cs| ==> Known(cs[i])
  }

  /** Every coupon before position `i` has a known tag. */
  predicate KnownBefore(cs: seq<Coupon>, i: int) {
    forall j :: 0 <= j < i && j < |cs| ==> Known(cs[j])
  }

  /** The first coupon whose tag selects no strategy is at position `i`. */
  predicate FirstUnknown(cs: seq<Coupon>, i: int) {
    0 <= i < |cs| && !Known(cs[i]) && KnownBefore(cs, i)
  }

  /** A coupon with a known tag can be evaluated against the cart. */
  predicate CanEvaluate(c: Coupon, cart: Cart) {
    Known(c) ==> CanCalculate(GetStrategy(c.couponType).value, c, cart)
  }

  /** What listing needs: every coupon it reaches, that is every coupon up to
      the first unknown tag, can be evaluated. */
  predicate Evaluable(cs: seq<Coupon>, cart: Cart) {
    forall i :: 0 <= i < |cs| && KnownBefore(cs, i) ==> CanEvaluate(cs[i], cart)
  }

  /** The first `n` coupons have known tags and can be evaluated. */
  predicate ReadyUpTo(cs: seq<Coupon>, cart: Cart, n: int) {
    && 0 <= n <= |cs|
    && forall j :: 0 <= j < n ==> Known(cs[j]) && CanEvaluate(cs[j], cart)
  }

  /** The discount a coupon gives the cart under its own strategy. */
  function Discount(c: Coupon, cart: Cart): real
    requires Known(c) && CanEvaluate(c, cart)
  {
    CalculateDiscount(GetStrategy(c.couponType).value, c, cart)
  }

  /** The listing entry of a coupon. */
  function Entry(c: Coupon, cart: Cart): ApplicableCoupon
    requires Known(c) && CanEvaluate(c, cart)
  {
    ApplicableCoupon(c.id, c.couponType.value, Discount(c, cart))
  }

  /** The discount of each of the first `n` coupons, in order. */
  function Discounts(cs: seq<Coupon>, cart: Cart, n: int): (r: seq<real>)
    requires ReadyUpTo(cs, cart, n)
    ensures |r| == n
    ensures forall j :: 0 <= j < n ==> r[j] == Discount(cs[j], cart)
  {
    seq(n, j requires 0 <= j < n => Discount(cs[j], cart))
  }

  /** The positions below `n` of the positive entries of `ds`, ascending. */
  function PositiveBelow(ds: seq<real>, n: nat): (r: seq<nat>)
    requires n <= |ds|
    ensures |r| <= n
    ensures forall k :: 0 <= k < |r| ==> r[k] < n && ds[r[k]] > 0.0
    decreases n
  {
    if n == 0 then []
    else PositiveBelow(ds, n - 1) + (if ds[n - 1] > 0.0 then [n - 1] else [])
  }

  /** The positions of the positive entries of `ds`, ascending. */
  function Positive(ds: seq<real>): (r: seq<nat>)
    ensures |r| <= |ds|
    ensures forall k :: 0 <= k < |r| ==> r[k] < |ds| && ds[r[k]] > 0.0
  {
    PositiveBelow(ds, |ds|)
  }

  predicate Ascending(r: seq<nat>) {
    forall k, l :: 0 <= k < l < |r| ==> r[k] < r[l]
  }

  /** The positions below `n` are strictly ascending. */
  lemma {:induction false} PositiveBelowAscending(ds: seq<real>, n: nat)
    requires n <= |ds|
    ensures Ascending(PositiveBelow(ds, n))
    decreases n
  {
    if n > 0 {
      PositiveBelowAscending(ds, n - 1);
      AscendingSnoc(PositiveBelow(ds, n - 1), n - 1, ds[n - 1] > 0.0);
    }
  }

  /** Appending a position above all others keeps positions ascending. */
  lemma AscendingSnoc(p: seq<nat>, m: nat, keep: bool)
    requires Ascending(p) && forall k :: 0 <= k < |p| ==> p[k] < m
    ensures Ascending(p + (if keep then [m] else []))
  {
    if !keep {
      assert p + [] == p;
    }
  }

  /** The positions below `n` hold exactly the positive entries below `n`. */
  lemma {:induction false} PositiveBelowMembers(ds: seq<real>, n: nat)
    requires n <= |ds|
    ensures forall i :: 0 <= i < n ==> (i in PositiveBelow(ds, n) <==> ds[i] > 0.0)
    decreases n
  {
    if n > 0 {
      PositiveBelowMembers(ds, n - 1);
      MembersSnoc(ds, PositiveBelow(ds, n - 1), n - 1);
    }
  }

  /** Positions of the positive entries below `m`, plus `m` when its entry
      is positive, are the positions of the positive entries up to `m`. */
  lemma MembersSnoc(ds: seq<real>, p: seq<nat>, m: nat)
    requires m < |ds|
    requires forall k :: 0 <= k < |p| ==> p[k] < m
    requires forall i :: 0 <= i < m ==> (i in p <==> ds[i] > 0.0)
    ensures forall i :: 0 <= i <= m ==> (i in p + (if ds[m] > 0.0 then [m] else []) <==> ds[i] > 0.0)
  {
    assert m !in p;
    if ds[m] <= 0.0 {
      assert p + [] == p;
    }
  }

  /** The positions are strictly ascending and hold every positive entry. */
  lemma PositiveSpec(ds: seq<real>)
    ensures Ascending(Positive(ds))
    ensures forall i :: 0 <= i < |ds| ==> (i in Positive(ds) <==> ds[i] > 0.0)
  {
    PositiveBelowAscending(ds, |ds|);
    PositiveBelowMembers(ds, |ds|);
  }

  /** The positions below `n` depend only on the entries below `n`. */
  lemma {:induction false} PositiveBelowPrefix(ds: seq<real>, m: nat, n: nat)
    requires n <= m <= |ds|
    ensures PositiveBelow(ds[..m], n) == PositiveBelow(ds, n)
    decreases n
  {
    if n > 0 {
      PositiveBelowPrefix(ds, m, n - 1);
      assert ds[..m][n - 1] == ds[n - 1];
    }
  }

  /** One more position: `Positive` on a longer list extends the prefix's positions. */
  lemma PositiveUnfold(ds: seq<real>)
    requires |ds| > 0
    ensures Positive(ds) == Positive(ds[..|ds| - 1]) + (if ds[|ds| - 1] > 0.0 then [|ds| - 1] else [])
  {
    PositiveBelowPrefix(ds, |ds| - 1, |ds| - 1);
  }

  /** The discounts of one more coupon are the previous ones and its own. */
  lemma DiscountsStep(coupons: seq<Coupon>, cart: Cart, i: int)
    requires ReadyUpTo(coupons, cart, i) && i < |coupons|
    requires Known(coupons[i]) && CanEvaluate(coupons[i], cart)
    ensures ReadyUpTo(coupons, cart, i + 1)
    ensures Discounts(coupons, cart, i + 1) == Discounts(coupons, cart, i) + [Discount(coupons[i], cart)]
  {
  }

  /** The entry of each of the first `n` coupons, in order. */
  function Entries(cs: seq<Coupon>, cart: Cart, n: int): (r: seq<ApplicableCoupon>)
    requires ReadyUpTo(cs, cart, n)
    ensures |r| == n
    ensures forall j :: 0 <= j < n ==> r[j] == Entry(cs[j], cart)
  {
    seq(n, j requires 0 <= j < n => Entry(cs[j], cart))
  }

  /** The elements of `xs` whose paired value in `ds` is positive, in order. */
  function Pick<T>(xs: seq<T>, ds: seq<real>): seq<T>
    requires |xs| == |ds|
    decreases |ds|
  {
    if |ds| == 0 then []
    else
      var n := |ds| - 1;
      Pick(xs[..n], ds[..n]) + (if ds[n] > 0.0 then [xs[n]] else [])
  }

  /** `p` holds the elements of `xs` at the positions `idx`, in order. */
  ghost predicate PicksAt<T>(xs: seq<T>, idx: seq<nat>, p: seq<T>) {
    && |p| == |idx|
    && forall k :: 0 <= k < |idx| ==> idx[k] < |xs| && p[k] == xs[idx[k]]
  }

  /** Positions into a prefix of `xs` pick the same elements from `xs`. */
  lemma PicksAtWiden<T>(xs: seq<T>, n: nat, idx: seq<nat>, p: seq<T>)
    requires n <= |xs| && PicksAt(xs[..n], idx, p)
    ensures PicksAt(xs, idx, p)
  {
    forall k | 0 <= k < |idx|
      ensures idx[k] < |xs| && p[k] == xs[idx[k]]
    {
      assert xs[..n][idx[k]] == xs[idx[k]];
    }
  }

  /** Picking one more position, when it is kept, picks one more element. */
  lemma PicksAtExtend<T>(xs: seq<T>, idx: seq<nat>, p: seq<T>, n: nat, keep: bool)
    requires n < |xs| && PicksAt(xs, idx, p)
    ensures PicksAt(xs, idx + (if keep then [n] else []), p + (if keep then [xs[n]] else []))
  {
    if keep {
      var idx', p' := idx + [n], p + [xs[n]];
      forall k | 0 <= k < |idx'|
        ensures idx'[k] < |xs| && p'[k] == xs[idx'[k]]
      {
        if k < |idx| {
          assert idx'[k] == idx[k] && p'[k] == p[k];
        }
      }
    } else {
      assert idx + [] == idx && p + [] == p;
    }
  }

  /** Picking keeps exactly the elements at the positive positions, in order. */
  lemma {:induction false} PickSpec<T>(xs: seq<T>, ds: seq<real>)
    requires |xs| == |ds|
    ensures PicksAt(xs, Positive(ds), Pick(xs, ds))
    decreases |ds|
  {
    if |ds| > 0 {
      var n := |ds| - 1;
      PickSpec(xs[..n], ds[..n]);
      var idx, p := Positive(ds[..n]), Pick(xs[..n], ds[..n]);
      PicksAtWiden(xs, n, idx, p);
      PicksAtExtend(xs, idx, p, n, ds[n] > 0.0);
      PositiveUnfold(ds);
    }
  }

  /** The listing of the first `n` coupons: the entry of each coupon with a
      positive discount, in order. */
  function Listing(cs: seq<Coupon>, cart: Cart, n: int): seq<ApplicableCoupon>
    requires ReadyUpTo(cs, cart, n)
  {
    Pick(Entries(cs, cart, n), Discounts(cs, cart, n))
  }

  /** The listing holds, in input order, exactly the entries of the coupons
      whose discount is positive. */
  lemma ListingSpec(cs: seq<Coupon>, cart: Cart)
    requires ReadyUpTo(cs, cart, |cs|)
    ensures var idx := Positive(Discounts(cs, cart, |cs|));
      && |Listing(cs, cart, |cs|)| == |idx| <= |cs|
      && forall k :: 0 <= k < |idx| ==> Listing(cs, cart, |cs|)[k] == Entry(cs[idx[k]], cart)
  {
    var es, ds := Entries(cs, cart, |cs|), Discounts(cs, cart, |cs|);
    PickSpec(es, ds);
    assert PicksAt(es, Positive(ds), Pick(es, ds));
  }

  /** Listing one more coupon appends its entry when its discount is positive. */
  lemma ListingStep(cs: seq<Coupon>, cart: Cart, i: int)
    requires ReadyUpTo(cs, cart, i) && i < |cs|
    requires Known(cs[i]) && CanEvaluate(cs[i], cart)
    ensures ReadyUpTo(cs, cart, i + 1)
    ensures Listing(cs, cart, i + 1) ==
      Listing(cs, cart, i) + (if Discount(cs[i], cart) > 0.0 then [Entry(cs[i], cart)] else [])
  {
    DiscountsStep(cs, cart, i);
    var es := Entries(cs, cart, i + 1);
    assert es[..i] == Entries(cs, cart, i);
    assert Discounts(cs, cart, i + 1)[..i] == Discounts(cs, cart, i);
  }

  /** One coupon of the listing: its strategy's failure, its entry when its
      discount is positive, or nothing. */
  function Evaluate(c: Coupon, cart: Cart): (r: Result<Option<ApplicableCoupon>, ServiceError>)
    requires CanEvaluate(c, cart)
    ensures r.Failure? <==> !Known(c)
    ensures r.Failure? ==> r.error == StrategyFailure(GetStrategy(c.couponType).error)
    ensures r.Success? ==> (r.value.Some? <==> Discount(c, cart) > 0.0)
    ensures r.Success? && r.value.Some? ==> r.value.value == Entry(c, cart)
  {
    var strategy := GetStrategy(c.couponType);
    if strategy.Failure? then Failure(StrategyFailure(strategy.error))
    else
      var discount := CalculateDiscount(strategy.value, c, cart);
      if discount > 0.0 then Success(Some(ApplicableCoupon(c.id, c.couponType.value, discount)))
      else Success(None)
  }

  /** A coupon with an unknown tag reached after known ones is the first unknown. */
  lemma StopsAtUnknown(coupons: seq<Coupon>, cart: Cart, i: int)
    requires ReadyUpTo(coupons, cart, i) && i < |coupons| && !Known(coupons[i])
    ensures FirstUnknown(coupons, i) && !AllKnown(coupons)
  {
  }

  /** The coupon the listing reaches next can be evaluated. */
  lemma NextEvaluable(coupons: seq<Coupon>, cart: Cart, i: int)
    requires Evaluable(coupons, cart) && ReadyUpTo(coupons, cart, i) && i < |coupons|
    ensures CanEvaluate(coupons[i], cart)
  {
    assert KnownBefore(coupons, i);
  }

  /** The applicable coupons for a cart: in input order, exactly the coupons
      with a positive discount, each with its id, tag and discount. A coupon
      whose tag selects no strategy fails the whole listing. */
  method GetApplicableCoupons(coupons: seq<Coupon>, cart: Cart) returns (r: Result<seq<ApplicableCoupon>, ServiceError>)
    requires Evaluable(coupons, cart)
    ensures r.Success? <==> AllKnown(coupons)
    ensures r.Failure? ==>
      exists i :: FirstUnknown(coupons, i) && r.error == StrategyFailure(GetStrategy(coupons[i].couponType).error)
    ensures r.Success? ==> ReadyUpTo(coupons, cart, |coupons|) && r.value == Listing(coupons, cart, |coupons|)
  {
    var acc: seq<ApplicableCoupon> := [];
    var i := 0;
    while i < |coupons|
      invariant ReadyUpTo(coupons, cart, i)
      invariant acc == Listing(coupons, cart, i)
    {
      NextEvaluable(coupons, cart, i);
      var e := Evaluate(coupons[i], cart);
      if e.Failure? {
        StopsAtUnknown(coupons, cart, i);
        return Failure(e.error);
      }
      ListingStep(coupons, cart, i);
      if e.value.Some? {
        acc := acc + [e.value.value];
      }
      i := i + 1;
    }
    return Success(acc);
  }

  /** What "apply coupon" needs: a known coupon on a cart with items can be evaluated. */
  predicate ApplyDefined(store: Store, couponId: int, cart: Option<Cart>) {
    couponId in store && cart.Some? && cart.value.items.Some? ==> CanEvaluate(store[couponId], cart.value)
  }

  /** Prices a cart with one stored coupon: subtotal, the strategy's discount,
      and subtotal minus discount. The items come back as given: the
      strategy's per-line bookkeeping is not run. */
  function ApplyCoupon(store: Store, couponId: int, cart: Option<Cart>): (r: Result<UpdatedCart, ServiceError>)
    requires ApplyDefined(store, couponId, cart)
    ensures couponId !in store ==> r == Failure(CouponNotFound(couponId))
    ensures couponId in store && (cart.None? || cart.value.items.None?) ==>
      r == Success(UpdatedCart([], 0.0, 0.0, 0.0))
    ensures couponId in store && cart.Some? && cart.value.items.Some? ==>
      && (r.Success? <==> Known(store[couponId]))
      && (r.Failure? ==> r.error == StrategyFailure(GetStrategy(store[couponId].couponType).error))
      && (r.Success? ==>
            && r.value.items == cart.value.items.value
            && r.value.totalPrice == Subtotal(cart.value.items.value)
            && r.value.totalDiscount == Discount(store[couponId], cart.value)
            && r.value.finalPrice + r.value.totalDiscount == r.value.totalPrice)
  {
    var coupon :- GetCouponById(store, couponId);
    if cart.None? || cart.value.items.None? then Success(UpdatedCart([], 0.0, 0.0, 0.0))
    else
      var strategy := GetStrategy(coupon.couponType);
      if strategy.Failure? then Failure(StrategyFailure(strategy.error))
      else
        var discount := CalculateDiscount(strategy.value, coupon, cart.value);
        var totalPrice := Subtotal(cart.value.items.value);
        Success(UpdatedCart(cart.value.items.value, totalPrice, discount, totalPrice - discount))
  }

  /** A cart-wise coupon never raises the price, and when it applies the
      final price is the subtotal less the percentage. */
  lemma CartWisePricing(store: Store, couponId: int, cart: Cart)
    requires couponId in store && cart.items.Some?
    requires GetStrategy(store[couponId].couponType) == Success(CartWiseStrategy)
    requires CartWise.Fits(store[couponId])
    ensures var r := ApplyCoupon(store, couponId, Some(cart));
      && r.Success?
      && r.value.finalPrice <= r.value.totalPrice
      && (CartWise.Qualifies(store[couponId], cart) ==>
            r.value.finalPrice == r.value.totalPrice * (1.0 - store[couponId].details.value.cartWise.discount.value / 100.0))
  {
  }

  /** For a product-wise coupon the discount the service reports is the sum
      the strategy's apply writes on the target lines. */
  lemma ProductWiseReportMatchesLines(store: Store, couponId: int, cart: Cart)
    requires couponId in store
    requires GetStrategy(store[couponId].couponType) == Success(ProductWiseStrategy)
    requires ProductWise.Fits(store[couponId]) && ProductWise.Targeted(store[couponId], cart)
    ensures ApplyCoupon(store, couponId, Some(cart)).value.totalDiscount
      == ProductWise.MatchedDiscount(ProductWise.ApplyCoupon(store[couponId], cart).items.value, ProductWise.Target(store[couponId]))
  {
    ProductWise.ApplyMatchesCalculate(store[couponId], cart);
  }

  /** Lines of 2 x 50 and 1 x 100 with a 15% cart-wise coupon over 100:
      total 200, discount 30, final 170. */
  lemma ExampleApply()
    ensures var store := map[1 := Coupon(Some(1), Some("cart-wise"), Some(CartWiseRule(CartWiseDetails(Some(100.0), Some(15.0)))))];
      ApplyCoupon(store, 1, Some(Cart(Some([NewItem(1, 2, 50.0), NewItem(2, 1, 100.0)]))))
        == Success(UpdatedCart([NewItem(1, 2, 50.0), NewItem(2, 1, 100.0)], 200.0, 30.0, 170.0))
  {
    var items := [NewItem(1, 2, 50.0), NewItem(2, 1, 100.0)];
    assert Subtotal(items) == 200.0;
    assert Lower("cart-wise") == "cart-wise";
  }
}
