/** Chooses the discount strategy for a coupon's type tag, and evaluates a
    coupon with the chosen strategy. */
module StrategyFactory {
  import opened Wrappers
  import opened Text
  import opened Carts
  import opened Coupons
  import CartWise
  import ProductWise
  import BxGy

  datatype Strategy = CartWiseStrategy | ProductWiseStrategy | BxGyStrategy

  /** Why no strategy could be chosen. `UnknownType` keeps the tag as given. */
  datatype FactoryError = NullType | UnknownType(tag: string)

  /** The lowercase tag each strategy answers to. */
  function Tag(s: Strategy): string {
    match s
    case CartWiseStrategy => "cart-wise"
    case ProductWiseStrategy => "product-wise"
    case BxGyStrategy => "bxgy"
  }

  const KnownTags: set<string> := {"cart-wise", "product-wise", "bxgy"}

  function GetStrategy(couponType: Option<string>): (r: Result<Strategy, FactoryError>)
    ensures couponType.None? ==> r == Failure(NullType)
    ensures couponType.Some? ==> (r.Success? <==> Lower(couponType.value) in KnownTags)
    ensures r.Success? ==> Tag(r.value) == Lower(couponType.value)
    ensures couponType.Some? && r.Failure? ==> r.error == UnknownType(couponType.value)
  {
    if couponType.None? then Failure(NullType)
    else
      var normalized := Lower(couponType.value);
      if normalized == "cart-wise" then Success(CartWiseStrategy)
      else if normalized == "product-wise" then Success(ProductWiseStrategy)
      else if normalized == "bxgy" then Success(BxGyStrategy)
      else Failure(UnknownType(couponType.value))
  }

  /** Each strategy's own tag selects it: dispatch inverts `Tag`. */
  lemma TagSelectsStrategy(s: Strategy)
    ensures GetStrategy(Some(Tag(s))) == Success(s)
  {
    LowerIdempotent(Tag(s));
  }

  /** Case does not matter: a tag and its lower-case form select the same
      strategy or both fail. */
  lemma CaseInsensitive(t: string)
    ensures GetStrategy(Some(t)).Success? <==> GetStrategy(Some(Lower(t))).Success?
    ensures GetStrategy(Some(t)).Success? ==> GetStrategy(Some(t)) == GetStrategy(Some(Lower(t)))
  {
    LowerIdempotent(t);
  }

  /** Among lower-case tags exactly the three known ones succeed. */
  lemma ExactlyThreeTags(t: string)
    requires Lower(t) == t
    ensures GetStrategy(Some(t)).Success? <==> t in KnownTags
  {
  }

  /** Tags are not trimmed: an empty tag, or one with a leading or trailing
      space or control character, fails. */
  lemma PaddedTagFails(t: string)
    requires |t| == 0 || Trimmable(t[0]) || Trimmable(t[|t| - 1])
    ensures GetStrategy(Some(t)).Failure?
  {
    var l := Lower(t);
    if |t| > 0 {
      assert l[0] == LowerChar(t[0]) && l[|l| - 1] == LowerChar(t[|t| - 1]);
      assert "cart-wise"[0] == 'c' && "cart-wise"[8] == 'e';
      assert "product-wise"[0] == 'p' && "product-wise"[11] == 'e';
      assert "bxgy"[0] == 'b' && "bxgy"[3] == 'y';
    }
  }

  /** The coupon's details, when present, have the shape the strategy
      decodes, and the strategy can evaluate it against the cart without an
      exception. */
  predicate CanCalculate(s: Strategy, coupon: Coupon, cart: Cart) {
    match s
    case CartWiseStrategy => CartWise.Fits(coupon)
    case ProductWiseStrategy => ProductWise.Fits(coupon)
    case BxGyStrategy => BxGy.CalculateDefined(coupon, cart)
  }

  /** `calculateDiscount` of the chosen strategy. Every strategy gives 0 to
      a coupon without details and to a cart without lines; the cart-wise
      one never gives a negative discount. */
  function CalculateDiscount(s: Strategy, coupon: Coupon, cart: Cart): (r: real)
    requires CanCalculate(s, coupon, cart)
    ensures coupon.details.None? || cart.items.None? || |cart.items.value| == 0 ==> r == 0.0
    ensures s == CartWiseStrategy ==> r >= 0.0
  {
    match s
    case CartWiseStrategy => CartWise.CalculateDiscount(coupon, cart)
    case ProductWiseStrategy => ProductWise.CalculateDiscount(coupon, cart)
    case BxGyStrategy => BxGy.CalculateDiscount(coupon, cart)
  }
}
