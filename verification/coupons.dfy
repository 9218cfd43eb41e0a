/** Coupon records and the three rule shapes their `details` decode to,
    plus the values the service hands back. */
module Coupons {
  import opened Wrappers
  import opened Carts

  /** Cart-wise rule: a percentage off the whole cart once its subtotal
      reaches a threshold. */
  datatype CartWiseDetails = CartWiseDetails(threshold: Option<real>, discount: Option<real>)

  /** Product-wise rule: a percentage off every line of one product. */
  datatype ProductWiseDetails = ProductWiseDetails(productId: Option<int>, discount: Option<real>)

  /** One entry of a buy or get list: a product and a quantity. */
  datatype BxGyProduct = BxGyProduct(productId: int, quantity: int)

  /** Buy-X-get-Y rule: buy and get lists and a cap on repetitions. */
  datatype BxGyDetails = BxGyDetails(
    buyProducts: Option<seq<BxGyProduct>>,
    getProducts: Option<seq<BxGyProduct>>,
    repetitionLimit: Option<int>)

  /** A coupon's `details`, already decoded into the shape of one rule. */
  datatype Details =
    | CartWiseRule(cartWise: CartWiseDetails)
    | ProductWiseRule(productWise: ProductWiseDetails)
    | BxGyRule(bxgy: BxGyDetails)

  /** A stored coupon: id (absent before the store assigns one), type tag and rule. */
  datatype Coupon = Coupon(id: Option<int>, couponType: Option<string>, details: Option<Details>)

  /** One entry of the applicable-coupons listing. */
  datatype ApplicableCoupon = ApplicableCoupon(couponId: Option<int>, couponType: string, discount: real)

  /** The cart returned by "apply coupon" with its totals. */
  datatype UpdatedCart = UpdatedCart(items: seq<CartItem>, totalPrice: real, totalDiscount: real, finalPrice: real)
}
