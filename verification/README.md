# Coupon rule engine — a Dafny model

This project models the rule engine of a coupon service for shopping carts.
A cart is an ordered list of lines (product id, quantity, unit price, and a
per-line `totalDiscount`). A coupon has a type tag and rule details. There
are three discount strategies:

- **cart-wise**: a percentage of the cart subtotal, once the subtotal reaches
  a threshold;
- **product-wise**: a percentage off every line of one target product;
- **bxgy** (buy X, get Y): for every full batch of a buy product, some units
  of a get product are free, up to a repetition limit.

Each strategy has a pure `calculateDiscount` and an `applyCoupon`. Here
`applyCoupon` returns a new line sequence instead of mutating the cart. A
factory maps a type tag (lower-cased, not trimmed) to a strategy. The service
around the engine does four things:

- validates and normalises tags on create;
- updates and deletes coupons in a store modelled as a `map<int, Coupon>`;
- lists the coupons that give a cart a positive discount;
- prices a cart with one coupon.

Modules, one per file:

| file | module | models |
|---|---|---|
| wrappers.dfy | Wrappers | `Option` for Java `null`, `Result` for thrown exceptions |
| text.dfy | Text | `toLowerCase` (ASCII), `trim`, `isBlank` |
| carts.dfy | Carts | `Cart`, `CartItem`, subtotal and discount sums |
| coupons.dfy | Coupons | `Coupon`, the three rule shapes, `ApplicableCoupon`, the updated cart |
| cart_wise.dfy | CartWise | `CartWiseStrategy` |
| product_wise.dfy | ProductWise | `ProductWiseStrategy` |
| bxgy.dfy | BxGy | `BxGyStrategy` |
| strategy_factory.dfy | StrategyFactory | `CouponStrategyFactory` and the strategy interface |
| coupon_service.dfy | CouponService | `CouponServiceImpl` |

Representation choices:

- Prices, percentages and discounts are `real`, so the arithmetic is exact.
- Quantities, product ids, coupon ids and repetition limits are `int`.
- Every field the code null-checks is an `Option`.
- A coupon's `details` is already decoded into one of the three rule shapes
  (`Details`).
- Each strategy requires that the details, when present, have its own shape
  (`Fits`). Neither `createCoupon` nor `updateCoupon` checks the shape, so
  a coupon can hold details of another shape. What `convertValue` then does
  depends on how the injected `ObjectMapper` treats unknown properties, and
  no file of the repository configures it: see "Left out".

Preconditions that stand in for Java runtime failures:

- `BxGy.CalculateDefined`: `calculateDiscount` divides by the buy quantity and
  unboxes the repetition limit, but only once the buy quantity is met
  (`BxGyStrategy.java:42-47`). The precondition asks for a non-zero buy
  quantity and a present limit on that path only. Java's truncating `/` is
  modelled as `JavaDiv`, so negative buy quantities are allowed.
- `BxGy.ApplyDefined`: `applyCoupon` does the same division as soon as both
  lists have an entry (`BxGyStrategy.java:93`). It also needs an item list:
  its early-exit branch (`BxGyStrategy.java:72`) calls `forEach` on the item
  list it has just found null (line 73), so a null list always throws.
- `CouponService.Evaluable`: listing only evaluates coupons up to the first
  unknown tag. Only those coupons need to be evaluable.

Behaviour of the Java code that the model keeps as it is:

- `CouponServiceImpl.applyCoupon` never calls a strategy's `applyCoupon`. The
  response carries the request's items unchanged, with the totals
  (`CouponServiceImpl.java:133-138`).
- The factory rejects an empty tag as an unknown type. Only a `null` tag gets
  its own error.
- `updateCoupon` stores the new tag verbatim, without trimming, lower-casing
  or checking it. The factory lower-cases on every lookup, so an upper-case
  tag still dispatches. An unknown tag makes every later listing fail.
- `CartItem.java` declares no `totalDiscount` field, but every strategy
  writes one. The model gives `CartItem` that field, 0 on a fresh line
  (`Carts.NewItem`).

## Model

| member | source | states |
|---|---|---|
| Text.TrimStart | src/main/java/com/monk/coupons/service/impl/CouponServiceImpl.java:39 | the result is a suffix of the input; everything dropped is at or below U+0020 and the kept part does not start with such a character |
| Text.TrimEnd | src/main/java/com/monk/coupons/service/impl/CouponServiceImpl.java:39 | the result is a prefix of the input; everything dropped is at or below U+0020 and the kept part does not end with such a character |
| Text.Lower | src/main/java/com/monk/coupons/service/strategy/CouponStrategyFactory.java:20 | same length; every character is lower-cased on its own: A–Z move to a–z, every other character is kept, and no upper-case ASCII letter remains |
| Text.LowerIdempotent | src/main/java/com/monk/coupons/service/strategy/CouponStrategyFactory.java:20 | lower-casing a lower-cased tag changes nothing |
| Text.IsBlank | src/main/java/com/monk/coupons/service/impl/CouponServiceImpl.java:31 | the empty string is blank, and an ASCII blank string is one that trimming empties, because all ASCII white space is at or below U+0020 |
| Text.Trim | src/main/java/com/monk/coupons/service/impl/CouponServiceImpl.java:39 | the result is the slice of the input that starts right after the leading characters at or below U+0020; everything before and after that slice is at or below U+0020, and the result neither starts nor ends with such a character |
| Text.Normalize | src/main/java/com/monk/coupons/service/impl/CouponServiceImpl.java:39 | the normalised tag is, character by character, the lower-cased slice of the input starting right after its leading characters at or below U+0020; everything of the input around that slice is at or below U+0020; the tag has no upper-case ASCII letter and neither starts nor ends with a character at or below U+0020 |
| Text.LowerOfTrimIsNormal | src/main/java/com/monk/coupons/service/impl/CouponServiceImpl.java:39 | lower-casing the trimmed tag, the order `createCoupon` uses, gives exactly that normal form |
| Text.NormalizeIdempotent | src/main/java/com/monk/coupons/service/impl/CouponServiceImpl.java:39 | trim-then-lower-case applied twice equals applied once |
| Carts.ResetDiscounts | src/main/java/com/monk/coupons/service/strategy/CartWiseStrategy.java:46-48 | the `forEach` that zeroes every line's discount (also `BxGyStrategy.java:73`, `81` and `96`): same length, every line keeps its product id, quantity and price, and every discount is 0 |
| Carts.Subtotal | src/main/java/com/monk/coupons/service/impl/CouponServiceImpl.java:127-129 | no contract of its own: the sum of price × quantity over the lines, in order, as both `CartWiseStrategy.java:32-34` and this total compute it; SubtotalNonNegative, SubtotalPermutation and SubtotalOnlyLineTotals state its properties |
| Carts.SubtotalNonNegative | src/main/java/com/monk/coupons/service/impl/CouponServiceImpl.java:127-129 | lines without a negative price or quantity give a non-negative subtotal, and no lines give 0 |
| Carts.SubtotalPermutation | src/main/java/com/monk/coupons/service/strategy/CartWiseStrategy.java:32-34 | the price-times-quantity sum is the same for any reordering of the lines |
| Carts.SubtotalOnlyLineTotals | src/main/java/com/monk/coupons/service/strategy/CartWiseStrategy.java:32-34 | the subtotal depends on each line's price times quantity only, not on product ids or written discounts |
| Carts.TotalDiscountUpdate | src/main/java/com/monk/coupons/service/strategy/BxGyStrategy.java:111-114 | rewriting one line's discount shifts the discount sum by exactly the change on that line |
| CartWise.CalculateDiscount | src/main/java/com/monk/coupons/service/strategy/CartWiseStrategy.java:18-41 | the discount is never negative; it is positive exactly when details are present, the cart has lines, threshold and percentage are present and positive, and the subtotal reaches the threshold; it is then subtotal × percentage / 100 |
| CartWise.InvalidRuleNoDiscount | src/main/java/com/monk/coupons/service/strategy/CartWiseStrategy.java:28-29 | an absent or non-positive threshold or percentage gives 0 whatever the cart |
| CartWise.DiscountIgnoresOrder | src/main/java/com/monk/coupons/service/strategy/CartWiseStrategy.java:32-34 | carts holding the same lines in any order get the same discount |
| CartWise.DiscountOnlyLineTotals | src/main/java/com/monk/coupons/service/strategy/CartWiseStrategy.java:32-34 | carts whose lines agree on price × quantity get the same discount, whatever their product ids |
| CartWise.ApplyCoupon | src/main/java/com/monk/coupons/service/strategy/CartWiseStrategy.java:44-50 | every line's discount becomes 0; length, order, product id, quantity and price are kept; an absent item list stays absent |
| CartWise.ApplyIdempotent | src/main/java/com/monk/coupons/service/strategy/CartWiseStrategy.java:46-48 | applying twice equals applying once |
| CartWise.ApplyLeavesNoLineDiscount | src/main/java/com/monk/coupons/service/strategy/CartWiseStrategy.java:45-48 | after applying, the line discounts sum to 0: the cart-wise discount is never attributed to lines |
| CartWise.ExampleThresholdMet | src/test/java/com/monk/coupons/service/strategy/CartWiseStrategyTest.java:27-46 | a subtotal of 150 against threshold 100 at 10% gives 15 |
| CartWise.ExampleBelowThreshold | src/test/java/com/monk/coupons/service/strategy/CartWiseStrategyTest.java:52-70 | a subtotal of 50 against threshold 100 gives 0 |
| CartWise.ExampleNegativeRule | src/test/java/com/monk/coupons/service/strategy/CartWiseStrategyTest.java:114-129 | threshold -10 with percentage -5 gives 0 |
| ProductWise.CalculateDiscount | src/main/java/com/monk/coupons/service/strategy/ProductWiseStrategy.java:19-39 | with details, lines, target id and percentage present, the discount is the percentage of the subtotal of the target product's lines; otherwise 0 |
| ProductWise.MatchingSum | src/main/java/com/monk/coupons/service/strategy/ProductWiseStrategy.java:35-38 | no contract of its own: the stream that keeps the target product's lines and sums price × quantity × rate; MatchingSumIsRateOfSubtotal states that it equals the rate times the subtotal of the matching lines |
| ProductWise.MatchingSumIsRateOfSubtotal | src/main/java/com/monk/coupons/service/strategy/ProductWiseStrategy.java:35-38 | summing price × quantity × rate over matching lines equals rate × the matching lines' subtotal |
| ProductWise.MatchingEmpty | src/main/java/com/monk/coupons/service/strategy/ProductWiseStrategy.java:35-36 | a cart without a line of the target product has no matching line |
| ProductWise.NoMatchNoDiscount | src/test/java/com/monk/coupons/service/strategy/ProductWiseStrategyTest.java:51-70 | a cart without a line of the target product gets 0 |
| ProductWise.ZeroPercentNoDiscount | src/test/java/com/monk/coupons/service/strategy/ProductWiseStrategyTest.java:115-132 | a 0% rule gives 0 |
| ProductWise.OtherProductsIrrelevant | src/main/java/com/monk/coupons/service/strategy/ProductWiseStrategy.java:35-38 | carts with the same target-product lines get the same discount, whatever else they hold |
| ProductWise.AddOtherLine | src/main/java/com/monk/coupons/service/strategy/ProductWiseStrategy.java:35-38 | inserting a line of another product anywhere leaves the discount unchanged |
| ProductWise.WriteDiscounts | src/main/java/com/monk/coupons/service/strategy/ProductWiseStrategy.java:58-65 | each target line gets price × quantity × rate as its discount; every other line, its discount included, is unchanged; no quantity, price, id, length or order changes |
| ProductWise.ApplyCoupon | src/main/java/com/monk/coupons/service/strategy/ProductWiseStrategy.java:42-68 | with details, lines, target id or percentage missing the cart comes back unchanged; otherwise only the target lines' discounts are written |
| ProductWise.ApplyMatchesCalculate | src/main/java/com/monk/coupons/service/strategy/ProductWiseStrategy.java:35-63 | after applying, the discounts on the target lines add up to the calculated discount |
| ProductWise.ExampleTwoLines | src/test/java/com/monk/coupons/service/strategy/ProductWiseStrategyTest.java:27-46 | 2 × 100 at 20% gives 40, and applying leaves the other line's discount as it was |
| BxGy.BoughtQuantity | src/main/java/com/monk/coupons/service/strategy/BxGyStrategy.java:37-40 | the bought quantity (also `BxGyStrategy.java:88-91`) is 0 when no line matches the product under the given comparison, and never negative when no line's quantity is |
| BxGy.FreeQuantity | src/main/java/com/monk/coupons/service/strategy/BxGyStrategy.java:88-94 | 0 when the offer is not evaluated; compared by value, once the buy quantity is met, exactly the repetitions `calculateDiscount` grants times the get quantity; compared by reference, 0 when the buy id is outside the box cache and the limit is not negative |
| BxGy.ApplyWith | src/main/java/com/monk/coupons/service/strategy/BxGyStrategy.java:88-114 | for either comparison: length, ids and prices are kept; every line's discount is reset, except that with free units and a line of the get product, the first such line alone gains the free units and a discount of their price |
| BxGy.Credit | src/main/java/com/monk/coupons/service/strategy/BxGyStrategy.java:111-114 | crediting the free line after the reset: same length; that line keeps its product id and price, gains the free units in quantity and gets their price as its discount; every other line keeps its goods and has discount 0 |
| BxGy.FirstLineOf | src/main/java/com/monk/coupons/service/strategy/BxGyStrategy.java:56-59 | the index of the first line of a product, absent exactly when no line has that product |
| BxGy.JavaDiv | src/main/java/com/monk/coupons/service/strategy/BxGyStrategy.java:47 | Java's `int` division for a non-zero divisor, truncating toward zero, for all four sign combinations: the quotient of the magnitudes, negated exactly when dividend and divisor have opposite signs |
| BxGy.Repetitions | src/main/java/com/monk/coupons/service/strategy/BxGyStrategy.java:46-47 | the repetition count is at most the limit and at most the number of full buy batches, and equals one of them |
| BxGy.CalculateDiscount | src/main/java/com/monk/coupons/service/strategy/BxGyStrategy.java:16-66 | 0 when details, lines or either list is missing, when the bought quantity is below the buy quantity, when repetitions are not positive, or when no line has the get product; otherwise repetitions × get quantity × the price of the first get line |
| BxGy.OnlyFirstEntriesCount | src/main/java/com/monk/coupons/service/strategy/BxGyStrategy.java:30-31 | coupons agreeing on the first buy entry, the first get entry and the limit give every cart the same discount |
| BxGy.ApplyCoupon | src/main/java/com/monk/coupons/service/strategy/BxGyStrategy.java:69-117 | every line's discount is reset to 0; when there are free units and a get line, the first get line alone gains them in quantity and gets their price as its discount; length, order, ids and prices are kept |
| BxGy.FreeOnlyWhenCalculated | src/main/java/com/monk/coupons/service/strategy/BxGyStrategy.java:42-99 | with a positive buy quantity and a non-negative get quantity, `applyCoupon` hands out free units only when `calculateDiscount` grants repetitions, and then the same number of units |
| BxGy.ApplyMatchesCalculate | src/main/java/com/monk/coupons/service/strategy/BxGyStrategy.java:46-114 | with a positive buy quantity and a non-negative get quantity, the line discounts after applying add up to the calculated discount |
| BxGy.ApplyCouponAsWritten | src/main/java/com/monk/coupons/service/strategy/BxGyStrategy.java:88-109 | with ids compared by reference, a get product outside the box cache is never found, and a buy product outside it is never counted (with a non-negative limit); either way the cart only has its discounts reset |
| BxGy.AsWrittenInsideCache | src/main/java/com/monk/coupons/service/strategy/BxGyStrategy.java:88-114 | when both the buy id and the get id are inside the box cache, the as-written apply equals the corrected one |
| BxGy.AsWrittenDropsDiscount | src/main/java/com/monk/coupons/service/strategy/BxGyStrategy.java:102-109 | a cart credited a positive discount gets no line discount from the as-written apply when the get id is outside the box cache |
| BxGy.ExampleTwoRepetitions | src/test/java/com/monk/coupons/service/strategy/BxGyStrategyTest.java:27-51 | buying 4 on buy 2 get 1 at price 30 gives 60 |
| BxGy.ExampleLimitCaps | src/test/java/com/monk/coupons/service/strategy/BxGyStrategyTest.java:103-124 | buying 10 with limit 2 still gives 60 |
| BxGy.ExampleFreeProductMissing | src/test/java/com/monk/coupons/service/strategy/BxGyStrategyTest.java:80-97 | the buy quantity is met but the get product is absent: 0 |
| BxGy.ExampleLargeIds | src/main/java/com/monk/coupons/service/strategy/BxGyStrategy.java:88-114 | with ids 200 and 300 the calculated discount is 60; the corrected apply adds 2 units credited 60, the as-written apply changes nothing |
| StrategyFactory.GetStrategy | src/main/java/com/monk/coupons/service/strategy/CouponStrategyFactory.java:14-28 | a null tag fails as null; otherwise it succeeds exactly when the lower-cased tag is one of the three, selects the strategy with that tag, and fails with the tag as given |
| StrategyFactory.CalculateDiscount | src/main/java/com/monk/coupons/service/impl/CouponServiceImpl.java:92 | the call through the strategy interface: every strategy gives 0 to a coupon without details or a cart without lines, and the cart-wise one is never negative |
| StrategyFactory.TagSelectsStrategy | src/main/java/com/monk/coupons/service/strategy/CouponStrategyFactory.java:22-25 | "cart-wise", "product-wise" and "bxgy" select their strategies |
| StrategyFactory.CaseInsensitive | src/main/java/com/monk/coupons/service/strategy/CouponStrategyFactory.java:20 | a tag and its lower-case form both fail or select the same strategy |
| StrategyFactory.ExactlyThreeTags | src/main/java/com/monk/coupons/service/strategy/CouponStrategyFactory.java:22-26 | a lower-case tag succeeds exactly when it is one of the three |
| StrategyFactory.PaddedTagFails | src/main/java/com/monk/coupons/service/strategy/CouponStrategyFactory.java:20-26 | the empty tag and tags with a leading or trailing space or control character fail |
| CouponService.CreateCoupon | src/main/java/com/monk/coupons/service/impl/CouponServiceImpl.java:29-53 | a null or blank tag fails first, then null details; it succeeds exactly when the trimmed lower-cased tag is known, storing that tag and nothing else changed, and the stored tag dispatches to its own strategy |
| CouponService.CreateIdempotent | src/main/java/com/monk/coupons/service/impl/CouponServiceImpl.java:39-50 | creating an already created coupon returns it unchanged |
| CouponService.GetCouponById | src/main/java/com/monk/coupons/service/impl/CouponServiceImpl.java:61-64 | succeeds exactly for stored ids with the stored coupon; otherwise fails with not-found for that id |
| CouponService.UpdateCoupon | src/main/java/com/monk/coupons/service/impl/CouponServiceImpl.java:67-78 | not-found for a missing id, checked first; then fails if tag or details is null; otherwise replaces both verbatim, keeps the id, and changes only that entry of the store |
| CouponService.UpdateThenGet | src/main/java/com/monk/coupons/service/impl/CouponServiceImpl.java:67-78 | reading back an updated id gives the saved coupon; other ids read as before |
| CouponService.DeleteCoupon | src/main/java/com/monk/coupons/service/impl/CouponServiceImpl.java:82-84 | not-found for a missing id; otherwise removes exactly that id |
| CouponService.DeleteThenGet | src/main/java/com/monk/coupons/service/impl/CouponServiceImpl.java:82-84 | a deleted id reads as not-found |
| CouponService.Positive | src/main/java/com/monk/coupons/service/impl/CouponServiceImpl.java:94-104 | the positions the listing keeps: no more positions than discounts, each in range and holding a positive discount |
| CouponService.PositiveSpec | src/main/java/com/monk/coupons/service/impl/CouponServiceImpl.java:94-104 | those positions are strictly ascending and contain a position exactly when the discount there is positive |
| CouponService.Evaluate | src/main/java/com/monk/coupons/service/impl/CouponServiceImpl.java:90-101 | one coupon of the listing: an unknown tag gives that tag's strategy error; otherwise the coupon yields its entry (id, tag, discount) exactly when its discount is positive, and nothing otherwise |
| CouponService.PickSpec | src/main/java/com/monk/coupons/service/impl/CouponServiceImpl.java:94-104 | dropping the entries whose discount is not positive keeps, in order, exactly the entries at the positive positions |
| CouponService.Listing | src/main/java/com/monk/coupons/service/impl/CouponServiceImpl.java:89-104 | no contract of its own: the stream that maps each coupon to its entry or `null` and drops the `null`s; ListingSpec and ListingStep state what it holds |
| CouponService.ListingStep | src/main/java/com/monk/coupons/service/impl/CouponServiceImpl.java:89-104 | listing one more coupon appends its entry when its discount is positive and leaves the listing as it was otherwise |
| CouponService.GetApplicableCoupons | src/main/java/com/monk/coupons/service/impl/CouponServiceImpl.java:87-107 | fails exactly when some tag is unknown, with the first unknown tag's error; otherwise returns the listing of all coupons (ListingSpec says what that holds) |
| CouponService.ListingSpec | src/main/java/com/monk/coupons/service/impl/CouponServiceImpl.java:89-104 | the listing holds, in input order, one entry (id, tag, discount) per coupon with positive discount and no others, never more entries than coupons |
| CouponService.ApplyCoupon | src/main/java/com/monk/coupons/service/impl/CouponServiceImpl.java:110-141 | not-found for a missing id; a null cart or item list gives empty items and zero totals; otherwise fails exactly for an unknown tag, else returns the items unchanged, the subtotal, the strategy's discount, and final = subtotal − discount |
| CouponService.CartWisePricing | src/main/java/com/monk/coupons/service/impl/CouponServiceImpl.java:124-131 | a cart-wise coupon never makes the final price exceed the subtotal, and when it applies the final price is the subtotal less the percentage |
| CouponService.ProductWiseReportMatchesLines | src/main/java/com/monk/coupons/service/impl/CouponServiceImpl.java:124-138 | for a product-wise coupon the reported discount equals the sum the strategy's apply writes on the target lines |
| CouponService.ExampleApply | src/test/java/com/monk/coupons/service/impl/CouponServiceImplTest.java:250-275 | lines worth 200 with a 15% cart-wise coupon give totals 200, 30 and 170 |

## Findings

| source | as written | input that shows it | evidently intended | confidence | as-written member | corrected member |
|---|---|---|---|---|---|---|
| src/main/java/com/monk/coupons/service/strategy/BxGyStrategy.java:89 | `applyCoupon` matches lines with `i.getProductId() == buy.getProductId()` and `i.getProductId() == get.getProductId()` (line 103). Both sides are `Integer`, so `==` compares object identity, and equal values outside the default box cache (-128..127) are different objects. | lines (200, qty 4, 50) and (300, qty 10, 30); buy 2 of 200, get 1 of 300, limit 5: `calculateDiscount` gives 60, `applyCoupon` finds no buy or get line and adds no free units | compare the numbers, as `calculateDiscount` does after unboxing into `int` (lines 33-34) | high (assumes the default box cache; not executed) | BxGy.ApplyCouponAsWritten, BxGy.AsWrittenDropsDiscount | BxGy.ApplyCoupon, BxGy.ApplyMatchesCalculate |

## Left out

- HTTP controllers, error-response formatting and API documentation: routing and envelopes, no rule logic.
- JSON conversion of `details` (`JsonNodeConverter`, `ObjectMapper.convertValue`): `details` is modelled already decoded, and each strategy's `Fits` precondition excludes details of another shape. For such details the outcome depends on the mapper's configuration, which no file of the repository sets: a mapper that fails on unknown properties throws, and one that ignores them (Spring Boot's default) leaves absent only the fields the JSON lacks; fields the shapes share, such as `discount`, still decode. Each strategy's own field check then stops it: `calculateDiscount` returns 0 (CartWiseStrategy.java:28, ProductWiseStrategy.java:28, BxGyStrategy.java:25-26), the product-wise `applyCoupon` returns the cart unchanged (ProductWiseStrategy.java:51-52), and the BxGy `applyCoupon` resets every line's discount (BxGyStrategy.java:79-82). Neither the exception nor these outcomes are modelled.
- Persistence: the store is a map from id to coupon. `getAllCoupons` is a plain read of the store and the listing takes that read as its argument. `createCoupon` returns the coupon to be saved; id assignment by the database is not modelled.
- The response wrappers `ApplicableCouponsResponse` and `ApplyCouponResponse`: they only wrap the listing and the updated cart.
- Exception messages: errors are datatype variants. `UnknownType` keeps the tag as given, which is what the message shows.
- IEEE `double` rounding: prices and discounts are exact reals.
- Java `int` overflow in BxGy: the bought-quantity sum (BxGyStrategy.java:37-40, 88-91), repetitions × get quantity (lines 53 and 94), the credited line's new quantity `freeItem.getQuantity() + freeQty` (line 111, modelled by `BxGy.Credit` as an unbounded add), and `Integer.MIN_VALUE / -1` in the repetition count (lines 47 and 92), which wraps to `Integer.MIN_VALUE` in Java while `BxGy.JavaDiv` gives 2^31. Integers are unbounded throughout.
- Locale-dependent and non-ASCII `toLowerCase`: only A–Z are lower-cased. `trim` is modelled exactly, and `isBlank` uses `Character.isWhitespace`.
- Null `Integer` and `Double` fields that the code unboxes without a check: line product id, quantity and price, and the buy/get entries' product id and quantity. These are plain `int` and `real`.
- A strategy dispatcher for `applyCoupon`: the strategy interface declares only `calculateDiscount`, and nothing in the service calls the strategies' `applyCoupon`. Each strategy's `applyCoupon` is modelled on its own.
