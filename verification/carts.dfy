/** The cart a client submits: an ordered list of lines, each a product id,
    a quantity and a unit price, plus the per-line discount that applying a
    coupon writes. */
module Carts {
  import opened Wrappers

  /** One cart line. `totalDiscount` is the share of a coupon's discount
      credited to this line; a fresh line carries 0. */
  datatype CartItem = CartItem(productId: int, quantity: int, price: real, totalDiscount: real)

  /** A cart; `items` is None when the request carried no item list. */
  datatype Cart = Cart(items: Option<seq<CartItem>>)

  /** A line as a client sends it, before any coupon has touched it. */
  function NewItem(productId: int, quantity: int, price: real): CartItem {
    CartItem(productId, quantity, price, 0.0)
  }

  /** Price times quantity of one line. */
  function LineTotal(item: CartItem): real {
    item.price * item.quantity as real
  }

  /** No line has a negative price or quantity. */
  predicate NonNegativeLines(items: seq<CartItem>) {
    forall i :: 0 <= i < |items| ==> items[i].price >= 0.0 && items[i].quantity >= 0
  }

  /** Sum of price times quantity over all lines. */
  function Subtotal(items: seq<CartItem>): real {
    if |items| == 0 then 0.0 else LineTotal(items[0]) + Subtotal(items[1..])
  }

  /** A cart without negative prices or quantities has a non-negative
      subtotal, and a cart without lines has subtotal 0. */
  lemma {:induction false} SubtotalNonNegative(items: seq<CartItem>)
    requires NonNegativeLines(items)
    ensures Subtotal(items) >= 0.0
    ensures |items| == 0 ==> Subtotal(items) == 0.0
    decreases |items|
  {
    if |items| > 0 {
      var x := items[0];
      assert x.price >= 0.0 && x.quantity >= 0;
      assert LineTotal(x) >= 0.0 by {
        assert x.price * x.quantity as real >= 0.0 * x.quantity as real;
      }
      SubtotalNonNegative(items[1..]);
    }
  }

  /** Sum of the per-line discounts. */
  function TotalDiscount(items: seq<CartItem>): real {
    if |items| == 0 then 0.0 else items[0].totalDiscount + TotalDiscount(items[1..])
  }

  /** Two lines agree on everything except possibly the discount written on them. */
  predicate SameGoods(a: CartItem, b: CartItem) {
    a.productId == b.productId && a.quantity == b.quantity && a.price == b.price
  }

  /** Every line with its discount set back to 0. */
  function ResetDiscounts(items: seq<CartItem>): (r: seq<CartItem>)
    ensures |r| == |items|
    ensures forall i :: 0 <= i < |items| ==> SameGoods(r[i], items[i]) && r[i].totalDiscount == 0.0
  {
    seq(|items|, i requires 0 <= i < |items| => items[i].(totalDiscount := 0.0))
  }

  lemma {:induction false} SubtotalAppend(a: seq<CartItem>, b: seq<CartItem>)
    ensures Subtotal(a + b) == Subtotal(a) + Subtotal(b)
    decreases |a|
  {
    if |a| > 0 {
      assert (a + b)[1..] == a[1..] + b;
      SubtotalAppend(a[1..], b);
    } else {
      assert a + b == b;
    }
  }

  /** Taking one line out of a cart takes its total out of the subtotal. */
  lemma SubtotalRemove(b: seq<CartItem>, j: int)
    requires 0 <= j < |b|
    ensures Subtotal(b) == LineTotal(b[j]) + Subtotal(b[..j] + b[j + 1..])
  {
    var pre, from, post := b[..j], b[j..], b[j + 1..];
    assert Subtotal(b) == Subtotal(pre) + Subtotal(from) by {
      assert b == pre + from;
      SubtotalAppend(pre, from);
    }
    assert Subtotal(from) == LineTotal(b[j]) + Subtotal(post) by {
      assert from[0] == b[j] && from[1..] == post;
    }
    SubtotalAppend(pre, post);
  }

  /** Taking one line out of a cart takes it out of the cart's multiset. */
  lemma MultisetRemove(b: seq<CartItem>, j: int)
    requires 0 <= j < |b|
    ensures multiset(b[..j] + b[j + 1..]) == multiset(b) - multiset{b[j]}
  {
    assert b == b[..j] + [b[j]] + b[j + 1..];
    assert multiset(b) == multiset(b[..j]) + multiset{b[j]} + multiset(b[j + 1..]);
  }

  /** The subtotal does not depend on the order of the lines. */
  lemma {:induction false} SubtotalPermutation(a: seq<CartItem>, b: seq<CartItem>)
    requires multiset(a) == multiset(b)
    ensures Subtotal(a) == Subtotal(b)
    decreases |a|
  {
    if |a| > 0 {
      assert a[0] in multiset(b);
      var j :| 0 <= j < |b| && b[j] == a[0];
      MultisetRemove(b, j);
      assert a == [a[0]] + a[1..];
      assert multiset(a[1..]) == multiset(a) - multiset{a[0]};
      SubtotalPermutation(a[1..], b[..j] + b[j + 1..]);
      SubtotalRemove(b, j);
    } else {
      assert |b| == |multiset(b)| == 0;
    }
  }

  /** The subtotal depends on price times quantity alone, not on product ids
      or on the discounts written on the lines. */
  lemma {:induction false} SubtotalOnlyLineTotals(a: seq<CartItem>, b: seq<CartItem>)
    requires |a| == |b|
    requires forall i :: 0 <= i < |a| ==> LineTotal(a[i]) == LineTotal(b[i])
    ensures Subtotal(a) == Subtotal(b)
    decreases |a|
  {
    if |a| > 0 {
      SubtotalOnlyLineTotals(a[1..], b[1..]);
    }
  }

  lemma {:induction false} TotalDiscountAppend(a: seq<CartItem>, b: seq<CartItem>)
    ensures TotalDiscount(a + b) == TotalDiscount(a) + TotalDiscount(b)
    decreases |a|
  {
    if |a| > 0 {
      assert (a + b)[1..] == a[1..] + b;
      TotalDiscountAppend(a[1..], b);
    } else {
      assert a + b == b;
    }
  }

  /** Lines whose discounts are all 0 sum to 0. */
  lemma {:induction false} TotalDiscountOfZeros(items: seq<CartItem>)
    requires forall i :: 0 <= i < |items| ==> items[i].totalDiscount == 0.0
    ensures TotalDiscount(items) == 0.0
    decreases |items|
  {
    if |items| > 0 {
      TotalDiscountOfZeros(items[1..]);
    }
  }

  /** Replacing one line changes the discount sum by the difference of the two lines' discounts. */
  lemma {:induction false} TotalDiscountUpdate(items: seq<CartItem>, k: nat, x: CartItem)
    requires k < |items|
    ensures TotalDiscount(items[k := x]) == TotalDiscount(items) - items[k].totalDiscount + x.totalDiscount
  {
    var u := items[k := x];
    assert items == items[..k] + [items[k]] + items[k + 1..];
    assert u == items[..k] + [x] + items[k + 1..];
    TotalDiscountAppend(items[..k] + [items[k]], items[k + 1..]);
    TotalDiscountAppend(items[..k], [items[k]]);
    TotalDiscountAppend(items[..k] + [x], items[k + 1..]);
    TotalDiscountAppend(items[..k], [x]);
  }
}
