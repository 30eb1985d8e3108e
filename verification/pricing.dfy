/**
 The two unit-price rules of the storefront and the subtotal fold.

 The order summary and the cart dropdown compute their subtotal with an
 unguarded lookup: a sized line of a product with a price map reads
 `prices[size]`, which is `undefined` (and so turns the sum into NaN) when
 the size has no entry. The per-line amounts they display, and the product
 page's price, instead fall back to the base price whenever the entry is
 missing or zero.
 */
module Pricing {
  import opened Js
  import opened Types

  /** The subtotal reads the price map exactly when the line's size is
      truthy and the product has a map. */
  predicate ReadsPriceMap(item: CartItem) {
    Present(item.size) && item.product.prices.Some?
  }

  /** Unit price as the subtotal computes it. */
  function SubtotalUnitPrice(item: CartItem): (r: Number)
    ensures r.NaN? <==> ReadsPriceMap(item) && item.size.value !in item.product.prices.value
    ensures r.Finite? && ReadsPriceMap(item) ==> r.v == item.product.prices.value[item.size.value]
    ensures r.Finite? && !ReadsPriceMap(item) ==> r.v == item.product.price
  {
    if ReadsPriceMap(item) then
      var m := item.product.prices.value;
      if item.size.value in m then Finite(m[item.size.value]) else NaN
    else Finite(item.product.price)
  }

  /** Unit price with the guarded fallback, used for displayed amounts:
      the size's entry when the size is truthy and the entry exists and is
      non-zero, else the base price. */
  function ResolvedUnitPrice(p: Product, size: Option<string>): (r: real)
    ensures r == p.price || (Present(size) && p.prices.Some? && size.value in p.prices.value
                             && r == p.prices.value[size.value] && r != 0.0)
    ensures !Present(size) || p.prices.None? ==> r == p.price
    ensures Present(size) && p.prices.Some? && size.value in p.prices.value && p.prices.value[size.value] != 0.0 ==>
      r == p.prices.value[size.value]
  {
    if Present(size) && p.prices.Some? && size.value in p.prices.value && p.prices.value[size.value] != 0.0
    then p.prices.value[size.value]
    else p.price
  }

  /** What one line adds to the subtotal. */
  function LineSubtotal(item: CartItem): Number {
    Mul(SubtotalUnitPrice(item), Finite(item.quantity as real))
  }

  /** What the order summary shows next to a line. */
  function DisplayedLineTotal(item: CartItem): real {
    ResolvedUnitPrice(item.product, item.size) * item.quantity as real
  }

  /** The reduce over the lines, starting from 0. It is a number exactly
      when every line's unit price is. */
  function Subtotal(items: seq<CartItem>): (r: Number)
    ensures r.Finite? <==> forall i :: 0 <= i < |items| ==> SubtotalUnitPrice(items[i]).Finite?
  {
    if items == [] then Finite(0.0)
    else Add(Subtotal(items[..|items| - 1]), LineSubtotal(items[|items| - 1]))
  }

  function SumDisplayed(items: seq<CartItem>): real {
    if items == [] then 0.0
    else SumDisplayed(items[..|items| - 1]) + DisplayedLineTotal(items[|items| - 1])
  }

  /** The two unit-price rules agree on a line exactly when the line does
      not read the map, or its size has an entry that is non-zero (or the
      base price is itself zero). */
  lemma UnitPricesAgreeIff(item: CartItem)
    ensures SubtotalUnitPrice(item) == Finite(ResolvedUnitPrice(item.product, item.size))
        <==> !ReadsPriceMap(item)
             || (item.size.value in item.product.prices.value
                 && (item.product.prices.value[item.size.value] != 0.0 || item.product.price == 0.0))
  {
  }

  /** The subtotal is the sum of what is displayed per line when every line
      that reads the map finds a non-zero entry. */
  lemma {:induction false} DisplayedTotalsSumToSubtotal(items: seq<CartItem>)
    requires forall i :: 0 <= i < |items| && ReadsPriceMap(items[i]) ==>
               items[i].size.value in items[i].product.prices.value
               && items[i].product.prices.value[items[i].size.value] != 0.0
    ensures Subtotal(items) == Finite(SumDisplayed(items))
  {
    if items != [] {
      DisplayedTotalsSumToSubtotal(items[..|items| - 1]);
      UnitPricesAgreeIff(items[|items| - 1]);
    }
  }

  /** A line whose size has a zero entry is displayed at the base price but
      counted at zero, so the two disagree whenever the base price is not
      zero. */
  lemma ZeroEntryDisagrees(item: CartItem)
    requires ReadsPriceMap(item) && item.size.value in item.product.prices.value
    requires item.product.prices.value[item.size.value] == 0.0 && item.product.price != 0.0
    requires item.quantity != 0
    ensures LineSubtotal(item) != Finite(DisplayedLineTotal(item))
  {
  }

  /** With non-negative unit prices and quantities the subtotal, when it is a
      number, is non-negative. */
  lemma {:induction false} SubtotalNonNegative(items: seq<CartItem>)
    requires forall i :: 0 <= i < |items| ==> items[i].quantity >= 0
    requires forall i :: 0 <= i < |items| && SubtotalUnitPrice(items[i]).Finite? ==> SubtotalUnitPrice(items[i]).v >= 0.0
    ensures Subtotal(items).Finite? ==> Subtotal(items).v >= 0.0
  {
    if items != [] {
      SubtotalNonNegative(items[..|items| - 1]);
    }
  }

  /** The subtotal of a concatenation is the sum of the subtotals. */
  lemma {:induction false} SubtotalAppend(a: seq<CartItem>, b: seq<CartItem>)
    ensures Subtotal(a + b) == Add(Subtotal(a), Subtotal(b))
    decreases |b|
  {
    if b == [] {
      assert a + b == a;
    } else {
      var b' := b[..|b| - 1];
      assert (a + b)[..|a + b| - 1] == a + b';
      SubtotalAppend(a, b');
    }
  }
}
