/**
 The shopping cart held by the application root: a list of lines, each
 identified by a key string made from the product id and, when the size is
 truthy, `-` and the size. Adding merges onto the line with the same key or
 appends a new line; setting a quantity clamps it to at least 1; removing
 filters the line out.
 */
module Ledger {
  import opened Js
  import opened Types
  import opened Pricing

  /** What the size contributes to the key: the size if truthy, else nothing. */
  function SizeTag(size: Option<string>): string {
    if Present(size) then size.value else ""
  }

  /** `product.id + (size ? "-" + size : "")`. */
  function CartKey(id: int, size: Option<string>): (k: string)
    ensures |k| >= 1
  {
    IntToString(id) + (if Present(size) then "-" + size.value else "")
  }

  /** The index of the first `-` at or after `i`, or `|k|` if there is none. */
  function DashFrom(k: string, i: nat): (j: nat)
    requires i <= |k|
    ensures i <= j <= |k|
    decreases |k| - i
  {
    if i == |k| || k[i] == '-' then i else DashFrom(k, i + 1)
  }

  lemma {:induction false} DashFromFinds(k: string, i: nat, j: nat)
    requires i <= j <= |k|
    requires forall m :: i <= m < j ==> k[m] != '-'
    requires j == |k| || k[j] == '-'
    ensures DashFrom(k, i) == j
    decreases j - i
  {
    if i < j {
      DashFromFinds(k, i + 1, j);
    }
  }

  /** In a key, the first `-` after the first character ends the id. */
  lemma KeySplits(id: int, size: Option<string>)
    ensures DashFrom(CartKey(id, size), 1) == |IntToString(id)|
  {
    var k := CartKey(id, size);
    var n := IntToString(id);
    forall m | 1 <= m < |n|
      ensures k[m] != '-'
    {
      assert k[m] == n[m];
      assert IsDigit(n[m]);
    }
    DashFromFinds(k, 1, |n|);
  }

  /** Two keys are equal exactly when the ids are equal and the sizes
      contribute the same tag: the string key identifies the (id, size) pair,
      with an absent and an empty size counted alike. */
  lemma CartKeyInjective(a: int, s: Option<string>, b: int, t: Option<string>)
    ensures CartKey(a, s) == CartKey(b, t) <==> a == b && SizeTag(s) == SizeTag(t)
  {
    var ka, kb := CartKey(a, s), CartKey(b, t);
    if ka == kb {
      KeySplits(a, s);
      KeySplits(b, t);
      var na, nb := IntToString(a), IntToString(b);
      assert |na| == |nb|;
      assert na == ka[..|na|] && nb == kb[..|nb|];
      IntToStringInjective(a, b);
      var ra, rb := ka[|na|..], kb[|nb|..];
      assert ra == rb;
      assert ra == (if Present(s) then "-" + s.value else "");
      assert rb == (if Present(t) then "-" + t.value else "");
      if Present(s) && Present(t) {
        assert s.value == ra[1..] == rb[1..] == t.value;
      }
    }
  }

  predicate HasKey(cart: seq<CartItem>, key: string) {
    exists i :: 0 <= i < |cart| && cart[i].id == key
  }

  /** No two lines share a key. */
  predicate KeysDistinct(cart: seq<CartItem>) {
    forall i, j :: 0 <= i < j < |cart| ==> cart[i].id != cart[j].id
  }

  /** Every line's key is the one its product id and size produce. */
  predicate WellKeyed(cart: seq<CartItem>) {
    forall i :: 0 <= i < |cart| ==> cart[i].id == CartKey(cart[i].product.id, cart[i].size)
  }

  /** The ledger invariant. */
  predicate Valid(cart: seq<CartItem>) {
    KeysDistinct(cart) && WellKeyed(cart)
  }

  /** `handleAddToCart`. When the key is present, every line with that key
      gains `quantity` and nothing else changes; otherwise one line carrying
      the given product, quantity and size is appended. */
  function AddToCart(cart: seq<CartItem>, product: Product, quantity: int, size: Option<string>): (r: seq<CartItem>)
    ensures var key := CartKey(product.id, size);
      HasKey(cart, key) ==>
        |r| == |cart|
        && forall i :: 0 <= i < |cart| ==>
             r[i].id == cart[i].id && r[i].product == cart[i].product && r[i].size == cart[i].size
             && r[i].quantity == cart[i].quantity + (if cart[i].id == key then quantity else 0)
    ensures var key := CartKey(product.id, size);
      !HasKey(cart, key) ==>
        |r| == |cart| + 1 && r[..|cart|] == cart
        && r[|cart|].id == key && r[|cart|].product == product
        && r[|cart|].quantity == quantity && r[|cart|].size == size
  {
    var key := CartKey(product.id, size);
    if HasKey(cart, key) then
      seq(|cart|, i requires 0 <= i < |cart| =>
        if cart[i].id == key then cart[i].(quantity := cart[i].quantity + quantity) else cart[i])
    else cart + [CartItem(key, product, quantity, size)]
  }

  /** `handleUpdateCartQuantity`: the line with the key gets `max(1, n)`; the
      length and every other line are unchanged. */
  function UpdateQuantity(cart: seq<CartItem>, key: string, n: int): (r: seq<CartItem>)
    ensures |r| == |cart|
    ensures forall i :: 0 <= i < |cart| && cart[i].id != key ==> r[i] == cart[i]
    ensures forall i :: 0 <= i < |cart| && cart[i].id == key ==>
      r[i].id == key && r[i].product == cart[i].product && r[i].size == cart[i].size
      && r[i].quantity >= 1 && (n >= 1 ==> r[i].quantity == n) && (n < 1 ==> r[i].quantity == 1)
  {
    seq(|cart|, i requires 0 <= i < |cart| =>
      if cart[i].id == key then cart[i].(quantity := if n > 1 then n else 1) else cart[i])
  }

  /** `handleRemoveFromCart`: keeps, in order, exactly the lines whose key
      differs. */
  function RemoveFromCart(cart: seq<CartItem>, key: string): (r: seq<CartItem>)
    ensures !HasKey(r, key)
    ensures |r| <= |cart|
    ensures forall x :: x in r <==> x in cart && x.id != key
    ensures KeysDistinct(cart) ==> KeysDistinct(r)
  {
    if cart == [] then []
    else if cart[0].id == key then RemoveFromCart(cart[1..], key)
    else [cart[0]] + RemoveFromCart(cart[1..], key)
  }

  /** Removal keeps every other line as many times as it occurred and drops
      every occurrence of a line with the key. */
  lemma {:induction false} RemoveCounts(cart: seq<CartItem>, key: string)
    ensures forall y :: multiset(RemoveFromCart(cart, key))[y] == if y.id == key then 0 else multiset(cart)[y]
  {
    if cart != [] {
      assert cart == [cart[0]] + cart[1..];
      RemoveCounts(cart[1..], key);
    }
  }

  /** `r` is `s` with some elements dropped, the rest in order. */
  predicate IsSubsequence<T(==)>(r: seq<T>, s: seq<T>)
    decreases |s|
  {
    if r == [] then true
    else if s == [] then false
    else if r[0] == s[0] then IsSubsequence(r[1..], s[1..])
    else IsSubsequence(r, s[1..])
  }

  lemma {:induction false} RemoveKeepsOrder(cart: seq<CartItem>, key: string)
    ensures IsSubsequence(RemoveFromCart(cart, key), cart)
  {
    if cart != [] {
      RemoveKeepsOrder(cart[1..], key);
      if cart[0].id == key {
        SubsequenceOfTail(RemoveFromCart(cart, key), cart);
      } else {
        var r := RemoveFromCart(cart, key);
        assert r[0] == cart[0] && r[1..] == RemoveFromCart(cart[1..], key);
      }
    }
  }

  /** A subsequence of the tail is a subsequence of the whole. */
  lemma {:induction false} SubsequenceOfTail<T>(r: seq<T>, s: seq<T>)
    requires s != [] && IsSubsequence(r, s[1..])
    ensures IsSubsequence(r, s)
    decreases |s|, 0
  {
    if r != [] && r[0] == s[0] {
      SubsequenceDropHead(r, s[1..]);
    }
  }

  /** If `r` is a subsequence of `s`, so is its tail. */
  lemma {:induction false} SubsequenceDropHead<T>(r: seq<T>, s: seq<T>)
    requires r != [] && IsSubsequence(r, s)
    ensures IsSubsequence(r[1..], s)
    decreases |s|, 1
  {
    if r[1..] != [] {
      if r[0] == s[0] {
        SubsequenceOfTail(r[1..], s);
      } else {
        SubsequenceDropHead(r, s[1..]);
        SubsequenceOfTail(r[1..], s);
      }
    }
  }

  /** Removing a key that is not present changes nothing, so removal is
      idempotent. */
  lemma {:induction false} RemoveAbsentIsIdentity(cart: seq<CartItem>, key: string)
    requires !HasKey(cart, key)
    ensures RemoveFromCart(cart, key) == cart
  {
    if cart != [] {
      assert cart[0].id != key;
      forall i | 0 <= i < |cart[1..]|
        ensures cart[1..][i].id != key
      {
        assert cart[1..][i] == cart[i + 1];
      }
      RemoveAbsentIsIdentity(cart[1..], key);
    }
  }

  lemma RemoveIdempotent(cart: seq<CartItem>, key: string)
    ensures RemoveFromCart(RemoveFromCart(cart, key), key) == RemoveFromCart(cart, key)
  {
    RemoveAbsentIsIdentity(RemoveFromCart(cart, key), key);
  }

  /** With distinct keys, removing a present key removes exactly one line. */
  lemma {:induction false} RemovePresentShrinksByOne(cart: seq<CartItem>, key: string)
    requires KeysDistinct(cart) && HasKey(cart, key)
    ensures |RemoveFromCart(cart, key)| == |cart| - 1
  {
    if cart[0].id == key {
      forall i | 0 <= i < |cart[1..]|
        ensures cart[1..][i].id != key
      {
        assert cart[1..][i] == cart[i + 1];
      }
      RemoveAbsentIsIdentity(cart[1..], key);
    } else {
      var i :| 0 <= i < |cart| && cart[i].id == key;
      assert cart[1..][i - 1].id == key;
      RemovePresentShrinksByOne(cart[1..], key);
    }
  }

  /** Adding keeps the ledger invariant. */
  lemma AddPreservesValid(cart: seq<CartItem>, product: Product, quantity: int, size: Option<string>)
    requires Valid(cart)
    ensures Valid(AddToCart(cart, product, quantity, size))
  {
    var r := AddToCart(cart, product, quantity, size);
    var key := CartKey(product.id, size);
    if !HasKey(cart, key) {
      assert forall i :: 0 <= i < |cart| ==> r[i] == cart[i];
    }
  }

  /** Setting a quantity keeps the ledger invariant. */
  lemma UpdatePreservesValid(cart: seq<CartItem>, key: string, n: int)
    requires Valid(cart)
    ensures Valid(UpdateQuantity(cart, key, n))
  {
  }

  /** Removing keeps the ledger invariant. */
  lemma RemovePreservesValid(cart: seq<CartItem>, key: string)
    requires Valid(cart)
    ensures Valid(RemoveFromCart(cart, key))
  {
    var r := RemoveFromCart(cart, key);
    forall i | 0 <= i < |r|
      ensures r[i].id == CartKey(r[i].product.id, r[i].size)
    {
      assert r[i] in r;
    }
  }

  /** Lines keep at least one unit as long as every add brings at least one. */
  lemma QuantitiesStayPositive(cart: seq<CartItem>, product: Product, quantity: int, size: Option<string>, key: string, n: int)
    requires QuantitiesPositive(cart) && quantity >= 1
    ensures QuantitiesPositive(AddToCart(cart, product, quantity, size))
    ensures QuantitiesPositive(UpdateQuantity(cart, key, n))
    ensures QuantitiesPositive(RemoveFromCart(cart, key))
  {
    var r := RemoveFromCart(cart, key);
    forall i | 0 <= i < |r|
      ensures r[i].quantity >= 1
    {
      assert r[i] in r;
    }
  }

  /** Adding 1 and then 2 of the same product and size leaves a single line
      of 3. */
  lemma AddTwiceMerges(product: Product, size: Option<string>)
    ensures var c := AddToCart(AddToCart([], product, 1, size), product, 2, size);
      |c| == 1 && c[0].quantity == 3 && c[0].product == product && c[0].size == size
  {
    var c1 := AddToCart([], product, 1, size);
    assert c1[0].id == CartKey(product.id, size);
    assert HasKey(c1, CartKey(product.id, size));
  }

  /** Setting the same quantity twice is the same as setting it once. */
  lemma UpdateIdempotent(cart: seq<CartItem>, key: string, n: int)
    ensures UpdateQuantity(UpdateQuantity(cart, key, n), key, n) == UpdateQuantity(cart, key, n)
  {
  }

  // ----- how the cart operations move the subtotal -----

  /** All lines whose product id matches hold that very product record. */
  predicate ConsistentProduct(cart: seq<CartItem>, p: Product) {
    forall i :: 0 <= i < |cart| && cart[i].product.id == p.id ==> cart[i].product == p
  }

  lemma {:induction false} SubtotalPointwise(a: seq<CartItem>, b: seq<CartItem>, key: string, delta: int, u: Number)
    requires |a| == |b|
    requires forall i :: 0 <= i < |a| && a[i].id != key ==> b[i] == a[i]
    requires forall i :: 0 <= i < |a| && a[i].id == key ==>
      SubtotalUnitPrice(a[i]) == SubtotalUnitPrice(b[i]) == u
      && b[i].quantity == a[i].quantity + delta
    requires KeysDistinct(a) && HasKey(a, key)
    ensures Subtotal(b) == Add(Subtotal(a), Mul(u, Finite(delta as real)))
    decreases |a|
  {
    var n := |a| - 1;
    var a', b' := a[..n], b[..n];
    if a[n].id == key {
      assert a' == b' by {
        forall i | 0 <= i < n ensures a'[i] == b'[i] {
          assert a[i].id != a[n].id;
        }
      }
      if u.Finite? {
        var q := a[n].quantity as real;
        assert u.v * (q + delta as real) == u.v * q + u.v * delta as real;
      }
    } else {
      var i :| 0 <= i < |a| && a[i].id == key;
      assert a'[i].id == key;
      SubtotalPointwise(a', b', key, delta, u);
    }
  }

  /** Adding `q` of a product and size raises the subtotal by that line's
      unit price times `q`: the existing line when the key is present (the
      unit price is the same, since equal keys mean equal size tags), a new
      line otherwise. */
  lemma AddRaisesSubtotal(cart: seq<CartItem>, product: Product, q: int, size: Option<string>)
    requires Valid(cart) && ConsistentProduct(cart, product)
    ensures Subtotal(AddToCart(cart, product, q, size))
      == Add(Subtotal(cart), Mul(SubtotalUnitPrice(CartItem(CartKey(product.id, size), product, q, size)), Finite(q as real)))
  {
    var key := CartKey(product.id, size);
    var r := AddToCart(cart, product, q, size);
    var u := SubtotalUnitPrice(CartItem(key, product, q, size));
    if HasKey(cart, key) {
      forall i | 0 <= i < |cart| && cart[i].id == key
        ensures SubtotalUnitPrice(cart[i]) == SubtotalUnitPrice(r[i]) == u
      {
        CartKeyInjective(cart[i].product.id, cart[i].size, product.id, size);
      }
      SubtotalPointwise(cart, r, key, q, u);
    } else {
      SubtotalAppend(cart, [CartItem(key, product, q, size)]);
      assert r == cart + [CartItem(key, product, q, size)];
      assert Subtotal([CartItem(key, product, q, size)]) == Add(Finite(0.0), LineSubtotal(CartItem(key, product, q, size)));
    }
  }
}
