/**
 The header's cart dropdown. It keeps its own copy of the cart, copied
 from the parent's list whenever the dropdown is open and the parent's list
 changes; its plus, minus and remove buttons edit only that copy, matching
 lines by product id and size (an absent size matches only an absent size).
 Nothing it does reaches the parent's cart.
 */
module CartDropdown {
  import opened Js
  import opened Types
  import opened Pricing
  import Ledger

  /** `item.product.id === productId && item.size === size`. */
  predicate LineMatches(item: CartItem, productId: int, size: Option<string>) {
    item.product.id == productId && item.size == size
  }

  datatype DropdownState = DropdownState(isOpen: bool, items: seq<CartItem>)

  /** First render: closed, holding the parent's list as it was then. */
  function Mount(parent: seq<CartItem>): (r: DropdownState)
    ensures !r.isOpen && r.items == parent
  {
    DropdownState(false, parent)
  }

  /** The re-sync effect: while open, the copy becomes the parent's list. */
  function Sync(s: DropdownState, parent: seq<CartItem>): (r: DropdownState)
    ensures r.isOpen == s.isOpen
    ensures s.isOpen ==> r.items == parent
    ensures !s.isOpen ==> r.items == s.items
  {
    if s.isOpen then s.(items := parent) else s
  }

  /** Opening the dropdown (then the effect runs). */
  function Open(s: DropdownState, parent: seq<CartItem>): (r: DropdownState)
    ensures r.isOpen && r.items == parent
  {
    Sync(s.(isOpen := true), parent)
  }

  function Close(s: DropdownState): (r: DropdownState)
    ensures !r.isOpen && r.items == s.items
  {
    s.(isOpen := false)
  }

  /** `handleQuantityChange`: every matching line becomes `max(1, q + change)`. */
  function QuantityChange(items: seq<CartItem>, productId: int, size: Option<string>, change: int): (r: seq<CartItem>)
    ensures |r| == |items|
    ensures forall i :: 0 <= i < |items| && !LineMatches(items[i], productId, size) ==> r[i] == items[i]
    ensures forall i :: 0 <= i < |items| && LineMatches(items[i], productId, size) ==>
      r[i] == items[i].(quantity := r[i].quantity)
      && r[i].quantity >= 1 && r[i].quantity >= items[i].quantity + change
      && (items[i].quantity + change >= 1 ==> r[i].quantity == items[i].quantity + change)
      && (items[i].quantity + change < 1 ==> r[i].quantity == 1)
  {
    seq(|items|, i requires 0 <= i < |items| =>
      if LineMatches(items[i], productId, size) then
        var q := items[i].quantity + change;
        items[i].(quantity := if q > 1 then q else 1)
      else items[i])
  }

  /** `handleRemoveItem`: keeps, in order, the lines that do not match. */
  function RemoveItem(items: seq<CartItem>, productId: int, size: Option<string>): (r: seq<CartItem>)
    ensures |r| <= |items|
    ensures forall x :: x in r <==> x in items && !LineMatches(x, productId, size)
    ensures forall y :: multiset(r)[y] == if LineMatches(y, productId, size) then 0 else multiset(items)[y]
  {
    assert items != [] ==> items == [items[0]] + items[1..];
    if items == [] then []
    else if LineMatches(items[0], productId, size) then RemoveItem(items[1..], productId, size)
    else [items[0]] + RemoveItem(items[1..], productId, size)
  }

  /** The minus button on a line holding 1 leaves it at 1. */
  lemma DecrementAtOneStays(items: seq<CartItem>, i: nat)
    requires i < |items| && items[i].quantity == 1
    ensures QuantityChange(items, items[i].product.id, items[i].size, -1)[i].quantity == 1
  {
  }

  /** Quantity edits keep every line at one unit or more. */
  lemma ChangeKeepsPositive(items: seq<CartItem>, productId: int, size: Option<string>, change: int)
    requires QuantitiesPositive(items)
    ensures QuantitiesPositive(QuantityChange(items, productId, size, change))
    ensures QuantitiesPositive(RemoveItem(items, productId, size))
  {
    var r := RemoveItem(items, productId, size);
    forall i | 0 <= i < |r| ensures r[i].quantity >= 1 {
      assert r[i] in r;
    }
  }

  /** A sizeless request never touches a sized line, and a sized request
      never touches a sizeless line. */
  lemma SizeMatchingIsStrict(item: CartItem, productId: int, s: string)
    ensures item.size.None? ==> !LineMatches(item, productId, Some(s))
    ensures item.size.Some? ==> !LineMatches(item, productId, None)
  {
  }

  /** The dropdown's subtotal uses the same fold as checkout, so after
      opening it shows exactly the parent cart's subtotal. */
  lemma OpenShowsParentSubtotal(s: DropdownState, parent: seq<CartItem>)
    ensures Subtotal(Open(s, parent).items) == Subtotal(parent)
  {
  }

  /** A dropdown edit between two openings is lost: reopening shows the
      parent's list again, because no edit is passed up. */
  lemma EditsDoNotSurviveReopen(parent: seq<CartItem>, s: DropdownState, productId: int, size: Option<string>, change: int)
    ensures var edited := Open(s, parent).(items := QuantityChange(Open(s, parent).items, productId, size, change));
      Open(Close(edited), parent).items == parent
  {
  }

  /** Removing what is not there leaves the copy as it is. */
  lemma {:induction false} RemoveAbsentIsIdentity(items: seq<CartItem>, productId: int, size: Option<string>)
    requires forall i :: 0 <= i < |items| ==> !LineMatches(items[i], productId, size)
    ensures RemoveItem(items, productId, size) == items
  {
    if items != [] {
      RemoveAbsentIsIdentity(items[1..], productId, size);
    }
  }

  /** Removal keeps the other lines in their order. */
  lemma {:induction false} RemoveItemKeepsOrder(items: seq<CartItem>, productId: int, size: Option<string>)
    ensures Ledger.IsSubsequence(RemoveItem(items, productId, size), items)
  {
    if items != [] {
      RemoveItemKeepsOrder(items[1..], productId, size);
      var r := RemoveItem(items, productId, size);
      if LineMatches(items[0], productId, size) {
        Ledger.SubsequenceOfTail(r, items);
      } else {
        assert r[0] == items[0] && r[1..] == RemoveItem(items[1..], productId, size);
      }
    }
  }
}
