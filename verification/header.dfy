/**
 The page header: the cart badge count, and the three popovers it owns
 (category menu, cart dropdown, account dropdown). The cart and account
 buttons each toggle their own popover and force the other one shut.
 */
module Header {
  import opened Js
  import opened Types
  import Ledger

  /** `cartItems.reduce((sum, item) => sum + item.quantity, 0)`. */
  function TotalItems(cart: seq<CartItem>): (n: int)
    ensures cart == [] ==> n == 0
    ensures QuantitiesPositive(cart) ==> n >= |cart|
    ensures (forall i :: 0 <= i < |cart| ==> cart[i].quantity >= 0) ==> n >= 0
  {
    if cart == [] then 0 else TotalItems(cart[..|cart| - 1]) + cart[|cart| - 1].quantity
  }

  lemma {:induction false} TotalPointwise(a: seq<CartItem>, b: seq<CartItem>, key: string, delta: int)
    requires |a| == |b| && Ledger.KeysDistinct(a) && Ledger.HasKey(a, key)
    requires forall i :: 0 <= i < |a| ==>
      b[i].quantity == a[i].quantity + (if a[i].id == key then delta else 0)
    ensures TotalItems(b) == TotalItems(a) + delta
    decreases |a|
  {
    var n := |a| - 1;
    if a[n].id == key {
      TotalUnchanged(a[..n], b[..n], key);
    } else {
      var i :| 0 <= i < |a| && a[i].id == key;
      assert a[..n][i].id == key;
      TotalPointwise(a[..n], b[..n], key, delta);
    }
  }

  lemma {:induction false} TotalUnchanged(a: seq<CartItem>, b: seq<CartItem>, key: string)
    requires |a| == |b|
    requires forall i :: 0 <= i < |a| ==> a[i].id != key && b[i].quantity == a[i].quantity
    ensures TotalItems(b) == TotalItems(a)
    decreases |a|
  {
    if a != [] {
      TotalUnchanged(a[..|a| - 1], b[..|b| - 1], key);
    }
  }

  /** Adding `q` units raises the badge by `q`, whether the line is merged or new. */
  lemma AddRaisesBadge(cart: seq<CartItem>, product: Product, q: int, size: Option<string>)
    requires Ledger.KeysDistinct(cart)
    ensures TotalItems(Ledger.AddToCart(cart, product, q, size)) == TotalItems(cart) + q
  {
    var key := Ledger.CartKey(product.id, size);
    var r := Ledger.AddToCart(cart, product, q, size);
    if Ledger.HasKey(cart, key) {
      TotalPointwise(cart, r, key, q);
    } else {
      assert r[..|r| - 1] == cart;
    }
  }

  datatype HeaderState = HeaderState(menuOpen: bool, cartOpen: bool, accountOpen: bool)

  const CLOSED := HeaderState(false, false, false)

  datatype HeaderEvent =
    | OpenMenu
    | CloseMenu
    | PickCategory(name: string)   // a selection made inside the category menu
    | LogoClick
    | ToggleCart
    | CloseCart                    // the dropdown's close button or an outside click
    | ToggleAccount
    | AccountAction                // register or sign-in chosen in the account dropdown
    | CloseAccount

  /** One header transition: the next state and the category, if any, that
      is forwarded to the application. */
  datatype StepResult = StepResult(state: HeaderState, selected: Option<string>)

  function Step(s: HeaderState, e: HeaderEvent): (r: StepResult)
    ensures e.OpenMenu? ==> r.state.menuOpen
    ensures e.CloseMenu? ==> !r.state.menuOpen
    ensures e.CloseCart? ==> !r.state.cartOpen
    ensures e.AccountAction? || e.CloseAccount? ==> !r.state.accountOpen
    ensures e.OpenMenu? || e.CloseMenu? || e.PickCategory? ==>
      r.state.cartOpen == s.cartOpen && r.state.accountOpen == s.accountOpen
    ensures e.ToggleCart? || e.ToggleAccount? || e.CloseCart? || e.AccountAction? || e.CloseAccount? ==>
      r.state.menuOpen == s.menuOpen
    ensures e.CloseCart? ==> r.state.accountOpen == s.accountOpen
    ensures e.AccountAction? || e.CloseAccount? ==> r.state.cartOpen == s.cartOpen
    ensures e.ToggleCart? ==> r.state == s.(cartOpen := !s.cartOpen, accountOpen := false)
    ensures e.ToggleAccount? ==> r.state == s.(accountOpen := !s.accountOpen, cartOpen := false)
    ensures e.PickCategory? ==> r.selected == Some(e.name) && !r.state.menuOpen
    ensures e.LogoClick? ==> r.selected == Some("All") && r.state == s
    ensures !e.PickCategory? && !e.LogoClick? ==> r.selected.None?
    ensures e.CloseCart? || e.CloseAccount? || e.AccountAction? || e.CloseMenu? ==>
      (r.state.cartOpen ==> s.cartOpen) && (r.state.accountOpen ==> s.accountOpen) && (r.state.menuOpen ==> s.menuOpen)
  {
    match e
    case OpenMenu => StepResult(s.(menuOpen := true), None)
    case CloseMenu => StepResult(s.(menuOpen := false), None)
    case PickCategory(name) => StepResult(s.(menuOpen := false), Some(name))
    case LogoClick => StepResult(s, Some("All"))
    case ToggleCart => StepResult(s.(cartOpen := !s.cartOpen, accountOpen := false), None)
    case CloseCart => StepResult(s.(cartOpen := false), None)
    case ToggleAccount => StepResult(s.(accountOpen := !s.accountOpen, cartOpen := false), None)
    case AccountAction => StepResult(s.(accountOpen := false), None)
    case CloseAccount => StepResult(s.(accountOpen := false), None)
  }

  predicate Exclusive(s: HeaderState) {
    !(s.cartOpen && s.accountOpen)
  }

  function Run(s: HeaderState, events: seq<HeaderEvent>): HeaderState
    decreases |events|
  {
    if events == [] then s else Run(Step(s, events[0]).state, events[1..])
  }

  /** The cart and account dropdowns are never open together, whatever the
      sequence of clicks. */
  lemma {:induction false} AlwaysExclusive(s: HeaderState, events: seq<HeaderEvent>)
    requires Exclusive(s)
    ensures Exclusive(Run(s, events))
    decreases |events|
  {
    if events != [] {
      StepExclusive(s, events[0]);
      AlwaysExclusive(Step(s, events[0]).state, events[1..]);
    }
  }

  lemma StepExclusive(s: HeaderState, e: HeaderEvent)
    requires Exclusive(s)
    ensures Exclusive(Step(s, e).state)
  {
  }

  /** A real mouse click on a header button: the outside-click listeners of
      the open dropdowns fire on `mousedown` and close them, then the
      button's `onClick` toggles. So the cart button always leaves the cart
      open, and the account button always leaves the account dropdown open. */
  function CartButtonClick(s: HeaderState): (r: HeaderState)
    ensures r.cartOpen && !r.accountOpen && r.menuOpen == s.menuOpen
  {
    Run(s, [CloseCart, CloseAccount, ToggleCart])
  }

  function AccountButtonClick(s: HeaderState): (r: HeaderState)
    ensures r.accountOpen && !r.cartOpen && r.menuOpen == s.menuOpen
  {
    Run(s, [CloseCart, CloseAccount, ToggleAccount])
  }

  /** With the cart open, the toggle handler alone would close it, but a
      click on the cart button reopens it straight after the outside-click
      listener closed it. */
  lemma CartButtonCannotClose(s: HeaderState)
    requires s.cartOpen
    ensures !Step(s, ToggleCart).state.cartOpen
    ensures CartButtonClick(s).cartOpen
  {
  }

  /** Toggling the cart twice restores it and leaves the account closed. */
  lemma ToggleCartTwice(s: HeaderState)
    ensures Run(s, [ToggleCart, ToggleCart]) == s.(accountOpen := false)
  {
    assert [ToggleCart, ToggleCart][1..] == [ToggleCart];
  }
}
