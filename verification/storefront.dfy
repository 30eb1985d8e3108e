/**
 The rest of the application root: the category filter over the catalogue,
 the heading shown for the selected category, the mock sign-in and
 registration forms, and the choice of screen.
 */
module Storefront {
  import opened Js
  import opened Types
  import opened Catalog
  import Ledger

  // ----- product listing -----

  /** A product is listed under a category name when its category or its
      subcategory is that name. */
  predicate Matches(p: Product, selected: string) {
    p.category == selected || p.subcategory == Some(selected)
  }

  /** `PRODUCTS.filter(...)` for one category name. */
  function FilterByCategory(products: seq<Product>, selected: string): (r: seq<Product>)
    ensures |r| <= |products|
    ensures forall p :: p in r <==> p in products && Matches(p, selected)
  {
    if products == [] then []
    else if Matches(products[0], selected) then [products[0]] + FilterByCategory(products[1..], selected)
    else FilterByCategory(products[1..], selected)
  }

  /** `filteredProducts`: the whole list for `All`, else the matching ones. */
  function FilteredProducts(products: seq<Product>, selected: string): (r: seq<Product>)
    ensures selected == "All" ==> r == products
    ensures selected != "All" ==> forall p :: p in r <==> p in products && Matches(p, selected)
  {
    if selected == "All" then products else FilterByCategory(products, selected)
  }

  lemma {:induction false} FilterKeepsOrder(products: seq<Product>, selected: string)
    ensures Ledger.IsSubsequence(FilterByCategory(products, selected), products)
  {
    if products != [] {
      FilterKeepsOrder(products[1..], selected);
      var r := FilterByCategory(products, selected);
      if Matches(products[0], selected) {
        assert r[0] == products[0] && r[1..] == FilterByCategory(products[1..], selected);
      } else {
        Ledger.SubsequenceOfTail(r, products);
      }
    }
  }

  /** The Shampoo listing holds product 13 but not the facial cleanser. */
  lemma ShampooListing()
    ensures GLYCOLIC_GLOSS in FilteredProducts(PRODUCTS, "Shampoo")
    ensures PRODUCTS[0] !in FilteredProducts(PRODUCTS, "Shampoo")
  {
    assert GLYCOLIC_GLOSS == PRODUCTS[6];
  }

  // ----- category heading -----

  /** Every top-level category followed by its direct children. */
  function FlattenCategories(cats: seq<Category>): (r: seq<Category>)
    ensures forall c :: c in cats ==> c in r
    ensures forall c, s :: c in cats && c.subcategories.Some? && s in c.subcategories.value ==> s in r
  {
    if cats == [] then []
    else
      var c := cats[0];
      (if c.subcategories.Some? then [c] + c.subcategories.value else [c]) + FlattenCategories(cats[1..])
  }

  /** The names a selection can match: top-level names and the names of
      their direct children. */
  predicate IsKnownName(cats: seq<Category>, name: string) {
    exists c :: c in cats && (c.name == name || (c.subcategories.Some? && exists s :: s in c.subcategories.value && s.name == name))
  }

  /** `categoryTitle`. */
  function CategoryTitle(cats: seq<Category>, selected: string): (r: string)
    ensures selected == "All" ==> r == "Our Collection"
    ensures selected != "All" && IsKnownName(cats, selected) ==> r == selected
    ensures selected != "All" && !IsKnownName(cats, selected) ==> r == "Products"
  {
    if selected == "All" then "Our Collection"
    else
      var all := FlattenCategories(cats);
      FlattenOnlyKnown(cats);
      if exists i :: 0 <= i < |all| && all[i].name == selected then selected else "Products"
  }

  lemma {:induction false} FlattenOnlyKnown(cats: seq<Category>)
    ensures forall x :: x in FlattenCategories(cats) ==>
      x in cats || exists c :: c in cats && c.subcategories.Some? && x in c.subcategories.value
  {
    if cats != [] {
      FlattenOnlyKnown(cats[1..]);
    }
  }

  lemma TitlesOfCatalogue()
    ensures CategoryTitle(CATEGORIES, "Hair Oil") == "Hair Oil"
    ensures CategoryTitle(CATEGORIES, "Haircare") == "Haircare"
    ensures CategoryTitle(CATEGORIES, "Makeup") == "Products"
  {
    assert CATEGORIES[1].subcategories.value[2].name == "Hair Oil";
    assert CATEGORIES[1].name == "Haircare";
    forall c | c in CATEGORIES
      ensures c.name != "Makeup"
      ensures c.subcategories.Some? ==> forall s :: s in c.subcategories.value ==> s.name != "Makeup"
    {
    }
  }

  // ----- mock authentication -----

  datatype AuthForm = AuthForm(name: string, email: string, password: string)
  datatype AuthModal = Hidden | Register | SignIn

  datatype Session = Session(user: Option<User>, modal: AuthModal, form: AuthForm)

  const EMPTY_FORM := AuthForm("", "", "")

  /** `handleSignIn`: with a non-empty email and password the user is set
      (named `Jane Doe` when no name was typed), the modal hidden and the
      form cleared; otherwise nothing changes. */
  function SignInSubmit(s: Session): (r: Session)
    ensures Truthy(s.form.email) && Truthy(s.form.password) ==>
      r.user.Some? && r.user.value.email == s.form.email
      && r.user.value.name == (if Truthy(s.form.name) then s.form.name else "Jane Doe")
      && r.modal == Hidden && r.form == EMPTY_FORM
    ensures !(Truthy(s.form.email) && Truthy(s.form.password)) ==> r == s
  {
    if Truthy(s.form.email) && Truthy(s.form.password) then
      Session(Some(User(if Truthy(s.form.name) then s.form.name else "Jane Doe", s.form.email)), Hidden, EMPTY_FORM)
    else s
  }

  /** `handleRegister`: all three fields are needed. */
  function RegisterSubmit(s: Session): (r: Session)
    ensures Truthy(s.form.name) && Truthy(s.form.email) && Truthy(s.form.password) ==>
      r.user == Some(User(s.form.name, s.form.email)) && r.modal == Hidden && r.form == EMPTY_FORM
    ensures !(Truthy(s.form.name) && Truthy(s.form.email) && Truthy(s.form.password)) ==> r == s
  {
    if Truthy(s.form.name) && Truthy(s.form.email) && Truthy(s.form.password) then
      Session(Some(User(s.form.name, s.form.email)), Hidden, EMPTY_FORM)
    else s
  }

  function SignOut(s: Session): (r: Session)
    ensures r.user.None? && r.modal == s.modal && r.form == s.form
  {
    s.(user := None)
  }

  /** Whatever a submit does, a signed-in user always has a non-empty email,
      and registration never invents a name. */
  lemma SubmitsKeepEmail(s: Session)
    requires s.user.Some? ==> Truthy(s.user.value.email)
    ensures var r := SignInSubmit(s); r.user.Some? ==> Truthy(r.user.value.email)
    ensures var r := RegisterSubmit(s); r.user.Some? ==> Truthy(r.user.value.email)
    ensures var r := RegisterSubmit(s); r != s ==> r.user.value.name == s.form.name
  {
  }

  // ----- screens -----

  datatype Screen = Listing | Detail(product: Product) | Checkout

  datatype View = View(selectedCategory: string, selectedProduct: Option<Product>, isCheckout: bool)

  /** The checkout page wins over the product page, which wins over the listing. */
  function ScreenOf(v: View): (sc: Screen)
    ensures sc == Checkout <==> v.isCheckout
    ensures sc.Detail? <==> !v.isCheckout && v.selectedProduct.Some?
    ensures sc.Detail? ==> sc.product == v.selectedProduct.value
  {
    if v.isCheckout then Checkout
    else if v.selectedProduct.Some? then Detail(v.selectedProduct.value)
    else Listing
  }

  /** The header's category callback: records the category and returns to the listing. */
  function SelectCategory(v: View, category: string): (r: View)
    ensures ScreenOf(r) == Listing && r.selectedCategory == category
  {
    View(category, None, false)
  }

  /** `handleGoToCheckout`. */
  function GoToCheckout(v: View): (r: View)
    ensures ScreenOf(r) == Checkout && r.selectedProduct.None? && r.selectedCategory == v.selectedCategory
  {
    v.(selectedProduct := None, isCheckout := true)
  }

  /** Leaving checkout goes back to the listing, since checkout cleared the product. */
  lemma CheckoutBackToListing(v: View)
    ensures ScreenOf(GoToCheckout(v).(isCheckout := false)) == Listing
  {
  }
}
