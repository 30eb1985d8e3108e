/**
 The product page: the chosen size and quantity, the price shown for them,
 the image carousel with its swipe gesture, and the add-to-cart button.

 Choosing a size (and first showing a product) re-runs one effect that
 resolves the unit price, picks the images to show and rewinds the
 carousel to the first image. Product 13 with five images shows four:
 the picture of the chosen bottle size followed by three lifestyle shots.
 */
module ProductDetail {
  import opened Js
  import opened Types
  import opened Pricing
  import opened Catalog
  import Ledger

  const SWIPE_THRESHOLD: int := 50

  /** The carousel index is a number or NaN (`None`): NaN arises when the
      list of images is empty and the index is taken modulo 0. */
  datatype DetailState = DetailState(
    selectedSize: Option<string>,
    displayImages: seq<string>,
    currentPrice: real,
    activeIndex: Option<int>,
    quantity: int,
    dragging: bool,
    dragStart: int,
    dragOffset: int,
    isAdded: bool)

  /** `product.images || [product.imageUrl]`; an empty list is kept as it is. */
  function AllImages(p: Product): seq<string> {
    if p.images.Some? then p.images.value else [p.imageUrl]
  }

  /** The images the carousel shows for a size. */
  function DisplayImagesFor(p: Product, size: Option<string>): (r: seq<string>)
    ensures p.id == 13 && |AllImages(p)| == 5 ==>
      |r| == 4 && r[1..] == AllImages(p)[1..4]
      && r[0] == (if size == Some("200ml") then AllImages(p)[4] else AllImages(p)[0])
    ensures !(p.id == 13 && |AllImages(p)| == 5) ==> r == AllImages(p)
  {
    var all := AllImages(p);
    if p.id == 13 && |all| == 5 then
      (if size == Some("200ml") then [all[4]] else [all[0]]) + all[1..4]
    else all
  }

  /** The state right after `useState`: first listed size (or none), all
      the product's images, quantity 1, first image, not dragging, not added. */
  function Initial(p: Product): (s: DetailState)
    ensures s.selectedSize == (if p.sizes.Some? && |p.sizes.value| > 0 then Some(p.sizes.value[0]) else None)
    ensures s.quantity == 1 && s.activeIndex == Some(0) && s.currentPrice == p.price
    ensures s.displayImages == AllImages(p)
    ensures !s.dragging && s.dragStart == 0 && s.dragOffset == 0 && !s.isAdded
  {
    DetailState(
      if p.sizes.Some? && |p.sizes.value| > 0 then Some(p.sizes.value[0]) else None,
      AllImages(p), p.price, Some(0), 1, false, 0, 0, false)
  }

  /** The effect on `[selectedSize, product]`. */
  function SyncToSize(p: Product, s: DetailState): (r: DetailState)
    ensures r.currentPrice == ResolvedUnitPrice(p, s.selectedSize)
    ensures r.displayImages == DisplayImagesFor(p, s.selectedSize)
    ensures r.activeIndex == Some(0)
    ensures r.selectedSize == s.selectedSize && r.quantity == s.quantity
    ensures r.dragging == s.dragging && r.dragStart == s.dragStart && r.dragOffset == s.dragOffset
    ensures r.isAdded == s.isAdded
  {
    s.(currentPrice := ResolvedUnitPrice(p, s.selectedSize),
       displayImages := DisplayImagesFor(p, s.selectedSize),
       activeIndex := Some(0))
  }

  /** Showing a product: initial state, then the effect. */
  function Mount(p: Product): (r: DetailState)
    ensures r.selectedSize == Initial(p).selectedSize && r.quantity == 1 && r.activeIndex == Some(0)
    ensures r.currentPrice == ResolvedUnitPrice(p, r.selectedSize)
    ensures r.displayImages == DisplayImagesFor(p, r.selectedSize)
    ensures !r.dragging && r.dragStart == 0 && r.dragOffset == 0 && !r.isAdded
  {
    SyncToSize(p, Initial(p))
  }

  /** Clicking a size radio button. The radio of the size already chosen is
      checked, so clicking it fires no change and the page stays as it is;
      any other size is selected and the effect re-runs. */
  function SelectSize(p: Product, s: DetailState, size: string): (r: DetailState)
    ensures r.selectedSize == Some(size)
    ensures s.selectedSize == Some(size) ==> r == s
    ensures s.selectedSize != Some(size) ==>
      r.activeIndex == Some(0)
      && r.currentPrice == ResolvedUnitPrice(p, Some(size))
      && r.displayImages == DisplayImagesFor(p, Some(size))
    ensures r.quantity == s.quantity && r.isAdded == s.isAdded
    ensures r.dragging == s.dragging && r.dragStart == s.dragStart && r.dragOffset == s.dragOffset
  {
    if s.selectedSize == Some(size) then s
    else SyncToSize(p, s.(selectedSize := Some(size)))
  }

  /** `setQuantity(prev => Math.max(1, prev + amount))`. */
  function ChangeQuantity(s: DetailState, amount: int): (r: DetailState)
    ensures r.quantity >= 1 && r.quantity >= s.quantity + amount
    ensures s.quantity + amount >= 1 ==> r.quantity == s.quantity + amount
    ensures s.quantity + amount < 1 ==> r.quantity == 1
    ensures r == s.(quantity := r.quantity)
  {
    var q := s.quantity + amount;
    s.(quantity := if q > 1 then q else 1)
  }

  /** `(i + 1) % n`, NaN when `n` is 0 or the index is already NaN. */
  function NextIndex(i: Option<int>, n: int): (r: Option<int>)
    ensures n >= 1 && i.Some? && 0 <= i.value < n ==> r.Some? && 0 <= r.value < n
    ensures r.Some? <==> i.Some? && n != 0
  {
    if i.None? then None else Rem(i.value + 1, n)
  }

  /** `(i - 1 + n) % n`. */
  function PrevIndex(i: Option<int>, n: int): (r: Option<int>)
    ensures n >= 1 && i.Some? && 0 <= i.value < n ==> r.Some? && 0 <= r.value < n
    ensures r.Some? <==> i.Some? && n != 0
  {
    if i.None? then None else Rem(i.value - 1 + n, n)
  }

  /** Next moves one step forward round the ring of images and previous one
      step back; each undoes the other. */
  lemma NextPrevInverse(i: int, n: int)
    requires n >= 1 && 0 <= i < n
    ensures NextIndex(Some(i), n) == Some(if i == n - 1 then 0 else i + 1)
    ensures PrevIndex(Some(i), n) == Some(if i == 0 then n - 1 else i - 1)
    ensures PrevIndex(NextIndex(Some(i), n), n) == Some(i)
    ensures NextIndex(PrevIndex(Some(i), n), n) == Some(i)
  {
    ModOnce(i + 1, n);
    ModOnce(i - 1 + n, n);
    var nx := if i == n - 1 then 0 else i + 1;
    var pv := if i == 0 then n - 1 else i - 1;
    ModOnce(nx - 1 + n, n);
    ModOnce(pv + 1, n);
  }

  /** Reducing a value in `[0, 2n)` modulo `n` subtracts `n` at most once. */
  lemma ModOnce(a: int, n: int)
    requires n >= 1 && 0 <= a < 2 * n
    ensures a % n == (if a < n then a else a - n)
  {
    if a < n {
      assert a == n * 0 + a;
    } else {
      assert a == n * 1 + (a - n);
    }
  }

  /** Pressing on the carousel records the press point; the offset, index
      and everything else are kept. */
  function InteractionStart(s: DetailState, x: int): (r: DetailState)
    ensures r.dragging && r.dragStart == x
    ensures r.dragOffset == s.dragOffset && r.activeIndex == s.activeIndex && r.displayImages == s.displayImages
    ensures r.selectedSize == s.selectedSize && r.currentPrice == s.currentPrice
    ensures r.quantity == s.quantity && r.isAdded == s.isAdded
  {
    s.(dragging := true, dragStart := x)
  }

  /** Moving while pressed records the offset from the press point. */
  function InteractionMove(s: DetailState, x: int): (r: DetailState)
    ensures s.dragging ==> r == s.(dragOffset := x - s.dragStart)
    ensures !s.dragging ==> r == s
  {
    if s.dragging then s.(dragOffset := x - s.dragStart) else s
  }

  /** Releasing: a drag further than the threshold to the left shows the
      next image, to the right the previous one; the offset then returns to 0. */
  function InteractionEnd(s: DetailState): (r: DetailState)
    ensures !s.dragging ==> r == s
    ensures s.dragging ==> !r.dragging && r.dragOffset == 0
    ensures s.dragging ==> r == s.(dragging := false, dragOffset := 0, activeIndex := r.activeIndex)
    ensures s.dragging && s.dragOffset < -SWIPE_THRESHOLD ==> r.activeIndex == NextIndex(s.activeIndex, |s.displayImages|)
    ensures s.dragging && s.dragOffset > SWIPE_THRESHOLD ==> r.activeIndex == PrevIndex(s.activeIndex, |s.displayImages|)
    ensures s.dragging && -SWIPE_THRESHOLD <= s.dragOffset <= SWIPE_THRESHOLD ==> r.activeIndex == s.activeIndex
  {
    if !s.dragging then s
    else
      var n := |s.displayImages|;
      var idx :=
        if s.dragOffset < -SWIPE_THRESHOLD then NextIndex(s.activeIndex, n)
        else if s.dragOffset > SWIPE_THRESHOLD then PrevIndex(s.activeIndex, n)
        else s.activeIndex;
      s.(dragging := false, activeIndex := idx, dragOffset := 0)
  }

  /** What the add-to-cart button hands to the cart. */
  datatype AddRequest = AddRequest(product: Product, quantity: int, size: Option<string>)

  datatype AddResult = AddResult(state: DetailState, request: AddRequest)

  /** `handleAddToCartClick`: forwards the product, quantity and size as they stand. */
  function AddToCartClick(p: Product, s: DetailState): (r: AddResult)
    ensures r.request == AddRequest(p, s.quantity, s.selectedSize)
    ensures r.state == s.(isAdded := true)
  {
    AddResult(s.(isAdded := true), AddRequest(p, s.quantity, s.selectedSize))
  }

  /** The price line: unit price times quantity. */
  function ShownPrice(s: DetailState): real {
    s.currentPrice * s.quantity as real
  }

  /** Once the price effect has run, the page's price line equals what the
      order summary shows for the line the button creates in an empty cart. */
  lemma AddedLineShowsPagePrice(p: Product, s: DetailState)
    requires s.currentPrice == ResolvedUnitPrice(p, s.selectedSize)
    ensures var req := AddToCartClick(p, s).request;
      var cart := Ledger.AddToCart([], req.product, req.quantity, req.size);
      |cart| == 1 && cart[0].quantity == s.quantity && DisplayedLineTotal(cart[0]) == ShownPrice(s)
  {
  }

  /** The carousel index stays within the images whenever there is at least one. */
  predicate IndexInRange(s: DetailState) {
    s.activeIndex.Some? && 0 <= s.activeIndex.value < |s.displayImages|
  }

  /** Page events, for reasoning about any interaction sequence. */
  datatype DetailEvent =
    | ChooseSize(size: string)
    | Quantity(amount: int)
    | Next
    | Prev
    | Press(x: int)
    | Drag(x: int)
    | Release
    | AddClick
    | AddedTimeout

  /** One page event. Only a size choice changes the size, price and images;
      quantity stays positive; with images at every size the index stays
      within them; the Added flag follows the button and its timeout. */
  function Step(p: Product, s: DetailState, e: DetailEvent): (r: DetailState)
    ensures r.selectedSize == (if e.ChooseSize? then Some(e.size) else s.selectedSize)
    ensures !e.ChooseSize? ==> r.currentPrice == s.currentPrice && r.displayImages == s.displayImages
    ensures e.ChooseSize? && s.selectedSize != Some(e.size) ==> r.currentPrice == ResolvedUnitPrice(p, Some(e.size))
    ensures e.ChooseSize? && s.selectedSize == Some(e.size) ==> r == s
    ensures s.quantity >= 1 ==> r.quantity >= 1
    ensures !e.Quantity? ==> r.quantity == s.quantity
    ensures IndexInRange(s) && (forall size :: |DisplayImagesFor(p, Some(size))| >= 1) ==> IndexInRange(r)
    ensures e.AddClick? ==> r.isAdded
    ensures e.AddedTimeout? ==> !r.isAdded
    ensures !e.AddClick? && !e.AddedTimeout? ==> r.isAdded == s.isAdded
  {
    match e
    case ChooseSize(size) => SelectSize(p, s, size)
    case Quantity(amount) => ChangeQuantity(s, amount)
    case Next => s.(activeIndex := NextIndex(s.activeIndex, |s.displayImages|))
    case Prev => s.(activeIndex := PrevIndex(s.activeIndex, |s.displayImages|))
    case Press(x) => InteractionStart(s, x)
    case Drag(x) => InteractionMove(s, x)
    case Release => InteractionEnd(s)
    case AddClick => AddToCartClick(p, s).state
    case AddedTimeout => s.(isAdded := false)
  }

  /** A sequence of page events. Without a size choice among them the size,
      price and images are those the page started with. */
  function Run(p: Product, s: DetailState, events: seq<DetailEvent>): (r: DetailState)
    ensures (forall k :: 0 <= k < |events| ==> !events[k].ChooseSize?) ==>
      r.selectedSize == s.selectedSize && r.currentPrice == s.currentPrice && r.displayImages == s.displayImages
    decreases |events|
  {
    if events == [] then s else Run(p, Step(p, s, events[0]), events[1..])
  }

  /** For a product with at least one image to show, every interaction
      sequence keeps the quantity at 1 or more and the carousel index within
      the images. */
  lemma {:induction false} RunKeepsInvariants(p: Product, s: DetailState, events: seq<DetailEvent>)
    requires s.quantity >= 1 && IndexInRange(s)
    requires forall size :: |DisplayImagesFor(p, Some(size))| >= 1
    ensures Run(p, s, events).quantity >= 1 && IndexInRange(Run(p, s, events))
    decreases |events|
  {
    if events != [] {
      var t := Step(p, s, events[0]);
      assert t.quantity >= 1 && IndexInRange(t);
      RunKeepsInvariants(p, t, events[1..]);
    }
  }

  /** Every catalogue product has an image to show at every size. */
  lemma CatalogueHasImages(i: nat, size: Option<string>)
    requires i < |PRODUCTS|
    ensures |DisplayImagesFor(PRODUCTS[i], size)| >= 1
  {
  }

  /** Product 13 opens at its 440ml size, priced 990, showing the 440ml
      bottle first; choosing 200ml shows the 200ml bottle and prices it at 500;
      clicking 440ml again while on the third image stays on the third image. */
  lemma GlycolicGlossPage()
    ensures Mount(GLYCOLIC_GLOSS).selectedSize == Some("440ml")
    ensures Mount(GLYCOLIC_GLOSS).currentPrice == 990.0
    ensures Mount(GLYCOLIC_GLOSS).displayImages[0] == GLYCOLIC_GLOSS.images.value[0]
    ensures SelectSize(GLYCOLIC_GLOSS, Mount(GLYCOLIC_GLOSS), "200ml").displayImages[0] == GLYCOLIC_GLOSS.images.value[4]
    ensures SelectSize(GLYCOLIC_GLOSS, Mount(GLYCOLIC_GLOSS), "200ml").currentPrice == 500.0
    ensures |SelectSize(GLYCOLIC_GLOSS, Mount(GLYCOLIC_GLOSS), "200ml").displayImages| == 4
    ensures SelectSize(GLYCOLIC_GLOSS, Mount(GLYCOLIC_GLOSS).(activeIndex := Some(2)), "440ml").activeIndex == Some(2)
  {
  }
}
