# Storefront cart, pricing and UI state machines in Dafny

This project models the core of a React beauty storefront (a "Zephyra"
shop). The model covers:

- the cart held by the application root, with its add, quantity and remove
  handlers and the string key that identifies a line;
- the two unit-price rules and the subtotal fold used by the order summary
  and the cart dropdown;
- the coupon, delivery charge and total on the checkout page;
- the cart dropdown's private copy of the cart;
- the product page: size, price, quantity, image carousel, swipe decision
  and the special image order of product 13;
- the search-by-image dialog: file gate, id-to-product mapping, status
  transitions;
- the shopping-assistant chat: transcript, history and requests;
- the header's popovers and cart badge, and the category menu;
- the static catalogue and the record types.

Every React handler is one pure transition on an immutable state. Replies
from the network are inputs: `Success(text) | Failure` for the chat, and
`Parsed(productIds) | Failed` for the image search.

Module layout:

| file | module | models |
|---|---|---|
| js.dfy | `Js` | JavaScript primitives: `undefined` as `Option`, numbers that can be NaN, string truthiness, ASCII `toUpperCase`, `trim`, `startsWith`, the truncating `%`, `String(id)` |
| types.dfy | `Types` | `Product`, `Category`, `CartItem`, `User` |
| catalog.dfy | `Catalog` | `CATEGORIES`, `PRODUCTS` |
| pricing.dfy | `Pricing` | the subtotal's unit price, the displayed unit price, the subtotal fold |
| ledger.dfy | `Ledger` | cart key, add / update / remove, the ledger invariant |
| storefront.dfy | `Storefront` | category filter, category heading, mock sign-in/register, screen choice |
| checkout.dfy | `Checkout` | coupon, discount, delivery, total |
| cart_dropdown.dfy | `CartDropdown` | the dropdown's local copy of the cart |
| product_detail.dfy | `ProductDetail` | product page |
| image_search.dfy | `ImageSearch` | search-by-image dialog |
| chatbot.dfy | `Chatbot` | chat dialog |
| header.dfy | `Header` | badge count, popover exclusivity |
| category_menu.dfy | `CategoryMenu` | expand/select menu |

Modelling choices:

- Prices are exact `real`s. Quantities, ids and pointer offsets are `int`s.
- The subtotal reads `prices[size]` without a guard. A sized line whose
  product has a price map but no entry for that size therefore contributes
  `undefined * q`, which is NaN, and NaN absorbs the whole sum. This is
  modelled with `Js.Number = Finite(v) | NaN`.
- The product page and the per-line amounts use the guarded rule
  `prices?.[size] || price`. That rule falls back to the base price when
  the entry is missing *or zero*. `Pricing.UnitPricesAgreeIff` states exactly
  when the two rules agree.
- `types.ts` declares only `Product` and `Category`. `CartItem` and `User`
  are imported from it but not defined there. Their shapes come from their
  use in `App.tsx`: a line is built at App.tsx:79 and a user at App.tsx:48.
- The chat history is a module-level variable in the source. Here it is a
  field of the chat state.

Behaviours of the code worth knowing, which the model keeps as written:

- A missing size price falls back to the base price only in the displayed
  amounts. In the subtotal it gives NaN (`Pricing.Subtotal`,
  `Pricing.SubtotalUnitPrice`).
- A zero entry is shown at the base price but counted as zero
  (`Pricing.ZeroEntryDisagrees`).
- A product whose `images` is an empty list keeps that empty list, because
  `[] || [imageUrl]` is `[]`. Next/previous on it then computes `% 0`, and
  the index becomes NaN (`ProductDetail.NextIndex`).
- The cart button cannot close an open cart. Its `mousedown` is outside the
  dropdown, so the outside-click listener closes the cart, and the `click`
  then toggles it open again (`Header.CartButtonCannotClose`). The account
  button behaves the same way (`Header.AccountButtonClick`).

## Model

| member | source | states |
|---|---|---|
| Js.Add | components/CheckoutPage.tsx:32 | a sum is a number exactly when both operands are, and is then their sum (NaN absorbs) |
| Js.Mul | components/CheckoutPage.tsx:32 | a product is a number exactly when both factors are, and is then their product |
| Js.ToUpperEqualIff | components/CheckoutPage.tsx:36 | two strings have the same upper-case form exactly when they are equal up to ASCII letter case |
| Js.ToUpperIdempotent | components/CheckoutPage.tsx:36 | upper-casing twice is upper-casing once |
| Js.TrimEmptyIff | components/Chatbot.tsx:65 | `trim` yields the empty string exactly when every character is ECMAScript whitespace |
| Js.IntToStringRoundTrip | App.tsx:69 | the decimal rendering of an id reads back as that id |
| Js.IntToStringInjective | App.tsx:69 | two ids render alike exactly when they are equal |
| Js.Rem | components/ProductDetail.tsx:83-87 | `%` is NaN exactly for a zero divisor and agrees with the mathematical remainder on non-negative operands |
| Catalog.CatalogIdsDistinct | constants.ts:18-135 | product ids are pairwise distinct, all between 1 and 13, with 13 placed between 6 and 7 |
| Catalog.CatalogSizesPriced | constants.ts:66-87 | every listed size has a price entry, and only product 13 lists sizes |
| Catalog.CatalogClassified | constants.ts:4-16 | each product's category is a top-level category and its subcategory a child of it |
| Catalog.CatalogPricesPositive | constants.ts:18-135 | every base price is positive |
| Catalog.GlycolicGlossShape | constants.ts:66-87 | product 13 has five images and sizes 440ml, 200ml, and its base price is the 440ml price |
| Pricing.SubtotalUnitPrice | components/CheckoutPage.tsx:31 | the subtotal's unit price is NaN exactly when a truthy size is looked up in a price map lacking it; otherwise the entry, or the base price when the map is not read |
| Pricing.ResolvedUnitPrice | components/ProductDetail.tsx:48-53 | the shown unit price is the size's entry when the size is truthy and its entry exists and is non-zero, and the base price otherwise |
| Pricing.Subtotal | components/CheckoutPage.tsx:30-33 | the fold is a number exactly when every line's unit price is a number |
| Pricing.UnitPricesAgreeIff | components/CheckoutPage.tsx:31 | both unit-price rules give the same value exactly when the map is not read, or the entry exists and is non-zero or the base price is zero |
| Pricing.DisplayedTotalsSumToSubtotal | components/CheckoutPage.tsx:91 | when every map-reading line finds a non-zero entry, the displayed line totals add up to the subtotal |
| Pricing.ZeroEntryDisagrees | components/CheckoutPage.tsx:91 | a zero size entry is displayed at the base price but counted as zero |
| Pricing.SubtotalNonNegative | components/CheckoutPage.tsx:30-33 | with non-negative prices and quantities a numeric subtotal is non-negative |
| Pricing.SubtotalAppend | components/CheckoutPage.tsx:30-33 | the subtotal of two carts in sequence is the sum of their subtotals |
| Ledger.CartKey | App.tsx:69 | a key is never empty |
| Ledger.CartKeyInjective | App.tsx:69 | two keys are equal exactly when the ids are equal and the sizes give the same tag (absent and empty alike) |
| Ledger.AddToCart | App.tsx:67-82 | an existing key gains the quantity on that line only, with length, order and other fields kept; a new key appends one line carrying product, quantity and size |
| Ledger.UpdateQuantity | App.tsx:84-88 | the keyed line gets max(1, n); length and all other lines unchanged |
| Ledger.RemoveFromCart | App.tsx:90-92 | the key is gone, every other line stays, and distinct keys stay distinct |
| Ledger.RemoveCounts | App.tsx:90-92 | every line with the key is dropped and every other line is kept as many times as it occurred |
| Ledger.RemoveKeepsOrder | App.tsx:90-92 | the remaining lines keep their order |
| Ledger.RemoveAbsentIsIdentity | App.tsx:90-92 | removing an absent key changes nothing |
| Ledger.RemoveIdempotent | App.tsx:90-92 | removing twice is removing once |
| Ledger.RemovePresentShrinksByOne | App.tsx:90-92 | with distinct keys, removing a present key shortens the cart by exactly one |
| Ledger.AddPreservesValid | App.tsx:67-82 | adding keeps keys distinct and each key equal to its line's id and size |
| Ledger.UpdatePreservesValid | App.tsx:84-88 | updating keeps the ledger invariant |
| Ledger.RemovePreservesValid | App.tsx:90-92 | removing keeps the ledger invariant |
| Ledger.QuantitiesStayPositive | App.tsx:67-92 | when every add brings at least one unit, all three handlers keep every line at one unit or more |
| Ledger.AddTwiceMerges | App.tsx:70-77 | adding 1 then 2 of the same product and size gives one line of 3 |
| Ledger.UpdateIdempotent | App.tsx:84-88 | setting a quantity twice is setting it once |
| Ledger.AddRaisesSubtotal | App.tsx:67-82 | adding q units raises the subtotal by the line's unit price times q, merged or new |
| Storefront.FilterByCategory | App.tsx:98 | a product is kept exactly when its category or subcategory is the selection |
| Storefront.FilteredProducts | App.tsx:94-99 | `All` gives the whole catalogue; any other name gives exactly the matching products |
| Storefront.FilterKeepsOrder | App.tsx:98 | the filtered list is an order-preserving subsequence of the catalogue |
| Storefront.ShampooListing | App.tsx:98 | the Shampoo listing holds product 13 and not the facial cleanser |
| Storefront.CategoryTitle | App.tsx:101-106 | the heading is `Our Collection` for All, the name itself if it is a top-level or child category name, else `Products` |
| Storefront.TitlesOfCatalogue | App.tsx:101-106 | with the real categories: Hair Oil and Haircare are recognised, Makeup gives `Products` |
| Storefront.SignInSubmit | App.tsx:45-52 | non-empty email and password sign in (name defaulting to Jane Doe), hide the modal and clear the form; otherwise nothing changes |
| Storefront.RegisterSubmit | App.tsx:54-61 | all three fields are needed; then the user is exactly the typed name and email |
| Storefront.SignOut | App.tsx:63-65 | signing out clears the user only |
| Storefront.SubmitsKeepEmail | App.tsx:45-61 | a signed-in user always has a non-empty email and registration never invents a name |
| Storefront.ScreenOf | App.tsx:113-119 | checkout wins over the product page, which wins over the listing; the product page shows the selected product |
| Storefront.SelectCategory | App.tsx:147-151 | choosing a category records it and returns to the listing |
| Storefront.GoToCheckout | App.tsx:108-111 | going to checkout shows checkout and forgets the selected product |
| Storefront.CheckoutBackToListing | App.tsx:114 | leaving checkout lands on the listing, not a product page |
| Checkout.CouponDiscount | components/CheckoutPage.tsx:35-42 | a matching code earns 5% of the subtotal, any other code zero |
| Checkout.Total | components/CheckoutPage.tsx:44-45 | the total is a number exactly when subtotal and discount are, and is then subtotal + 150 − discount |
| Checkout.TypeCode | components/CheckoutPage.tsx:106 | typing records the code and leaves the discount as it was until Apply |
| Checkout.Apply | components/CheckoutPage.tsx:35-42 | applying replaces the discount by what the current code earns on the current subtotal |
| Checkout.CouponCaseInsensitive | components/CheckoutPage.tsx:36 | the coupon matches exactly the strings equal to `4EVERYOUNG` up to letter case |
| Checkout.CouponExamples | components/CheckoutPage.tsx:36-41 | `4everyoung` and `4EVERYOUNG` earn 5%, `bogus` earns nothing |
| Checkout.ReapplyBehaviour | components/CheckoutPage.tsx:35-42 | a bad code after a good one resets the discount to zero; applying twice equals applying once |
| Checkout.TotalBounds | components/CheckoutPage.tsx:37-45 | for a non-negative subtotal, 0 ≤ discount ≤ subtotal and 150 ≤ total ≤ subtotal + 150 |
| Checkout.ThousandWithCoupon | components/CheckoutPage.tsx:37-45 | subtotal 1000 with the coupon totals 1100 |
| Checkout.DiscountRowIff | components/CheckoutPage.tsx:119-124 | the discount row shows exactly when the coupon matched and the subtotal is positive |
| Checkout.CatalogSizedPricesResolve | components/CheckoutPage.tsx:31 | every size listed in the catalogue resolves, under the subtotal's rule, to a positive number |
| CartDropdown.Mount | components/CartDropdown.tsx:39 | the first copy is the parent's list, closed |
| CartDropdown.Sync | components/CartDropdown.tsx:41-46 | while open the copy becomes the parent's list; while closed it is kept |
| CartDropdown.Open | components/CartDropdown.tsx:41-46 | opening shows the parent's list |
| CartDropdown.Close | components/CartDropdown.tsx:48-57 | closing, by the close button or an outside click, keeps the local copy |
| CartDropdown.QuantityChange | components/CartDropdown.tsx:65-76 | each line matching (id, size) gets max(1, q + change), so exactly 1 when q + change < 1, with other fields kept; other lines and the length unchanged |
| CartDropdown.RemoveItem | components/CartDropdown.tsx:78-82 | every line matching (id, size) is dropped and every other line is kept as many times as it occurred |
| CartDropdown.RemoveItemKeepsOrder | components/CartDropdown.tsx:78-82 | the kept lines stay in order |
| CartDropdown.RemoveAbsentIsIdentity | components/CartDropdown.tsx:78-82 | removing what is not there changes nothing |
| CartDropdown.DecrementAtOneStays | components/CartDropdown.tsx:69-71 | the minus button on a line of 1 leaves it at 1 |
| CartDropdown.ChangeKeepsPositive | components/CartDropdown.tsx:65-82 | both edits keep every line at one unit or more |
| CartDropdown.SizeMatchingIsStrict | components/CartDropdown.tsx:68 | a sizeless request never touches a sized line, and the other way round |
| CartDropdown.OpenShowsParentSubtotal | components/CartDropdown.tsx:84-87 | after opening, the dropdown's subtotal equals the parent cart's |
| CartDropdown.EditsDoNotSurviveReopen | components/CartDropdown.tsx:41-82 | an edit made in the dropdown is gone after closing and reopening |
| ProductDetail.DisplayImagesFor | components/ProductDetail.tsx:55-68 | product 13 with five images shows four: the 200ml or 440ml bottle first, then images 1–3; anything else shows all images |
| ProductDetail.Initial | components/ProductDetail.tsx:31-41 | first listed size or none, all the product's images, quantity 1, first image, base price, not dragging with press point and offset 0, not added |
| ProductDetail.Mount | components/ProductDetail.tsx:31-70 | a freshly shown product has its first size, the resolved price and images for it, quantity 1, the first image, no drag and no Added label |
| ProductDetail.SyncToSize | components/ProductDetail.tsx:48-70 | the effect sets the resolved price and the images for the size and rewinds to image 0; size, quantity, drag state and the Added flag are kept |
| ProductDetail.SelectSize | components/ProductDetail.tsx:183 | clicking the size already checked changes nothing; another size is selected and the effect prices it, shows its images and rewinds the carousel; quantity, drag state and the Added flag are kept |
| ProductDetail.ChangeQuantity | components/ProductDetail.tsx:72-74 | the quantity becomes max(1, q + amount), so exactly 1 when q + amount < 1; nothing else changes |
| ProductDetail.NextIndex | components/ProductDetail.tsx:82-84 | the next index stays within n images, and is NaN exactly for zero images or a NaN index |
| ProductDetail.PrevIndex | components/ProductDetail.tsx:86-88 | the previous index stays within n images, and is NaN exactly for zero images or a NaN index |
| ProductDetail.NextPrevInverse | components/ProductDetail.tsx:82-88 | next steps forward round the ring, previous steps back, and each undoes the other |
| ProductDetail.InteractionStart | components/ProductDetail.tsx:94-100 | pressing starts a drag at the press point and changes nothing else |
| ProductDetail.InteractionMove | components/ProductDetail.tsx:102-107 | while pressed the offset is the distance from the press point; otherwise nothing changes |
| ProductDetail.InteractionEnd | components/ProductDetail.tsx:109-125 | beyond −50 shows the next image, beyond 50 the previous, else the same; the offset returns to 0 and nothing else changes |
| ProductDetail.AddToCartClick | components/ProductDetail.tsx:76-80 | the cart receives the product, quantity and size as they stand, and the button shows Added |
| ProductDetail.AddedLineShowsPagePrice | components/ProductDetail.tsx:172 | after the price effect, the page's price equals the order summary's amount for the line the button creates |
| ProductDetail.Step | components/ProductDetail.tsx:72-183 | only a new size choice changes size, price and images, and re-choosing the current size changes nothing; quantity stays positive; with images at every size the index stays in range; Added follows the button and its timeout |
| ProductDetail.Run | components/ProductDetail.tsx:72-183 | without a size choice, any interaction keeps the size, price and images the page started with |
| ProductDetail.RunKeepsInvariants | components/ProductDetail.tsx:72-124 | with at least one image at every size, any interaction keeps quantity ≥ 1 and the index within the images |
| ProductDetail.CatalogueHasImages | components/ProductDetail.tsx:55 | every catalogue product has an image to show at every size |
| ProductDetail.GlycolicGlossPage | components/ProductDetail.tsx:31-70 | product 13 opens at 440ml for 990 with the 440ml bottle; 200ml shows the 200ml bottle for 500 among four images; clicking 440ml again on the third image stays there |
| ImageSearch.Reset | components/ImageSearchModal.tsx:43-49 | every field returns to its initial value |
| ImageSearch.FileChange | components/ImageSearchModal.tsx:57-64 | an image file replaces all state with itself and its preview; anything else changes nothing |
| ImageSearch.FindById | components/ImageSearchModal.tsx:126 | the lookup finds the first product carrying the id, or nothing exactly when no product does |
| ImageSearch.MatchIds | components/ImageSearchModal.tsx:125-127 | no more results than ids, only catalogue products with requested ids, and every found id's product included |
| ImageSearch.NoMatchesGiveNothing | components/ImageSearchModal.tsx:125-127 | ids absent from the catalogue give no results |
| ImageSearch.MatchAppend | components/ImageSearchModal.tsx:125-127 | the mapping works id by id, so results follow the order of the ids |
| ImageSearch.FindUnique | components/ImageSearchModal.tsx:126 | with distinct ids, looking up a product's id finds that product |
| ImageSearch.ExampleTwoNinetyNineFive | components/ImageSearchModal.tsx:125-127 | `[2, 99, 5]` gives products 2 and 5 in that order |
| ImageSearch.BeginSearch | components/ImageSearchModal.tsx:67-70 | without a file nothing happens; otherwise loading starts with no error and no results |
| ImageSearch.FinishSearch | components/ImageSearchModal.tsx:124-138 | a failure sets the retry message; a missing or empty list sets the no-match message; a non-empty list sets the mapped results; loading always ends |
| ImageSearch.Search | components/ImageSearchModal.tsx:67 | searching without a file is a no-op |
| ImageSearch.SearchOutcomes | components/ImageSearchModal.tsx:66-138 | a search with a file ends not loading with exactly one of the three outcomes |
| ImageSearch.UnmatchedIdsNoError | components/ImageSearchModal.tsx:124-128 | a non-empty list with no catalogue ids gives no results and no error |
| ImageSearch.NewImageClearsSearch | components/ImageSearchModal.tsx:57-64 | choosing a new image erases every trace of an earlier search |
| Chatbot.Open | components/Chatbot.tsx:53-58 | opening with an empty transcript shows the greeting and empties the history; otherwise both are kept |
| Chatbot.Close | components/Chatbot.tsx:121 | closing keeps transcript, history, input and loading flag |
| Chatbot.Type | components/Chatbot.tsx:153 | typing replaces the input only; transcript, history, open and loading flags are kept |
| Chatbot.Send | components/Chatbot.tsx:64-83 | blank input does nothing; otherwise the untrimmed input joins transcript and history, the input clears, loading starts and the request carries the whole history |
| Chatbot.Settle | components/Chatbot.tsx:94-107 | a reply joins both lists; a failure adds the apology to the transcript only; loading ends |
| Chatbot.Exchange | components/Chatbot.tsx:64-107 | blank input changes nothing; otherwise the user turn and the reply (or the apology) join the transcript, the turn and any reply join the history, the input is empty and loading is over |
| Chatbot.Converse | components/Chatbot.tsx:64-107 | any run of turns keeps the dialog's open state and never shortens the transcript or the history |
| Chatbot.BlankInputIgnored | components/Chatbot.tsx:65 | input of whitespace only trims to the empty string, so a send changes nothing and sends nothing |
| Chatbot.RequestCarriesHistory | components/Chatbot.tsx:74-83 | each request is the earlier history followed by the new user turn |
| Chatbot.ExchangeCounts | components/Chatbot.tsx:64-107 | one exchange adds two transcript lines and two history entries, or one on failure |
| Chatbot.ConverseCounts | components/Chatbot.tsx:64-107 | n sent turns with k failures add 2n lines to the transcript and 2n − k entries to the history |
| Chatbot.ExchangeKeepsQuestions | components/Chatbot.tsx:69-104 | transcript and history hold the same user turns in the same order after any exchange |
| Chatbot.FirstConversation | components/Chatbot.tsx:53-104 | from a fresh page, after opening and n turns with k failures: 1 + 2n transcript lines, 2n − k history entries, same user questions |
| Chatbot.ReopenKeepsConversation | components/Chatbot.tsx:53-58 | reopening neither greets again nor forgets the history |
| Header.TotalItems | components/Header.tsx:76 | an empty cart shows 0; the badge is at least the number of lines when each holds a unit or more |
| Header.AddRaisesBadge | components/Header.tsx:76 | adding q units raises the badge by q, merged or new |
| Header.Step | components/Header.tsx:71-126 | the cart button toggles the cart and shuts the account dropdown, and the other way round; the menu button opens the menu; category picks close the menu and forward the name; the logo selects All; each close action closes its own popover; every event leaves the popovers it does not target unchanged |
| Header.AlwaysExclusive | components/Header.tsx:102-126 | the cart and account dropdowns are never open together, after any clicks |
| Header.ToggleCartTwice | components/Header.tsx:102 | two runs of the cart button's `onClick` handler restore the cart and leave the account closed |
| Header.CartButtonClick | components/Header.tsx:102-111 | a real click on the cart button, with the open dropdowns' outside-click listeners firing first, always leaves the cart open and the account closed |
| Header.AccountButtonClick | components/Header.tsx:116-126 | a real click on the account button always leaves the account dropdown open and the cart closed |
| Header.CartButtonCannotClose | components/CartDropdown.tsx:48-57 | with the cart open, the handler alone would close it, but a real click on the button leaves it open |
| CategoryMenu.ClickItem | components/CategoryMenu.tsx:30-36 | an entry with children toggles and selects nothing; a leaf selects its own name |
| CategoryMenu.VisibleChildren | components/CategoryMenu.tsx:47-58 | children are shown exactly while an entry with children is expanded |
| CategoryMenu.ClickChild | components/CategoryMenu.tsx:52 | a shown child selects the child's name |
| CategoryMenu.ParentClickTwice | components/CategoryMenu.tsx:30-33 | two clicks on a parent restore its state and select nothing |
| CategoryMenu.HighlightRules | components/CategoryMenu.tsx:42 | a parent is never highlighted; a leaf is highlighted exactly when it is the selection, and clicking it makes it so |
| CategoryMenu.CatalogueMenu | components/CategoryMenu.tsx:85-87 | with the real categories, Skincare is a leaf and Haircare opens onto three children |

## Left out

- `netlify/functions/gemini.ts`, the model proxy: it passes requests to a library whose code is not part of this model.
- `fetch`, JSON parsing, `FileReader`/base64, `URL.createObjectURL`: replaced by the reply inputs (`Chatbot.Outcome`, `ImageSearch.Reply`) and a preview-URL parameter.
- `setTimeout`, so the 2-second "Added!" label and the 300 ms deferred image-search reset are not modelled as timed. The reset is modelled as `ImageSearch.Reset`, and the label's expiry as a separate page event.
- `window.scrollTo`, `scrollIntoView` and CSS transitions: they have no effect on the modelled state. The click-outside listeners of the cart and account dropdowns do change it; they are the `CloseCart` and `CloseAccount` header events, and `Header.CartButtonClick` combines them with a button's handler.
- Header.ToggleCartTwice: describes two runs of the toggle handler alone; two real clicks on the cart button do not close the cart (`Header.CartButtonCannotClose`).
- React scheduling is out of scope: effect ordering, batching of functional updates, stale closures, and replies arriving after the component has changed. Each handler is one atomic step. The chat and the image search are each modelled as a send followed by their reply.
- The chat's system prompt and the image-search prompt text, which embed the catalogue as JSON: they only go into the request body.
- Floating-point rounding and `toFixed(2)`: prices are exact reals.
- `toUpperCase` and `trim` beyond what `Js` states: upper-casing covers ASCII letters only.
- Browser form validation (`required`, `minLength={6}`): the model checks only what the handlers check.
- `Header.TotalItems`: quantities are summed as integers; a NaN quantity cannot arise, because every quantity comes from an integer counter.
- Ledger.AddToCart: the requested quantity is taken as given. The product page always sends at least 1, and `Ledger.QuantitiesStayPositive` assumes that.
- The `onQuantityChange`/`onRemoveItem` props the header passes to the cart dropdown: the dropdown's props do not declare them and it never calls them, so they have no effect (see `CartDropdown.EditsDoNotSurviveReopen`).
- Presentation-only components (search bar, hero, product card, logo, footer, auth modal frame): they hold no state of the core. The account dropdown's only effects on the core are its outside-click close and its menu actions, modelled as `CloseAccount` and `AccountAction`.
- `Storefront.ShampooListing` states membership facts about the Shampoo listing rather than the whole list, to keep the proof small.
