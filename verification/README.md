# Storefront logic, modelled in Dafny

A model of the logic inside the storefront's React components, lifted into
total functions over immutable datatypes:

- **Checkout page** (`checkout_page.dfy`, `text.dfy`): the customer form
  (name, phone, email), the parallel record of error flags, the validator
  (trimmed-empty checks and an "@" check on the email), the edit transition
  that sets one field and clears only that field's flag, order placement
  gated on validation, the delayed order completion, and the per-line amount
  (unit price times quantity). `String.prototype.trim` is modelled with the
  ECMAScript white-space and line-terminator code points.
- **Navigation bar** (`navigation.dfy`): the cart badge count as the left
  fold `reduce((sum, item) => sum + item.quantity, 0)`, proved equal to a
  reference sum; the badge shown iff the count is positive; the two links
  active by exact path equality.
- **Product page** (`product_detail.dfy`, `products.dfy`): first-match
  lookup of the route id in the constant three-entry catalogue, the
  not-found branch (including an absent route parameter), and the
  add-to-cart handler.
- **Rotating hero** (`rotating_hero.dfy`): the index/visibility state, the
  fade-out tick, the step `(prevIndex + 1) % heroTexts.length` (with
  JavaScript's truncating `%` written out), the progress indicators, and
  arbitrary interleavings of ticks and completions.

Calls into the cart container and the router are returned as `Shop.Effect`
values rather than performed: `HandleAddToCart` yields `AddToCart` and
`Navigate`, and `FinishOrder` yields `ClearCart` and `Navigate`. The cart
container (`src/context/CartContext`) is not part of this model, so nothing
is assumed about what those calls do.

One observation from the proofs: the email's trimmed-empty test is
redundant. "@" is not white space, so an email is flagged exactly when it
has no "@" (`CheckoutPage.EmailFlagIffNoAt`).

The declared `Product` interface (`src/types/product.ts`) has a numeric
`id` and `price_cents`; the catalogue and the components use a string `id`,
`price` and `image`. The model follows the shape the code actually uses.

## Model

| member | source | states |
|---|---|---|
| `Text.TrimStart` | src/components/CheckoutPage.tsx:46 | result is a suffix; everything dropped is white space; it is empty iff the input is all white space |
| `Text.TrimEnd` | src/components/CheckoutPage.tsx:46 | result is a prefix; everything dropped is white space; it is empty iff the input is all white space |
| `Text.Trim` | src/components/CheckoutPage.tsx:46-48 | the result is the input with a white-space prefix and a white-space suffix removed; it is empty iff every character is white space; a non-empty result starts and ends with a visible character |
| `Text.TrimKeepsVisible` | src/components/CheckoutPage.tsx:46-48 | any visible character of the input is still in the trimmed string |
| `CheckoutPage.FieldErrors` | src/components/CheckoutPage.tsx:45-49 | name flagged iff all white space; phone likewise; email iff all white space or no "@" in the untrimmed value |
| `CheckoutPage.ValidateForm` | src/components/CheckoutPage.tsx:44-53 | changes only the error record: name flagged iff all white space, phone likewise, email iff it has no "@"; returns true iff no flag is set iff the form is acceptable |
| `CheckoutPage.EmailFlagIffNoAt` | src/components/CheckoutPage.tsx:48 | the email is flagged exactly when it contains no "@" |
| `CheckoutPage.HandleInputChange` | src/components/CheckoutPage.tsx:29-42 | the named field takes the value and the other two are unchanged; that field's flag is cleared, the others unchanged; an unflagged field leaves the error record as it was |
| `CheckoutPage.EditNeverRaisesFlags` | src/components/CheckoutPage.tsx:36-41 | an edit can lower a flag but never raise one |
| `CheckoutPage.EditsKeepNoErrors` | src/components/CheckoutPage.tsx:29-42 | any sequence of edits from an unflagged state leaves every flag down |
| `CheckoutPage.HandlePlaceOrder` | src/components/CheckoutPage.tsx:55-57 | flags are recomputed as by validation and the form is kept; an acceptable form enters the ordered state with no flags; otherwise the ordered flag is unchanged and some flag is set |
| `CheckoutPage.FinishOrder` | src/components/CheckoutPage.tsx:58-62 | leaves the ordered state keeping form and flags; requests a cart clear and ends by navigating home |
| `CheckoutPage.Dispatch` | src/components/CheckoutPage.tsx:55-80 | on one mounted page, every action preserves the invariant "ordered implies acceptable form and no flags"; placing an order from the form enters the ordered state iff the form is acceptable; an edit on the form sets that field and clears its flag; on the confirmation screen edits and clicks change nothing, and the timer leaves the ordered state emitting exactly ClearCart then Navigate("/"); only that timer emits effects |
| `CheckoutPage.RunKeepsConsistent` | src/components/CheckoutPage.tsx:55-66 | the invariant holds after any sequence of actions |
| `CheckoutPage.ReachableIsConsistent` | src/components/CheckoutPage.tsx:9-19 | from the initial state (empty form, no flags, not ordered) every reachable state satisfies the invariant |
| `CheckoutPage.LineAmounts` | src/components/CheckoutPage.tsx:124-146 | one amount per cart line, in cart order, each equal to unit price times quantity and non-negative for non-negative quantities |
| `Navigation.Reduce` | src/components/Navigation.tsx:10 | the left fold from a running sum equals that sum plus the reference quantity sum |
| `Navigation.TotalItems` | src/components/Navigation.tsx:10 | the badge count equals the sum of all quantities; an empty cart counts 0 |
| `Navigation.QuantitySumAppend` | src/components/Navigation.tsx:10 | the quantity sum of two concatenated carts is the sum of their sums |
| `Navigation.AppendRaisesTotal` | src/components/Navigation.tsx:10 | appending a line raises the count by exactly its quantity |
| `Navigation.Badge` | src/components/Navigation.tsx:44-48 | the badge is shown iff the count is positive, and then shows the count |
| `Navigation.BadgeIffSomePositive` | src/components/Navigation.tsx:44 | with non-negative quantities, the badge is shown iff some line has a positive quantity |
| `Navigation.NonNegativeSum` | src/components/Navigation.tsx:10 | non-negative quantities give a non-negative count |
| `Navigation.ActiveLinks` | src/components/Navigation.tsx:22-40 | Home is active iff the path is "/", Cart iff it is "/checkout", and at most one link is active |
| `ProductDetail.FindIndex` | src/components/ProductDetail.tsx:12 | a found position holds the id and no earlier position does; none is found iff no product has the id |
| `ProductDetail.Find` | src/components/ProductDetail.tsx:12 | a found product has the requested id and is in the catalogue; none iff no product has the id |
| `ProductDetail.FindIsFirstMatch` | src/components/ProductDetail.tsx:12 | the lookup returns the product at the first matching position |
| `ProductDetail.FindDistinct` | src/components/ProductDetail.tsx:12 | with distinct ids, looking up an entry's id returns that entry |
| `ProductDetail.Lookup` | src/components/ProductDetail.tsx:8-26 | the page shows a catalogue product with the route id, or the not-found branch exactly when the parameter is absent or matches no product |
| `ProductDetail.LookupCatalogue` | src/data/products.ts:3-25 | ids "1", "2", "3" show the first, second, third entry; any other id shows not-found |
| `Products.CatalogueIdsDistinct` | src/data/products.ts:5-20 | the three catalogue ids are "1", "2", "3" and pairwise distinct |
| `ProductDetail.HandleAddToCart` | src/components/ProductDetail.tsx:36-39 | the cart receives exactly one request, adding the given product; the only navigation is the last effect, to "/checkout" |
| `RotatingHero.JsRem` | src/components/RotatingHero.tsx:36 | JavaScript remainder: Euclidean for non-negative dividends; for negative ones a value in (-n, 0] that differs from the dividend by a multiple of n |
| `RotatingHero.FadeOut` | src/components/RotatingHero.tsx:33 | a tick hides the text and keeps the index |
| `RotatingHero.Advance` | src/components/RotatingHero.tsx:35-37 | completion shows the text again and moves a valid index to the next one, wrapping from the last to the first |
| `RotatingHero.CurrentText` | src/components/RotatingHero.tsx:45 | for a valid index the displayed text exists and is one of the three |
| `RotatingHero.Indicators` | src/components/RotatingHero.tsx:71-78 | one indicator per text; indicator i is highlighted iff i is the current index, so for a valid state exactly the current one is highlighted |
| `RotatingHero.HighlightedIsCurrent` | src/components/RotatingHero.tsx:45-78 | the highlighted indicator's text is the text on screen |
| `RotatingHero.OneIndicatorHighlighted` | src/components/RotatingHero.tsx:71-78 | exactly one indicator is highlighted, the current one |
| `RotatingHero.InitialValid` | src/components/RotatingHero.tsx:28-29 | the initial state is index 0, visible, and valid |
| `RotatingHero.RunStaysValid` | src/components/RotatingHero.tsx:31-43 | under any interleaving of ticks and completions the index stays in [0, 3) |
| `RotatingHero.RotateNIndex` | src/components/RotatingHero.tsx:36 | after n rotations the index is (start + n) mod 3 |
| `RotatingHero.ThreeRotationsCycle` | src/components/RotatingHero.tsx:36 | three rotations return to the start, visiting all three texts on the way |

## Left out

- Rendering: JSX, CSS classes and images are presentation only.
- The empty-cart screen of the checkout page (src/components/CheckoutPage.tsx:82-109) is rendering; `CheckoutPage.Dispatch` does not gate edits and order placement on the cart being non-empty, only on the confirmation screen.
- Currency formatting (`formatPrice`) delegates to `Intl.NumberFormat`, a locale library outside the model.
- Routing: `navigate` and the route table are framework glue; `navigate` appears only as a recorded `Navigate` effect.
- Timing: the 20-second interval, the 500 ms fade and the 2-second order delay are not modelled; only the state transitions they trigger are.
- Cart container: `src/context/CartContext` is not part of this model; `addToCart` and `clearCart` appear only as recorded effects, and `getTotalPrice` (the checkout total) is not modelled, so no merging or total semantics are assumed.
- The remove button of each checkout line (`removeFromCart(item.id)`) is cart-container behaviour and is not modelled.
- The back and continue-shopping buttons (src/components/CheckoutPage.tsx:86,101,114 and src/components/ProductDetail.tsx:19,44) only navigate and are not modelled.
- `CheckoutPage.Dispatch` covers one mounted checkout page: the order timer is never cancelled, so if the page unmounts (the customer leaves, or returns to a fresh checkout page) before it fires, its `clearCart()` and `navigate("/")` still happen, possibly emptying a refilled cart or leaving another page. That behaviour after unmounting is not modelled.
- Numbers: JavaScript floating-point arithmetic is replaced by unbounded integers; catalogue prices are whole rupiah.
- The home page is a pure listing render with no logic.
