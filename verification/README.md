# Storefront page logic in Dafny

This project models the decision logic inside the page components of a
React storefront front-end (ShopHub): the product search filter and stock
badges of the listing page, the quantity stepper and add-to-cart decision of
the product detail page, the order request built at checkout and what a
submission does to the cart, the status colours and item labels of the order
history, and the visibility rules of the navigation bar.

Everything is modelled after the data is available: the API calls, the cart,
authentication and theme stores are inputs. The signed-in user (`Option<User>`
or a presence flag), `isAdmin`, `cartCount` and `isDarkMode` are parameters
read exactly as the components read them, and the result of `POST /orders` is
a `PostResult` parameter. Toast texts and navigation targets are returned as
values instead of being performed.

Modules, one per file:

- `Wrappers` (`wrappers.dfy`): `Option`, for optional fields and nullable state.
- `StoreTypes` (`types.dfy`): `Product`, `User`/`Role`, `CartItem`, `Order`,
  `OrderItem` as declared in `src/types/index.ts`. `Price` is an opaque
  wrapper that is only copied, never computed with.
- `Text` (`text.dfy`): `trim` with the exact ECMAScript whitespace set,
  ASCII `toLowerCase`, `includes`, and integer-to-decimal rendering with its
  inverse.
- `Seqs` (`seqs.dfy`): order-preserving selection (`Array.prototype.filter`)
  and the subsequence relation.
- `ProductsPage`, `ProductDetailPage`, `CheckoutPage`, `OrdersPage`, `Navbar`:
  one module per page or component.

## Model

| member | source | states |
|---|---|---|
| Text.TrimEmptyIffBlank | src/pages/Products.tsx:20 | `query.trim() === ''` holds exactly when the query consists of whitespace only (or is empty) |
| Text.LowerPreservesBlank | src/pages/Products.tsx:20-27 | lowering a query never changes whether it is blank |
| Text.LowerIdempotent | src/pages/Orders.tsx:28 | lowering twice is lowering once, so a string and its lowered form differ only in letter case |
| Text.Includes | src/pages/Products.tsx:25-27 | `s.includes(sub)` is true exactly when `sub` occurs at some position of `s` |
| Text.IntToStringRoundTrip | src/pages/Orders.tsx:143 | the decimal rendering of an integer in a template literal reads back to the same integer |
| Text.IntToStringInjective | src/pages/Orders.tsx:143 | distinct integers render as distinct strings |
| Seqs.Select | src/pages/Products.tsx:23-28 | the filtered array is no longer than the input and holds exactly the input elements that satisfy the callback |
| Seqs.SelectPositions | src/pages/Products.tsx:23-28 | the filtered array is the input restricted to exactly the positions whose element satisfies the callback, kept in increasing order |
| ProductsPage.FilterBlankQuery | src/pages/Products.tsx:19-21 | an empty or whitespace-only query shows the product list unchanged |
| ProductsPage.FilterIsSubsequence | src/pages/Products.tsx:19-31 | the search result is always an order-preserving subsequence of the loaded products |
| ProductsPage.FilterPositions | src/pages/Products.tsx:19-31 | position i of the list is shown iff the query is blank or the product at i matches; shown products keep list order |
| ProductsPage.FilterMembership | src/pages/Products.tsx:24-27 | a product is shown iff it is loaded and the query is blank or its lowered name, description or present category contains the lowered query (sound and complete) |
| ProductsPage.AbsentCategoryNeverMatches | src/pages/Products.tsx:27 | without a category only name and description can make a product match |
| ProductsPage.FilterIgnoresCase | src/pages/Products.tsx:25-27 | two queries that differ only in letter case give the same result |
| ProductsPage.FilterDoesNotTrimQuery | src/pages/Products.tsx:20-27 | trimming decides only blankness: "shirt " finds nothing named "Shirt" while "shirt" finds it |
| ProductsPage.CardBadges | src/pages/Products.tsx:114-123 | Low Stock shows iff 1 <= stock <= 10, Out of Stock iff stock = 0, never both, neither above 10 or below 0 |
| ProductsPage.RenderWording | src/pages/Products.tsx:74-123 | once loaded, "No products found" iff the result is empty; otherwise one card per result, in order, each the card of that result (badges following its stock, never both), under a count that says "product" only for exactly one |
| ProductDetailPage.StepKeepsBounds | src/pages/ProductDetail.tsx:56-66 | one click keeps the quantity within 1..max(1, stock) |
| ProductDetailPage.RunKeepsBounds | src/pages/ProductDetail.tsx:56-66 | any sequence of clicks from a quantity within 1..max(1, stock) stays within it |
| ProductDetailPage.ReachableQuantityBounds | src/pages/ProductDetail.tsx:16-66 | from the initial quantity 1, every sequence of clicks keeps 1 <= quantity <= max(1, stock) |
| ProductDetailPage.IncrementsSaturate | src/pages/ProductDetail.tsx:56-60 | n presses of "+" from q reach min(q + n, stock), or leave q when q is already at or above stock |
| ProductDetailPage.EveryBoundedQuantityReachable | src/pages/ProductDetail.tsx:16-60 | every quantity in 1..max(1, stock) is reachable from the start, so the bound is tight |
| ProductDetailPage.PlusDisabledIffNoEffect | src/pages/ProductDetail.tsx:165-167 | the "+" button is disabled exactly when the increment handler would leave the quantity unchanged |
| ProductDetailPage.AddToCartGating | src/pages/ProductDetail.tsx:38-54 | whenever the quantity controls (and so the Add to Cart button) render, a click adds the shown product with the shown quantity and its success text; a click that does not add can only come from a page where the controls are hidden |
| ProductDetailPage.AddedQuantityWithinStock | src/pages/ProductDetail.tsx:38-66 | a customer adding an in-stock product after any clicks asks for between 1 and stock units |
| ProductDetailPage.RenderConditions | src/pages/ProductDetail.tsx:134-190 | controls render iff stock > 0, a user is present and not admin; the out-of-stock notice iff stock = 0; never both; "N in stock" iff stock > 0, with N the stock; "+" disabled exactly when the increment would do nothing |
| CheckoutPage.OrderItems | src/pages/Checkout.tsx:28-32 | for every cart, the request has one entry per cart line, and entry i carries line i's product id, quantity and unit price (not a line total) |
| CheckoutPage.OrderItemsAppend | src/pages/Checkout.tsx:28-32 | the request of two carts laid end to end is the two requests laid end to end (no reordering or merging) |
| CheckoutPage.OrderItemsKeepUnits | src/pages/Checkout.tsx:28-32 | the order asks for exactly as many units as the cart holds |
| CheckoutPage.SubmitClearsOnlyOnSuccess | src/pages/Checkout.tsx:23-44 | the request is built from the cart whatever the outcome; only a successful POST clears the cart, shows "Order placed successfully!" and goes to /orders; a failure leaves the cart untouched, stays on the page and shows the server's non-empty detail or else "Failed to place order" |
| CheckoutPage.SubmitConservesUnits | src/pages/Checkout.tsx:23-44 | no unit is lost by a submission: on success the request holds every unit of the cart and the cart is empty; on failure every unit stays in the cart |
| CheckoutPage.EmptyCartNeverSubmits | src/pages/Checkout.tsx:46-49 | an empty cart redirects to /cart and never shows the form; a submitted request is never empty |
| OrdersPage.StatusClassesDistinct | src/pages/Orders.tsx:29-40 | the five status classes and the slate default are pairwise distinct |
| OrdersPage.StatusColorClassification | src/pages/Orders.tsx:27-42 | the status colour is total; each of pending, processing, shipped, delivered, cancelled (lowered) has its own class and every other status gets the slate default |
| OrdersPage.StatusColorIgnoresCase | src/pages/Orders.tsx:28 | statuses that differ only in letter case, and a status and its lowered form, get the same class |
| OrdersPage.ItemLabelSpec | src/pages/Orders.tsx:143 | the label is the product name when the product is present with a non-empty name, otherwise "Product #" followed by the product id, which reads back from the label |
| OrdersPage.FallbackLabelsDistinguishProducts | src/pages/Orders.tsx:143 | two fallback labels are equal exactly when the product ids are |
| OrdersPage.RenderSections | src/pages/Orders.tsx:66-152 | "No orders yet" iff there are no orders; one card per order with its id, status text and status class; the items section iff items are present and non-empty, and then label k is the item label of item k |
| Navbar.Visibility | src/components/Navbar.tsx:22-68 | Products always; My Orders iff user and not admin; Dashboard iff isAdmin; cart link iff user and not admin, never with Dashboard; Sun iff dark mode, Moon otherwise |
| Navbar.CartBadge | src/components/Navbar.tsx:59-68 | the badge appears only in the cart link, only for cartCount > 0, shows cartCount, and is only ever beside My Orders and the username, never beside Dashboard |
| Navbar.AccountGroup | src/components/Navbar.tsx:28-99 | exactly one of username + Logout (with that user's name) or Login + Sign Up shows; beside Login + Sign Up there is never My Orders or a cart link, and Dashboard only when isAdmin; beside the username exactly one of Dashboard and the cart link |
| Navbar.SignedInSeesOneArea | src/components/Navbar.tsx:28-68 | a signed-in user sees exactly one of Dashboard and the cart link, and My Orders exactly with the cart link |
| Navbar.RoleDecidesLinks | src/components/Navbar.tsx:28-68 | when isAdmin agrees with the user's role, admins see Dashboard, customers see the cart, anonymous visitors see neither |

## Notes

- Roles are read as two flags, `user` and `isAdmin`, not as one three-way
  role. The code therefore shows Dashboard whenever `isAdmin` holds, even
  without a user; `Navbar.RoleDecidesLinks` shows that the three-way reading
  holds whenever the two flags agree with the user's role.
- The Add to Cart button is rendered only inside the quantity controls, which
  require a product in stock, a user and no admin flag. The handler's "please
  login" and "admin accounts cannot add" branches therefore cannot be reached
  from this page (`ProductDetailPage.AddToCartGating`).
- The stepper's upper bound is `max(1, stock)`, not `stock`: with no stock the
  quantity stays at 1, but the controls are then hidden.
- A negative stock is labelled "Out of stock" on the detail page but gets no
  out-of-stock notice and no badge on the listing card.

## Left out

- API calls, toasts and navigation are not performed: their outcomes are inputs (`PostResult`) and their effects are returned values. Loading flags other than the page's "loading" branch are not modelled.
- The cart, authentication and theme stores (`src/context/*`) and the API client (`src/lib/api`) are not part of this model. `addToCart` is modelled as the call it receives (`Added(product, quantity)`), not as a change to a cart; the store's add/update/remove/total behaviour is not modelled.
- How `isAdmin` is derived from the user is not shown, so `user` and `isAdmin` are independent inputs; `Navbar.RoleDecidesLinks` states what follows if they agree.
- Money: prices are copied only. Line totals, `toFixed` and the dashboard revenue sum are floating-point display arithmetic and are not modelled.
- The dashboard, home, register, cart and footer pages: API CRUD, static markup, browser-enforced form attributes, and cart controls that only call the store.
- Checkout card and address fields are collected but never validated or sent.
- Text.Lower: only ASCII letters are lowered; JavaScript's `toLowerCase` also lowers non-ASCII letters. For the five status keywords this changes nothing, but the product filter and `ProductsPage.FilterIgnoresCase` are stated for ASCII letter case only.
- Text.Includes: works on Unicode code points; JavaScript compares UTF-16 code units, which differs only for astral characters.
- Text.IntToString: renders integers as plain decimal; JavaScript switches to exponent notation from 1e21 and renders non-integer numbers with a fraction. Ids and quantities are treated as integers.
- Quantities and stock are integers; fractional stock values are not modelled.
- Responsive CSS visibility is not modelled: "shown" means rendered. The Products, My Orders and Dashboard links, the username and the Logout text sit in elements that CSS hides on narrow screens.
- Locale date formatting of `created_at` and framer-motion animations.
