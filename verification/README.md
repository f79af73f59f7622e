# ProScience Nutra storefront rules, in Dafny

This project models the decision logic of the ProScience Nutra web shop and its
admin area. The logic lives in React event handlers and memoised filters. Here
each rule is a pure function over immutable data, and its contract states what
the shop promises.

The storefront side covers:

- the product listing's filter pipeline, with its sort options, flavour toggle and "clear filters";
- the header search modal and its keyboard selection;
- the header navigation's link highlighting;
- the product tile's discount badge and add-to-cart button;
- the cart sidebar and the cart page: quantity buttons, removal, clearing, shipping, tax, totals and the free-shipping hint;
- the checkout form's validator, error clearing, empty-cart redirect and total;
- the FAQ accordion and the FAQ page's category filter.

The admin side covers:

- the slug the new-product form derives from a product name;
- review moderation: status changes, deletion, the filter and the summary figures;
- the order, customer and product list filters, including the order status colours, the stock cell and the status badge;
- the admin frame's sign-in gate, its log-out button and the sidebar highlight.

Modules follow the source files:

- `Text`: lower-casing, trimming, substring tests.
- `Seqs`: filter and subsequence facts.
- `Sorting`: a stable sort.
- `Catalog`: products and categories.
- `Slug` and `NewProductForm`: `app/admin/products/new/page.tsx`.
- `Storefront`: `app/products/page.tsx`.
- `SearchModal`: `components/SearchModal.tsx`.
- `Cart`: the cart store, as its callers use it.
- `CartViews`: `components/cart/CartSidebar.tsx` and `app/cart/page.tsx`.
- `Checkout`: `app/checkout/page.tsx`.
- `ProductCard`: `components/products/ProductCard.tsx`.
- `AdminReviews`, `AdminOrders`, `AdminCustomers` and `AdminProducts`: the matching admin pages.
- `Navigation`: `components/layout/Navigation.tsx`.
- `AdminLayout`: `app/admin/layout.tsx`.
- `FaqAccordion`: `components/FAQ.tsx`.
- `FaqPage`: `app/faq/page.tsx`.

Modelling conventions:

- Money is an exact `real`.
- Lower-casing is ASCII case folding.
- White space is the ECMAScript white-space and line-terminator set.
- `Math.round` rounds halves up.
- JavaScript truthiness is written out: `0` and `""` count as false.
- Timers, `window.confirm`, the router and `localStorage` become parameters or results. For example, a confirmation is a boolean and a navigation is a returned path.

The cart store (`lib/store/cart-context`) is not part of this model's sources. `Cart` specifies it as a sequence of lines keyed by product id, with these rules:

- `addItem` raises the quantity of an existing line or appends a new one.
- `removeItem` drops the line.
- `updateQuantity` with a non-positive quantity removes the line; otherwise it sets the quantity.
- `clearCart` empties the cart.
- The totals are sums over the lines.

The callers rely on exactly these points. The catalogue lookup `getProductsByCategory` is also not part of the sources; it is taken to be a filter by category that keeps catalogue order.

## Model

| member | source | states |
|---|---|---|
| Slug.Slugify | app/admin/products/new/page.tsx:38-43 | the slug is made of `a-z`, `0-9` and single dashes, never starts or ends with a dash, and keeps the lower-cased name's letters and digits in order |
| Slug.SlugifyFixedPoints | app/admin/products/new/page.tsx:39-42 | a string is its own slug exactly when it is a well-formed slug |
| Slug.SlugifyIdempotent | app/admin/products/new/page.tsx:39-42 | deriving the slug of a slug changes nothing |
| Slug.SlugEmptyIff | app/admin/products/new/page.tsx:41-42 | the slug is empty exactly when the name has no ASCII letter or digit |
| Slug.SlugifyJoin | app/admin/products/new/page.tsx:41 | any run of separators between two slugs becomes exactly one dash |
| Slug.SlugifyDropsEnds | app/admin/products/new/page.tsx:42 | separators before and after a slug disappear entirely |
| Slug.SlugifyConcat | app/admin/products/new/page.tsx:38-43 | two names with slugs, joined by any run of separators, slug to the two slugs with exactly one dash between them |
| Slug.SlugifyAdjacent | app/admin/products/new/page.tsx:38-43 | two names that meet letter-or-digit to letter-or-digit slug to the two slugs run together, with no dash |
| Slug.SlugifyWord | app/admin/products/new/page.tsx:39-41 | a name of ASCII letters and digits only slugs to its lower-cased self |
| NewProductForm.HandleInputChange | app/admin/products/new/page.tsx:28-44 | a change stores the checkbox flag or the raw value under its own name; a change of `name` also sets `slug` to the name's slug; every other field is kept |
| Catalog.ProductsByCategory | app/products/page.tsx:36-38 | the category lookup returns exactly the catalogue's products of that category, in catalogue order |
| Text.LowerStr | app/products/page.tsx:42 | `toLowerCase` keeps the length and folds each ASCII capital to its small letter, leaving every other character |
| Text.Trim | app/products/page.tsx:41 | the trimmed string occurs in the original, starts and ends with a non-space, and is empty exactly when the original is all white space |
| Text.Includes | app/products/page.tsx:45-47 | `includes` holds exactly when the needle occurs at some position of the haystack |
| Storefront.FilteredIsOneFilter | app/products/page.tsx:35-73 | the five filter stages, applied in turn, are one filter by the conjunction of every active test |
| Storefront.FilteredMembership | app/products/page.tsx:35-73 | a product is listed exactly when it is in the catalogue and passes the category, search, flavour, price, stock and new-product tests; the list is a subsequence of the catalogue |
| Storefront.SearchStageIsFilter | app/products/page.tsx:41-49 | run on the category stage's output, the search stage keeps exactly the catalogue entries of the category that, unless the query is blank, contain it ignoring case in the name, description or a benefit |
| Storefront.FlavourStageIsFilter | app/products/page.tsx:52-56 | on the searched list, the flavour stage keeps exactly the catalogue entries passing the earlier tests and, when flavours are selected, having a selected non-empty flavour |
| Storefront.PriceStageIsFilter | app/products/page.tsx:59-61 | on the flavour stage's output, the price stage keeps exactly the catalogue entries passing the earlier tests whose price lies in the closed slider range |
| Storefront.StockStageIsFilter | app/products/page.tsx:63-68 | on the price stage's output, the stock stage keeps exactly the catalogue entries passing the earlier tests that the stock choice admits: in stock, out of stock, or either |
| Storefront.NewStageIsFilter | app/products/page.tsx:71-73 | on the stock stage's output, "new only" keeps exactly the catalogue entries passing every other test that were created after the cutoff instant |
| Storefront.ApplySort | app/products/page.tsx:76-94 | the sorted list is a permutation of its input, ordered by the chosen comparator, and the default option keeps the input order |
| Storefront.ShownOrder | app/products/page.tsx:76-94 | price-low output is non-decreasing in price and price-high non-increasing, name sorts follow the given order, every option yields a permutation of the filtered list, and default yields it unchanged |
| Storefront.ShownKeepsTies | app/products/page.tsx:76-94 | products the chosen comparator ties keep their filtered order (the sort is stable) |
| Storefront.ShownAreAdmitted | app/products/page.tsx:35-95 | a product is shown, in any sort order, exactly when it is in the catalogue and every active filter admits it |
| Sorting.Sort | app/products/page.tsx:78-89 | the output is sorted by the comparator and is a permutation of the input |
| Sorting.SortIsStable | app/products/page.tsx:78-89 | elements that compare equal keep their relative order |
| Storefront.MinPrice | app/products/page.tsx:17 | the smallest catalogue price: a lower bound that some product has |
| Storefront.MaxPrice | app/products/page.tsx:16 | the largest catalogue price: an upper bound that some product has |
| Storefront.AllFlavours | app/products/page.tsx:18 | the flavour list has no duplicates, holds exactly the non-empty flavours of the catalogue, and lists them in the order in which the catalogue first offers them |
| Storefront.DropKeepsFirstOrder | app/products/page.tsx:18 | setting aside the products of one flavour leaves the other flavours in the same order of first appearance |
| Storefront.ToggleFlavour | app/products/page.tsx:116-122 | a flavour ends up selected exactly when it was not; other flavours are untouched; a duplicate-free selection stays duplicate-free |
| Storefront.ToggleTwiceRestores | app/products/page.tsx:116-122 | toggling an unselected flavour twice restores the selection exactly |
| Storefront.ToggleTwiceSameSet | app/products/page.tsx:116-122 | toggling any flavour twice gives back the same set of selected flavours |
| Storefront.FlavourFilterSeesOnlyMembers | app/products/page.tsx:52-56 | two flavour selections with the same members list the same products |
| Storefront.ClearFilters | app/products/page.tsx:97-114 | after clearing, no filter is active and the sort is the default |
| Storefront.InactiveFiltersShowAll | app/products/page.tsx:35-104 | with no active filter and the full price range, the whole catalogue is listed in its own order |
| Storefront.ClearedShowsCatalogue | app/products/page.tsx:35-114 | after clearing, the page lists the whole catalogue in catalogue order |
| SearchModal.SearchResults | components/SearchModal.tsx:28-41 | never more than eight results, and none for a blank query |
| SearchModal.SearchResultsAreFirstMatches | components/SearchModal.tsx:29-38 | for a query that is not blank, the results are exactly the first min(8, n) of the n matches, each a catalogue product whose name, description, benefit or category contains the query |
| SearchModal.FewMatchesAllShown | components/SearchModal.tsx:38 | with at most eight matches, all of them are shown |
| SearchModal.ListingMatchesAreModalMatches | components/SearchModal.tsx:30-36 | whatever the listing page's search finds, the modal's finds too |
| SearchModal.SetQuery | components/SearchModal.tsx:28-42 | a query change recomputes the results and resets the selection to -1, keeping the state invariant |
| SearchModal.InitialValid | components/SearchModal.tsx:15-17 | the initial state (empty query, no results, selection -1) satisfies the invariant |
| SearchModal.ArrowKeysStayInBounds | components/SearchModal.tsx:51-58 | ArrowDown moves down by one but not past the last result; ArrowUp moves up by one but not below -1 |
| SearchModal.OnKeyKeepsValid | components/SearchModal.tsx:44-62 | every key event keeps -1 <= selection < number of results |
| SearchModal.OnKeyMovesOnlySelection | components/SearchModal.tsx:44-62 | a key that does not choose or close changes only the selection |
| SearchModal.TypingKeepsValid | components/SearchModal.tsx:28-42 | typing keeps the invariant |
| SearchModal.OnKey | components/SearchModal.tsx:44-62 | a closed modal ignores keys; a key navigates exactly when it is Enter with a result selected, and then to that result's page, clearing the query and closing; Escape closes |
| SearchModal.Choose | components/SearchModal.tsx:59-73 | choosing a result navigates to its page, closes the modal and clears the query |
| SearchModal.ClickIsEnter | components/SearchModal.tsx:59-73 | Enter on a selected result has the same outcome as clicking it |
| SearchModal.DownTimesLands | components/SearchModal.tsx:51-54 | n presses of ArrowDown land on min(selection + n, last result) |
| SearchModal.UpTimesLands | components/SearchModal.tsx:55-57 | n presses of ArrowUp land on max(selection - n, -1) |
| Cart.Find | components/cart/CartSidebar.tsx:108 | the lookup finds a line exactly when the cart has one for the id, and the line it finds has that id |
| Cart.TotalsAppend | components/cart/CartSidebar.tsx:139 | the item and price totals of two carts joined are the sums of their totals |
| Cart.AddItem | components/products/ProductCard.tsx:25-26 | adding grows the cart by one line exactly when the product had none |
| Cart.AddItemFinds | components/products/ProductCard.tsx:25-26 | after adding q, the product's quantity is q more, every other product's line is unchanged, and the item total grows by q |
| Cart.AddItemKeepsUnique | components/products/ProductCard.tsx:25-26 | adding keeps product ids unique across lines |
| Cart.RepeatedAddsSum | components/products/ProductCard.tsx:25-26 | repeated adds of one product sum their quantities |
| Cart.AddItemPrice | components/products/ProductCard.tsx:25-26 | adding q of a product raises the price total by q times its price |
| Cart.RemoveItem | components/cart/CartSidebar.tsx:120-126 | removal leaves no line for the id and keeps every other line, in order |
| Cart.RemoveItemTotals | components/cart/CartSidebar.tsx:120-139 | removal lowers the totals by exactly the removed line's quantity and amount |
| Cart.FindAfterRemove | components/cart/CartSidebar.tsx:120-126 | removal leaves every other product's line as it was |
| Cart.UpdateQuantity | app/cart/page.tsx:13-18 | a non-positive quantity removes the line; a positive one sets the line's quantity when there is a line; no other product's line changes |
| Cart.SetQuantity | components/cart/CartSidebar.tsx:113-114 | setting a quantity keeps the lines and their products, gives the id's line the new quantity and leaves the others equal |
| Cart.FindAfterSet | components/cart/CartSidebar.tsx:113-114 | setting a quantity changes only that product's quantity |
| Cart.ClearCart | components/cart/CartSidebar.tsx:132-135 | a cleared cart has no lines and zero totals |
| Cart.RemoveThenAddIsFresh | components/cart/CartSidebar.tsx:120-126 | after removal, adding the product appends a fresh line |
| Cart.TwoProductsExample | components/products/ProductCard.tsx:25-26 | adding two of a product priced 10.00 and then one of a different product priced 5.00 gives 3 items costing 25.00 in total |
| CartViews.SidebarQuantityChange | components/cart/CartSidebar.tsx:107-118 | nothing happens for an unknown id; removal happens exactly when the new quantity is not positive; otherwise the update carries the positive new quantity |
| CartViews.PageQuantityChange | app/cart/page.tsx:13-18 | nothing happens for an unknown id; otherwise the unclamped new quantity goes to the store's update, never to removal |
| CartViews.QuantityHandlersAgree | components/cart/CartSidebar.tsx:107-118 | the sidebar's and the page's quantity buttons leave the cart in the same state |
| CartViews.QuantityChangeEffect | app/cart/page.tsx:13-18 | a non-positive new quantity removes the line; a positive one becomes the line's quantity; no other line changes |
| CartViews.EnabledDecrementKeepsLine | components/cart/CartSidebar.tsx:319 | while the minus button is enabled (quantity above 1), pressing it lowers the quantity by one and keeps the line |
| CartViews.RemoveButtonEffect | components/cart/CartSidebar.tsx:120-126 | after the remove button the product has no line, every other product's line is unchanged, and (ids being unique) the item count and price total fall by exactly that line's quantity and total |
| CartViews.HandleClearCart | components/cart/CartSidebar.tsx:132-135 | a confirmed clear empties the cart; a declined one leaves it |
| CartViews.Shipping | components/cart/CartSidebar.tsx:140 | shipping is free exactly above 50 and otherwise 9.99 |
| CartViews.ShippingNonIncreasing | app/cart/page.tsx:35 | a larger subtotal never costs more shipping |
| CartViews.Tax | app/cart/page.tsx:36 | tax is a share of a non-negative subtotal, between 0 and the subtotal |
| CartViews.SidebarTotal | components/cart/CartSidebar.tsx:139-141 | the sidebar total exceeds the subtotal by exactly the shipping, with no tax |
| CartViews.PageTotal | app/cart/page.tsx:34-37 | the page total exceeds the sidebar total by exactly the tax |
| CartViews.TotalDropsPastThreshold | app/cart/page.tsx:35-37 | a subtotal of 50 costs more in total than 50.01 |
| CartViews.SidebarView | components/cart/CartSidebar.tsx:139-141 | the footer shows only for a non-empty cart, with the cart's subtotal, and total = subtotal + shipping |
| CartViews.CartPageView | app/cart/page.tsx:34-39 | an empty cart shows the empty state; otherwise the summary's total is subtotal + shipping + 8% tax |
| CartViews.SidebarHint | components/cart/CartSidebar.tsx:390-393 | the sidebar hint shows exactly below 50 and asks for the difference to 50 |
| CartViews.PageHint | app/cart/page.tsx:261-264 | the page hint shows exactly when shipping is charged and asks for the difference to 50 |
| CartViews.HintsFallShort | components/cart/CartSidebar.tsx:390-393 | following either hint leaves the subtotal at 50, which still pays shipping; at 50 the sidebar shows no hint although shipping is charged |
| CartViews.HintAtForty | app/cart/page.tsx:261-264 | at 40 both hints ask for 10.00, and 50 still pays 9.99 |
| CartViews.FreeShippingHint | app/cart/page.tsx:261-264 | the hint shows exactly when shipping is charged and asks for a positive amount |
| CartViews.FreeShippingHintSuffices | app/cart/page.tsx:261-264 | adding the hinted amount earns free shipping, and one cent less does not |
| Checkout.EmailLooksValid | app/checkout/page.tsx:76 | the check holds exactly when the address contains an `x@y.z` stretch with no white space and each part non-empty |
| Checkout.RegexIsEmailAt | app/checkout/page.tsx:76 | the pattern matches exactly when some `@` and later `.` have the shortest such stretch around them |
| Checkout.CheckOrderCovers | app/checkout/page.tsx:72-91 | the validator looks at the e-mail, the seven required fields and the four card fields, and no others |
| Checkout.ValidateForm | app/checkout/page.tsx:72-95 | the error map has an entry exactly for each failing field, holding that field's message |
| Checkout.EmailMessages | app/checkout/page.tsx:75-76 | "Email is required" exactly when the e-mail is empty, "Email is invalid" exactly when it is non-empty and does not match, never both |
| Checkout.RequiredAndCardFields | app/checkout/page.tsx:78-91 | each required field has an error exactly when empty; each card field exactly when paying by card and empty; paying otherwise raises no card error |
| Checkout.UncheckedFields | app/checkout/page.tsx:72-95 | apartment, country, payment method and the billing fields never get an error |
| Checkout.ValidIffComplete | app/checkout/page.tsx:93-94 | the form passes exactly when it is complete |
| Checkout.HandleSubmit | app/checkout/page.tsx:97-110 | submission proceeds, to the success page, exactly when the form passes |
| Checkout.HandleInputChange | app/checkout/page.tsx:63-69 | an edit stores the value, clears that field's error and leaves every other field and error as it was |
| Checkout.Render | app/checkout/page.tsx:53-61 | the form shows only once mounted and with a non-empty cart |
| Checkout.RedirectEffect | app/checkout/page.tsx:14-19 | an empty cart redirects to the cart page, and only an empty cart does |
| Checkout.CheckoutTotal | app/checkout/page.tsx:47-50 | the total is the subtotal with 8% tax, plus 9.99 shipping unless the subtotal is above 50 |
| Checkout.CheckoutMatchesCartPage | app/checkout/page.tsx:47-50 | the checkout total equals the cart page's total for the same cart |
| ProductCard.Round | components/products/ProductCard.tsx:16 | the rounded value is within half of the input |
| ProductCard.DiscountPercent | components/products/ProductCard.tsx:15-17 | the discount is 0 without a compare-at price (or with 0) and otherwise the nearest whole percent off |
| ProductCard.DiscountBounds | components/products/ProductCard.tsx:15-17 | for a real markdown the discount is between 0 and 100, and 0 when nothing is taken off |
| ProductCard.MarkupShowsNegative | components/products/ProductCard.tsx:15-17 | a markup of at least 1% over the compare-at price shows a negative discount |
| ProductCard.NegativeBadgeExactly | components/products/ProductCard.tsx:15-17 | the discount is negative exactly when the price is more than 0.5% above the compare-at price |
| ProductCard.ButtonLabel | components/products/ProductCard.tsx:103 | the label is "Out of Stock", then "Added!", then "Add to Cart", in that precedence |
| ProductCard.LabelShowsEnabled | components/products/ProductCard.tsx:94-103 | the button reads "Add to Cart" exactly when it is enabled |
| ProductCard.HandleAddToCart | components/products/ProductCard.tsx:19-31 | out of stock does nothing; otherwise the tile shows "adding" and one of the product is added |
| ProductCard.ClickAddsOne | components/products/ProductCard.tsx:19-31 | an out-of-stock product never reaches the cart; an enabled click adds exactly one, leaves other lines alone and disables the button |
| ProductCard.AddingDone | components/products/ProductCard.tsx:28-30 | the timer ends the adding state for the same product |
| AdminReviews.ChangeStatus | app/admin/reviews/page.tsx:96-100 | only the reviews with the id change, and only in their status |
| AdminReviews.ChangeStatusNeverAddsPending | app/admin/reviews/page.tsx:96-100 | a status change never makes a review pending, so the pending count cannot grow |
| AdminReviews.Delete | app/admin/reviews/page.tsx:102-106 | a confirmed delete keeps exactly the reviews with other ids, in order; a declined one changes nothing |
| AdminReviews.FilterReviews | app/admin/reviews/page.tsx:108-115 | a review is shown exactly when its status fits and the query occurs, ignoring case, in its product, customer or comment; the list is a subsequence |
| AdminReviews.NoFilterShowsAll | app/admin/reviews/page.tsx:108-115 | "all" with an empty query shows every review in order |
| AdminReviews.StatusCountsSum | app/admin/reviews/page.tsx:117-121 | approved + pending + rejected equals the total |
| AdminReviews.AverageRating | app/admin/reviews/page.tsx:122 | there is an average exactly when there are reviews |
| AdminReviews.AverageWithinRatings | app/admin/reviews/page.tsx:122 | the average lies between the lowest and highest possible rating |
| AdminReviews.Offered | app/admin/reviews/page.tsx:245-276 | every offered button changes the review's status |
| AdminReviews.OfferedTransitions | app/admin/reviews/page.tsx:245-276 | no button leads to pending; approve is offered for every status but approved and reject for every status but rejected |
| AdminReviews.NeverBackToPending | app/admin/reviews/page.tsx:245-276 | once moderated, a review never returns to pending, and after any decisions its status is the last decision's outcome |
| AdminOrders.FilterOrders | app/admin/orders/page.tsx:81-88 | an order is shown exactly when its status fits and the query occurs in its number, customer or e-mail; the list is a subsequence |
| AdminOrders.SelectedStatusOnly | app/admin/orders/page.tsx:82 | with a status selected, every shown order has it |
| AdminOrders.NoFilterShowsAll | app/admin/orders/page.tsx:81-88 | "all" with an empty query shows every order in order |
| AdminOrders.SearchIgnoresOtherFields | app/admin/orders/page.tsx:83-86 | only the number, customer and e-mail decide the search |
| AdminOrders.StatusColorsDistinct | app/admin/orders/page.tsx:90-96 | the five statuses have five different colour classes |
| AdminCustomers.FilterCustomers | app/admin/customers/page.tsx:74-78 | a customer is shown exactly when the query occurs in the name or e-mail; the list is a subsequence |
| AdminCustomers.EmptyQueryShowsAll | app/admin/customers/page.tsx:74-78 | an empty query shows every customer in order |
| AdminCustomers.SearchIgnoresOtherFields | app/admin/customers/page.tsx:75-77 | only the name and e-mail decide the search |
| AdminProducts.FilterProducts | app/admin/products/page.tsx:21-26 | a product is shown exactly when the query occurs in its name or description and its category fits; the list is a subsequence |
| AdminProducts.SelectedCategoryOnly | app/admin/products/page.tsx:24 | with a category selected, every shown product has it |
| AdminProducts.NoFilterShowsAll | app/admin/products/page.tsx:21-26 | "all" with an empty query shows every product in order |
| AdminProducts.StockCellOf | app/admin/products/page.tsx:144 | out of stock reads "Out of Stock"; a present non-zero count is shown; anything else reads "In Stock" |
| AdminProducts.ZeroCountReadsInStock | app/admin/products/page.tsx:144 | an in-stock product with a count of 0 reads "In Stock" |
| AdminProducts.StatusLabelOf | app/admin/products/page.tsx:157 | "Featured" if featured, else "Active" if in stock, else "Inactive" |
| AdminProducts.BadgeAgreesWithStock | app/admin/products/page.tsx:144-157 | an unfeatured product's badge reads "Inactive" exactly when its stock cell reads "Out of Stock" |
| Navigation.IsActive | components/layout/Navigation.tsx:15-20 | the home link is active exactly on "/", any other link exactly on paths that start with it |
| Navigation.ActiveOnExtensions | components/layout/Navigation.tsx:19 | a link other than home is active on its own path and every extension of it |
| Navigation.NotSegmentAware | components/layout/Navigation.tsx:19 | "/products" is also active on "/productsale" |
| Navigation.HomeOnlyAtRoot | components/layout/Navigation.tsx:16-18 | the home link is inactive everywhere but "/" |
| Navigation.CategoryHref | components/layout/Navigation.tsx:70 | a category link leads to the products page with the category's slug as query |
| Navigation.CategoriesFollowProducts | components/layout/Navigation.tsx:108-113 | the Categories button is highlighted exactly when the Products link is |
| AdminLayout.CheckAuth | app/admin/layout.tsx:18-27 | the mounted layout becomes signed in once it reads the stored flag "true" and is never signed out by the check; loading ends; a redirect to the login page happens exactly when the flag is missing and the page is not login |
| AdminLayout.GateDecision | app/admin/layout.tsx:18-51 | after the check, the login page renders bare and never redirects; elsewhere the admin frame shows exactly when the layout was already signed in or the flag is stored, and with neither nothing shows and the browser goes to login |
| AdminLayout.FreshMountGate | app/admin/layout.tsx:14-51 | a freshly mounted layout shows the spinner; after its first check, a page other than login shows the admin frame exactly when the flag is stored |
| AdminLayout.AuthenticationSticks | app/admin/layout.tsx:18-27 | once signed in, the layout stays signed in over any sequence of admin pages and storage states |
| AdminLayout.Logout | app/admin/layout.tsx:29-32 | log-out removes only the flag and goes to the login page |
| AdminLayout.LogoutThenBackShowsFrame | app/admin/layout.tsx:18-51 | after signing in, logging out and going back to an admin page, the frame still renders although no flag is stored, while a redirect to login is issued |
| AdminLayout.CheckAuthFixed | app/admin/layout.tsx:18-27 | a check that sets the signed-in state to exactly whether the flag is stored, redirecting as the original does |
| AdminLayout.LogoutLocksOut | app/admin/layout.tsx:29-51 | with that check, after log-out the login page renders bare and every other admin page renders nothing and redirects to login, whatever the layout held before |
| AdminLayout.NavActive | app/admin/layout.tsx:111 | the dashboard link is active only on "/admin" itself; every other link is active exactly as the header's prefix rule says |
| AdminLayout.DashboardNotOnSubpages | app/admin/layout.tsx:111 | under a section, the section's link is highlighted and the dashboard's is not |
| FaqAccordion.Toggle | components/FAQ.tsx:18-20 | the clicked item ends open exactly when it was closed, and no other item is open |
| FaqAccordion.AtMostOneOpen | components/FAQ.tsx:25 | two items are never open at once |
| FaqAccordion.ToggleTwice | components/FAQ.tsx:18-20 | two clicks on one item leave it open exactly when it was, with every other item closed |
| FaqAccordion.OnlyLastClickedOpen | components/FAQ.tsx:16-20 | after any clicks, only the last clicked item can be open |
| FaqPage.Filtered | app/faq/page.tsx:100-102 | "All" gives every question in order; a category gives exactly its questions, in order |
| FaqPage.CountsSum | app/faq/page.tsx:100-102 | the five categories' counts add up to the number of questions |
| FaqPage.PageOccurrences | app/faq/page.tsx:13-94 | the page's category list holds four product, four shipping, three returns, two account and three general questions |
| FaqPage.PageCounts | app/faq/page.tsx:13-94 | the page's sixteen questions split four, four, three, two and three over the categories |
| FaqPage.ClickQuestion | app/faq/page.tsx:156-171 | a click opens the question exactly when it was closed and leaves the category alone |
| FaqPage.SelectCategory | app/faq/page.tsx:136 | a category change keeps the open position |
| FaqPage.SwitchKeepsPosition | app/faq/page.tsx:136-171 | after a category change, the question of the new list at the kept position is the open one |

## Left out

- The cart store itself is not part of the sources. `Cart` states the behaviour its callers rely on, as described above.
- `getAllProducts` and `getProductsByCategory` are not part of the sources. The catalogue is a parameter, and the category lookup is a filter by category.
- The clock: `isNewProduct` compares with "thirty days ago", which is passed in as a cutoff instant.
- `localeCompare`: name sorting takes an abstract total preorder on names.
- Floating-point rounding and `toFixed` display formatting: money is an exact `real`.
- Full Unicode `toLowerCase`: only ASCII letters are folded.
- Timers and animations:
  - the 300 ms removal delay and the `isRemoving` fade;
  - the 500 ms "Added!" timer, modelled as the separate step `ProductCard.AddingDone`;
  - the simulated payment delay.
- Toasts.
- Focus traps, scroll and Escape listeners.
- The router, modelled as a returned path.
- `window.confirm`, modelled as a boolean.
- `localStorage`, modelled as a map.
- Storefront.MinPrice: `Math.min` of no prices is `Infinity`, and the model requires a non-empty catalogue. The same holds for Storefront.MaxPrice and `-Infinity`.
- AdminReviews.AverageRating: the page divides by zero on an empty list and prints `NaN` with `toFixed(1)`. The model returns no average instead.
- Checkout.ValidateForm: field names are an enumeration of the form's nineteen fields, so a change event for a name outside the form is not modelled. The `sameAsShipping` checkbox is left out because the validator never reads it.
- The order page's payment-status colours and the detail pages for orders and customers: they are display only.
- ProductCard.MarkupShowsNegative: a markup under 0.5% rounds to `-0` in JavaScript, which displays as 0, so only markups above 0.5% show a negative number; `ProductCard.NegativeBadgeExactly` states the threshold.
- AdminLayout.LogoutLocksOut: it holds for the corrected check `AdminLayout.CheckAuthFixed`; with the check as written, a layout that stays mounted keeps showing the frame (see Findings).
- Navigation.CategoryHref: the link carries the category as a query, but `ProductsPage` (app/products/page.tsx:12) reads no query and its category selection starts at "all" (line 20), so following the link lists the whole catalogue; the model states only the link.
- The admin login page and the rest of the admin area (dashboard, analytics, settings): they hold fixed mock figures.
- Static content pages, the contact and footer forms, the header badge cap and the home page's hero pick: they have no logic worth stating.
- The FAQ page's question and answer texts: only their categories matter to the filter, so `FaqPage.FaqCategories` lists the categories in page order.

## Findings

| source | as written | input that shows it | evidently intended | confidence | as-written member | corrected member |
|---|---|---|---|---|---|---|
| components/cart/CartSidebar.tsx:140,390-393 and app/cart/page.tsx:35,261-264 | the hint asks for `50 - subtotal` more, but shipping is free only when the subtotal is strictly above 50; the sidebar also hides the hint at exactly 50, where shipping is charged | subtotal 40.00: the hint asks for 10.00 more, and a subtotal of 50.00 still pays 9.99 | ask for the least whole-cent amount that earns free shipping, `50 - subtotal + 0.01`, whenever shipping is charged | not executed; high | CartViews.HintsFallShort, CartViews.HintAtForty | CartViews.FreeShippingHint, CartViews.FreeShippingHintSuffices |
| app/admin/layout.tsx:18-51 | the effect only ever sets `isAuthenticated` to true, and the layout stays mounted across admin pages (the login page included), so log-out does not reset it | signed in on an admin page, press Log out, then Back: the stored flag is gone, yet the admin frame renders until the redirect to login lands | the layout is signed in exactly when the flag is stored | not executed; medium | AdminLayout.LogoutThenBackShowsFrame | AdminLayout.CheckAuthFixed, AdminLayout.LogoutLocksOut |
