# Storefront view-state model

A Dafny model of the client-side storefront of `e-commerce-app`. The storefront loads a product catalog. It then filters it by category and price range and sorts it by one of five options. It shows the result eight products to a page under a sliding-window pagination control, and it keeps a shopping cart in a drawer.

The model follows the three core source files:

- `src/pages/Index.tsx` becomes the class `Storefront.IndexPage`.
  - Its fields are the page component's state variables.
  - Its methods are the handlers and the effects they trigger, each run as one atomic step.
  - The invariant `Valid()` says that the derived lists always agree with the state they are derived from, and that the cart stays well formed.
  - The cart updaters handed to `setCartItems` are pure functions in module `CartStore`.
  - The filter-and-sort effect is module `FilterSort`: a method that copies the filtered list into an array and sorts it in place with an adjacent-swap insertion sort. The method is proved equal to a functional reference sort, and that sort is proved to be a permutation, sorted and stable.
  - The slice effect and the page count are module `Paging`.
- `src/components/Pagination.tsx` becomes module `Pagination`.
  - `renderPageNumbers` is a method that builds the strip with pushes and a loop. It is proved equal to the declarative `Layout`.
  - `Layout` is proved to have the properties listed in the table below.
- `src/components/Cart.tsx` becomes module `CartView`: the subtotal, the header badge, the −/+ controls and the footer.

Modelling conventions:

- Prices are whole cents (`nat`), so the slider maximum `Math.ceil(max price)` becomes rounding up to a whole dollar (`CeilToDollar`). The initial range `[0, 1000]` is `(0, 100000)`.
- A cart line is `CartLine(product, quantity)`, which stands for `{...product, quantity}`.
- The two fetched lists are parameters of `LoadData`.

## Model

| member | source | states |
|---|---|---|
| CartStore.Find | src/pages/Index.tsx:114 | finds a line exactly when some line has the id; the line found is the first one with that id |
| CartStore.AddToCart | src/pages/Index.tsx:113-124 | the add updater; its contract is carried by `AddToExistingLine`, `AddNewLine`, `AddToCartWellFormed` and `CountOfAddToCart` |
| CartStore.UpdateQuantity | src/pages/Index.tsx:135-146 | the update: removal for a quantity of zero or less, otherwise the `map`; carried by `UpdateToZeroRemoves`, `UpdatePositiveSets`, `UpdateQuantityWellFormed` and `CountOfUpdate` |
| CartStore.CartItemsCount | src/pages/Index.tsx:159 | the quantity sum; carried by `CountOfConcat`, `CountAtLeastLines` and the `CountOf…` lemmas |
| CartStore.Increment | src/pages/Index.tsx:117-121 | same length and products; the lines with the id gain one unit and every other line keeps its quantity |
| CartStore.SetQuantity | src/pages/Index.tsx:141-145 | same length and products; the lines with the id get exactly the new quantity and the others keep theirs |
| CartStore.RemoveItem | src/pages/Index.tsx:150 | a line survives exactly when it was in the cart with another id; no longer than before; no-op for an absent id |
| CartStore.AddToExistingLine | src/pages/Index.tsx:116-121 | adding a product that has a line keeps length and order, gives that line one more unit and leaves every other line as it was |
| CartStore.AddNewLine | src/pages/Index.tsx:122-124 | adding a product without a line appends `(product, 1)` at the end and keeps ids unique |
| CartStore.AddToCartWellFormed | src/pages/Index.tsx:112-125 | adding preserves the cart invariant: ids unique and every quantity at least one |
| CartStore.UpdateToZeroRemoves | src/pages/Index.tsx:135-139 | a quantity of zero or less has exactly the effect of removing the id, and no line with that id is left |
| CartStore.UpdatePositiveSets | src/pages/Index.tsx:141-145 | a positive quantity keeps length and order, sets the matching line to exactly that quantity, keeps every other line and is a no-op for an absent id |
| CartStore.UpdateQuantityWellFormed | src/pages/Index.tsx:135-146 | updating preserves the cart invariant |
| Domain.SubsequenceTransitive | src/pages/Index.tsx:64-73 | leaving out elements twice is leaving them out once, so the two chained filters keep catalog order |
| CartStore.RemoveItemKeepsOrder | src/pages/Index.tsx:150 | the remaining lines are a subsequence of the cart: relative order kept |
| CartStore.RemoveItemMultiplicity | src/pages/Index.tsx:150 | every line with the id disappears and every other line keeps its multiplicity |
| CartStore.RemoveItemWellFormed | src/pages/Index.tsx:150 | removing preserves the cart invariant |
| CartStore.CountOfConcat | src/pages/Index.tsx:159 | the item count of two carts joined is the sum of their counts |
| CartStore.CountOfIncrement | src/pages/Index.tsx:117-121 | incrementing raises the count by the number of lines with the id |
| CartStore.CountOfSetQuantity | src/pages/Index.tsx:141-145 | setting replaces the quantity held under the id by the new quantity once per matching line |
| CartStore.CountOfRemoveItem | src/pages/Index.tsx:150 | removing takes the whole quantity held under the id off the count |
| CartStore.SingleLine | src/pages/Index.tsx:114 | with unique ids an id present in the cart names exactly one line, holding that line's quantity |
| CartStore.AbsentId | src/pages/Index.tsx:114 | an absent id occurs nowhere and holds no quantity |
| CartStore.CountOfAddToCart | src/pages/Index.tsx:159 | every add raises the navbar badge by exactly one, whether or not the line existed |
| CartStore.CountOfUpdate | src/pages/Index.tsx:135-146 | an update moves the badge from the line's old quantity to the new one, or to nothing for a quantity of zero or less |
| CartStore.CountOfRemove | src/pages/Index.tsx:149-151 | removing a line takes its quantity off the badge |
| CartStore.CountAtLeastLines | src/pages/Index.tsx:159 | with positive quantities the badge counts at least one per line, and is zero exactly for the empty cart |
| CartStore.AddTwiceThenClear | src/pages/Index.tsx:112-146 | adding one product twice to an empty cart gives one line of quantity two (badge 2), and updating it to zero empties the cart |
| CartView.CalculateTotal | src/components/Cart.tsx:24-26 | the sum of price times quantity; carried by `TotalOfConcat`, `TotalOfAppend`, `TotalBounds` and `TotalOfAddToCart` |
| CartView.HeaderBadge | src/components/Cart.tsx:51 | the number of lines; carried by `HeaderBadgeCountsProducts` and `HeaderBadgeVersusCount` |
| CartView.DecrementControl | src/components/Cart.tsx:91-92 | the − button's request and disabled flag; carried by `DecrementKeepsLine` |
| CartView.IncrementControl | src/components/Cart.tsx:101 | the + button's request; carried by `IncrementIsAddToCart` |
| CartView.TotalOfConcat | src/components/Cart.tsx:24-26 | the subtotal of two carts joined is the sum of their subtotals |
| CartView.TotalOfAppend | src/components/Cart.tsx:24-26 | the empty cart totals zero, and appending a line adds exactly price times quantity |
| CartView.TotalBounds | src/components/Cart.tsx:24-26 | with positive quantities the subtotal is at least the sum of the line prices, hence never negative |
| CartView.TotalOfAddToCart | src/components/Cart.tsx:24-26 | an add raises the subtotal by exactly the unit price it charges: the existing line's price, or the product's own for a new line |
| CartView.PriceOfLine | src/components/Cart.tsx:25 | with unique ids the price charged for a product that has a line is that line's price |
| CartView.PriceOfAbsent | src/components/Cart.tsx:25 | a product with no line is charged its own price |
| CartView.PricesOfAbsent | src/components/Cart.tsx:25 | an absent id contributes no price |
| CartView.TotalOfIncrement | src/components/Cart.tsx:24-26 | incrementing raises the subtotal by the prices of the matching lines |
| CartView.HeaderBadgeCountsProducts | src/components/Cart.tsx:50-52 | with unique ids the drawer badge equals the number of distinct products in the cart |
| CartView.HeaderBadgeVersusCount | src/components/Cart.tsx:50-52 | the drawer badge never exceeds the navbar badge, and the two agree exactly when every line holds one unit |
| CartView.DecrementKeepsLine | src/components/Cart.tsx:87-95 | an enabled − button takes exactly one unit off its line, never removes it, and leaves the other lines alone |
| CartView.IncrementIsAddToCart | src/components/Cart.tsx:97-104 | the + button has the same effect on the cart as adding that line's product again |
| CartView.Footer | src/components/Cart.tsx:122-139 | the footer is shown exactly for a non-empty cart and then shows the subtotal |
| FilterSort.ParseSortOption | src/pages/Index.tsx:76-92 | the five branches of the sort switch, every other string falling to `default`; its meaning is stated by `SortedByMeaning` |
| FilterSort.Before | src/pages/Index.tsx:76-92 | the five comparators read as "may stand before"; carried by `BeforeTotal`, `BeforeTransitive` and `SortedByMeaning` |
| FilterSort.TitleLeTotal | src/pages/Index.tsx:84 | any two titles are comparable |
| FilterSort.TitleLeTransitive | src/pages/Index.tsx:84 | the title order is transitive |
| FilterSort.TitleLeAntisymmetric | src/pages/Index.tsx:84 | titles that compare both ways are equal |
| FilterSort.BeforeTotal | src/pages/Index.tsx:76-92 | every comparator of the sort switch is total |
| FilterSort.BeforeTransitive | src/pages/Index.tsx:76-92 | every comparator of the sort switch is transitive |
| FilterSort.ByCategory | src/pages/Index.tsx:66-68 | each product of the category is kept as often as it occurs, no other product is kept, and the kept products stay in catalog order |
| FilterSort.ByPrice | src/pages/Index.tsx:71-73 | each product within the inclusive range is kept as often as it occurs, no other product is kept, and the kept products stay in their order |
| FilterSort.ByPriceKeepsAll | src/pages/Index.tsx:71-73 | when every product is in range the filter returns the list unchanged |
| FilterSort.InsertBackMultiset | src/pages/Index.tsx:76-92 | inserting adds exactly the inserted element |
| FilterSort.InsertBackSorted | src/pages/Index.tsx:76-92 | inserting into a sorted list keeps it sorted |
| FilterSort.TiedWithConcat | src/pages/Index.tsx:76-92 | the tied elements of a join are those of each part, in order |
| FilterSort.TiedWithSubsequence | src/pages/Index.tsx:76-92 | the elements tied with `x` appear in the list in the order they are listed |
| FilterSort.TiedWithSingle | src/pages/Index.tsx:76-92 | a one-element list ties with `x` exactly when its element does |
| FilterSort.InsertBackTiedWith | src/pages/Index.tsx:76-92 | inserting puts the inserted element after every element it ties with |
| FilterSort.NotBothTied | src/pages/Index.tsx:76-92 | two elements out of order cannot both tie with a third |
| FilterSort.InsertBackPassTiedWith | src/pages/Index.tsx:76-92 | moving the insertion past an element that must follow it keeps the tied elements in order |
| FilterSort.InsertionSortPermutes | src/pages/Index.tsx:76-92 | the reference sort is a permutation of its input |
| FilterSort.InsertionSortSorts | src/pages/Index.tsx:76-92 | the reference sort orders its output by the comparator |
| FilterSort.InsertionSortStable | src/pages/Index.tsx:76-92 | the reference sort is stable: the elements that tie with any `x` keep their relative order |
| FilterSort.Swap | src/pages/Index.tsx:76-92 | exchanges two array cells and leaves every other cell unchanged |
| FilterSort.InsertBackAt | src/pages/Index.tsx:76-92 | insertion puts `x` right behind the last element that may precede it |
| FilterSort.Insert | src/pages/Index.tsx:76-92 | one in-place pass turns the array prefix into the reference insertion of its last element, leaving the rest alone |
| FilterSort.SortInPlace | src/pages/Index.tsx:76-92 | the in-place `sort` leaves the array equal to the reference sort of its old contents |
| FilterSort.Filtered | src/pages/Index.tsx:64-73 | the category filter (skipped for `all`) then the price filter; its order and contents come from the `ByCategory` and `ByPrice` contracts |
| FilterSort.FilteredView | src/pages/Index.tsx:64-92 | the filtered products sorted by the option; carried by `FilteredViewIsFilteredView` |
| FilterSort.FilteredViewIsFilteredView | src/pages/Index.tsx:62-96 | the effect's list holds exactly the products that pass both filters, each as often as in the catalog; it is sorted by the option; the filtered list keeps catalog order, and the products of every tie class appear in the result in catalog order |
| FilterSort.DeriveFiltered | src/pages/Index.tsx:62-94 | the copy, filter, filter and in-place sort yields exactly the filtered view |
| FilterSort.SortedByMeaning | src/pages/Index.tsx:76-92 | what each option promises about any two positions: ids ascending, prices ascending or descending, titles ascending or descending |
| FilterSort.DefaultOrderStrict | src/pages/Index.tsx:89-91 | with distinct ids the default order is strictly ascending by id |
| FilterSort.HighestPrice | src/pages/Index.tsx:49 | no product's price exceeds the maximum |
| FilterSort.HighestPriceAttained | src/pages/Index.tsx:49 | the maximum is some product's price |
| FilterSort.CeilToDollar | src/pages/Index.tsx:48-50 | the result is a whole-dollar amount, at least the input and less than a dollar above it |
| FilterSort.SliderMax | src/pages/Index.tsx:47-52 | the slider maximum is a whole-dollar amount, at least every price and less than a dollar above the highest |
| FilterSort.InitialRangeKeepsAll | src/pages/Index.tsx:47-73 | the range seeded on load lets every product through the price filter |
| Paging.JsSlice | src/pages/Index.tsx:102 | the slice is never longer than the list; for bounds `0 <= start <= end` it is the clamped window, and for `0 <= end <= start` it is empty |
| Paging.PageSlice | src/pages/Index.tsx:99-103 | the slice of page `p`; carried by `PageSliceWindow`, `PageNonEmptyIffInRange`, `PageOfIndex` and `PagesReassemble` |
| Paging.TotalPages | src/pages/Index.tsx:162 | the page count is the least number of eight-product pages that holds the list |
| Paging.PageSliceWindow | src/pages/Index.tsx:99-103 | page `p >= 1` is at most eight products: the window from `(p - 1) * 8` clamped at the end, or empty once it starts past the end |
| Paging.PageNonEmptyIffInRange | src/pages/Index.tsx:99-103 | a page from 1 on is non-empty exactly when it is at most the page count |
| Paging.PageOfIndex | src/pages/Index.tsx:99-103 | product `i` appears on page `i / 8 + 1` at offset `i % 8` |
| Paging.PagesPrefix | src/pages/Index.tsx:99-103 | pages 1 to `k` read in order are the first `8k` products |
| Paging.PagesReassemble | src/pages/Index.tsx:99-162 | pages 1 to the page count read in order give back the whole list, each product once |
| Paging.SeventeenProducts | src/pages/Index.tsx:99-162 | seventeen products make three pages, the third holding only the last product |
| Pagination.WindowEnd | src/components/Pagination.tsx:20 | the window's last page; carried by `WindowBounds` |
| Pagination.WindowStart | src/components/Pagination.tsx:19-24 | the window's first page, moved back when the end is clamped; carried by `WindowBounds` |
| Pagination.Leading | src/components/Pagination.tsx:26-46 | the first-page shortcut and the leading ellipsis; carried by `LeadingShortcuts` |
| Pagination.Trailing | src/components/Pagination.tsx:62-82 | the trailing ellipsis and the last-page shortcut; carried by `TrailingShortcuts` |
| Pagination.Layout | src/components/Pagination.tsx:15-85 | the strip; carried by `LayoutAt`, `StripPages`, `LeadingShortcuts`, `TrailingShortcuts` and `FifthOfTen` |
| Pagination.Previous | src/components/Pagination.tsx:92-93 | requests the page before, disabled on page 1; carried by `Render` and `RequestsStayInRange` |
| Pagination.Next | src/components/Pagination.tsx:106-107 | requests the page after, disabled on the last page; carried by `Render` and `RequestsStayInRange` |
| Pagination.AppendWindow | src/components/Pagination.tsx:48-60 | the loop pushes one button per page of the window, the current one active |
| Pagination.RenderPageNumbers | src/components/Pagination.tsx:15-85 | the pushes produce exactly the strip `Layout` |
| Pagination.Render | src/components/Pagination.tsx:12-113 | nothing is rendered exactly when there is at most one page; otherwise the strip, Previous disabled exactly on page 1, Next disabled exactly on the last page, requesting the neighbouring pages |
| Pagination.WindowBounds | src/components/Pagination.tsx:19-24 | the window lies in `[1, total]`, contains the current page and holds `min(5, total)` pages |
| Pagination.WindowItemsAt | src/components/Pagination.tsx:48-60 | the window buttons are the consecutive pages from its start, the current one active |
| Pagination.LeadingShortcuts | src/components/Pagination.tsx:26-46 | the page-1 shortcut leads exactly when the window starts after page 1, and the leading ellipsis follows it exactly when the window starts after page 2 |
| Pagination.TrailingShortcuts | src/components/Pagination.tsx:62-82 | the last-page shortcut ends the strip exactly when the window ends before the last page, and the trailing ellipsis precedes it exactly when the window ends before the page before that |
| Pagination.StripPages | src/components/Pagination.tsx:15-85 | the strip's buttons request strictly rising pages within `[1, total]`, so none repeats; the current page is among them; it is the only one highlighted |
| Pagination.LayoutAt | src/components/Pagination.tsx:26-82 | the position of every item: the leading shortcut, then the window in page order, then the trailing shortcut |
| Pagination.RequestsStayInRange | src/components/Pagination.tsx:87-111 | every page the rendered control can request is in `[1, total]`: an enabled Previous or Next, or any strip button |
| Pagination.FifthOfTen | src/components/Pagination.tsx:15-85 | on page 5 of 10 the strip reads `1 … 3 4 [5] 6 7 … 10` |
| Storefront.IndexPage.constructor | src/pages/Index.tsx:13-33 | the initial state satisfies the invariant: empty lists, loading, category `all`, range `[0, 1000]` dollars, default sort, page 1, closed empty cart |
| Storefront.IndexPage.CartItemsCount | src/pages/Index.tsx:159 | the navbar badge is at least the number of lines, and zero exactly for the empty cart |
| Storefront.IndexPage.TotalPages | src/pages/Index.tsx:162 | the page count of the filtered list; carried by `Paging.TotalPages` and `Paging.PageNonEmptyIffInRange` |
| Storefront.IndexPage.CalculatePagination | src/pages/Index.tsx:99-103 | the displayed products are the current page's slice of the filtered list |
| Storefront.IndexPage.ApplyFiltersAndSort | src/pages/Index.tsx:62-103 | after the filter effect and the pagination effect the invariant holds on page 1 |
| Storefront.IndexPage.LoadData | src/pages/Index.tsx:36-59 | stores both lists and clears loading; a non-empty catalog seeds the maximum and the range `[0, max]` from the rounded-up highest price, an empty one leaves both as they were; the effects leave the invariant on page 1 |
| Storefront.IndexPage.SetSelectedCategory | src/pages/Index.tsx:176-185 | a new category re-filters and returns to page 1; the same category changes nothing else |
| Storefront.IndexPage.SetPriceRange | src/pages/Index.tsx:176-185 | every slider move re-filters and returns to page 1 |
| Storefront.IndexPage.SetSortOption | src/pages/Index.tsx:176-185 | a new option re-sorts and returns to page 1; the same option changes nothing else |
| Storefront.IndexPage.HandlePageChange | src/pages/Index.tsx:106-109 | goes to the requested page and shows its slice, keeping the invariant |
| Storefront.IndexPage.HandleAddToCart | src/pages/Index.tsx:112-132 | applies the add updater to the cart, keeps the invariant and raises the badge by one |
| Storefront.IndexPage.HandleUpdateQuantity | src/pages/Index.tsx:135-146 | applies the update (a removal for a quantity of zero or less) and keeps the invariant |
| Storefront.IndexPage.HandleRemoveItem | src/pages/Index.tsx:149-151 | applies the remove updater and keeps the invariant |
| Storefront.IndexPage.ToggleCart | src/pages/Index.tsx:154-156 | flips the drawer's open flag |
| Storefront.IndexPage.CloseCart | src/pages/Index.tsx:202 | closes the drawer |

## Left out

- Fetching: `fetchProducts` and `fetchCategories` are outside the model. `LoadData` takes their results as parameters.
- Fetch ordering and failure: the code awaits the two fetches one after the other and has no error branch, so a failed fetch leaves `loading` set. The model follows the code. It has neither concurrent fetches nor an empty-catalog fallback on failure.
- LoadData: the model follows the code for an empty catalog, which leaves the slider maximum and the range at their defaults. A maximum of 0 is not modelled.
- React scheduling: each handler and the effects it triggers run as one atomic step. The transient render right after `loadData`, in which `filteredProducts` is the unfiltered catalog, is not a state of the model.
- React's bail-out on an unchanged state value is modelled only as its outcome: setting the same category or sort option re-runs no effect.
- Toast notifications and `window.scrollTo` are side effects with no state. They are left out.
- Floating point and `toFixed(2)`: prices and totals are whole cents. Fractional-cent prices and rounding in the display are not modelled.
- FilterSort.TitleLe: `localeCompare` is modelled as lexicographic order on code points, because locale collation is not available. Under this order, `"title-desc"` on `["Apple", "banana", "Cherry"]` gives `banana, Cherry, Apple`, not the locale-aware `Cherry, banana, Apple`.
- Number width: ids, prices and quantities are unbounded integers. JavaScript's double-precision limits are not modelled.
- Paging.JsSlice: for negative bounds it computes `slice` but states nothing about the result beyond its length. Bounds of 0 or more are fully stated. A page below 1 produces such bounds; the control itself never requests one (`Pagination.RequestsStayInRange`).
- Rendering markup, CSS classes and the presentation components (`Filters`, `ProductCard`, `Navbar`, `NotFound`) are not part of this model. Only the values they pass to the handlers appear, as method parameters.
