/**
 * The index page: the state the page component holds, and its handlers and effects, each run
 * as one atomic step (a handler followed by the effects its state change triggers).
 */
module Storefront {
  import opened Domain
  import CartStore
  import FilterSort
  import Paging

  /** The initial slider maximum: 1000 dollars, in cents. */
  const DefaultMaxPrice: int := 100000

  class IndexPage {
    var products: seq<Product>
    var filteredProducts: seq<Product>
    var displayProducts: seq<Product>
    var loading: bool
    var categories: seq<string>
    var selectedCategory: string
    var priceRange: (int, int)
    var maxPrice: int
    var sortOption: string
    var currentPage: int
    var isCartOpen: bool
    var cartItems: seq<CartLine>

    /** The derived lists agree with the state they derive from, and the cart keeps its invariant. */
    ghost predicate Valid()
      reads this
    {
      && CartStore.WellFormed(cartItems)
      && filteredProducts == FilterSort.FilteredView(products, selectedCategory, priceRange, sortOption)
      && displayProducts == Paging.PageSlice(filteredProducts, currentPage)
    }

    /** The state after mounting, before the catalog arrives (the mount-time effects change nothing). */
    constructor ()
      ensures Valid()
      ensures products == [] && filteredProducts == [] && displayProducts == [] && loading
      ensures categories == [] && selectedCategory == "all" && sortOption == "default"
      ensures priceRange == (0, DefaultMaxPrice) && maxPrice == DefaultMaxPrice
      ensures currentPage == 1 && !isCartOpen && cartItems == []
    {
      products, filteredProducts, displayProducts := [], [], [];
      loading := true;
      categories := [];
      selectedCategory := "all";
      priceRange := (0, DefaultMaxPrice);
      maxPrice := DefaultMaxPrice;
      sortOption := "default";
      currentPage := 1;
      isCartOpen := false;
      cartItems := [];
    }

    /** The badge count of the navbar: the sum of the line quantities, at least one per line. */
    function CartItemsCount(): (r: int)
      reads this
      requires Valid()
      ensures r >= |cartItems|
      ensures r == 0 <==> cartItems == []
    {
      CartStore.CountAtLeastLines(cartItems);
      CartStore.CartItemsCount(cartItems)
    }

    /** The number of pages of the filtered list. */
    function TotalPages(): nat
      reads this
    {
      Paging.TotalPages(|filteredProducts|)
    }

    /** The pagination effect: show the current page's slice of the filtered list. */
    method CalculatePagination()
      modifies this`displayProducts
      ensures displayProducts == Paging.PageSlice(filteredProducts, currentPage)
    {
      var indexOfLastProduct := currentPage * Paging.ProductsPerPage;
      var indexOfFirstProduct := indexOfLastProduct - Paging.ProductsPerPage;
      displayProducts := Paging.JsSlice(filteredProducts, indexOfFirstProduct, indexOfLastProduct);
    }

    /** The filter-and-sort effect, which resets to page 1, followed by the pagination effect. */
    method ApplyFiltersAndSort()
      requires CartStore.WellFormed(cartItems)
      modifies this`filteredProducts, this`currentPage, this`displayProducts
      ensures Valid()
      ensures currentPage == 1
    {
      var result := FilterSort.DeriveFiltered(products, selectedCategory, priceRange, sortOption);
      filteredProducts := result;
      currentPage := 1;
      assert filteredProducts == FilterSort.FilteredView(products, selectedCategory, priceRange, sortOption);
      CalculatePagination();
    }

    /**
     * `loadData` with the two fetched lists as parameters: store them and, for a non-empty catalog,
     * seed the slider from the highest price; the new product list then re-runs the effects.
     */
    method LoadData(productsData: seq<Product>, categoriesData: seq<string>)
      requires CartStore.WellFormed(cartItems)
      modifies this`loading, this`products, this`filteredProducts, this`categories, this`maxPrice,
               this`priceRange, this`currentPage, this`displayProducts
      ensures Valid() && !loading
      ensures products == productsData && categories == categoriesData
      ensures |productsData| > 0 ==>
        maxPrice == FilterSort.SliderMax(productsData) && priceRange == (0, maxPrice)
      ensures |productsData| == 0 ==> maxPrice == old(maxPrice) && priceRange == old(priceRange)
      ensures currentPage == 1
    {
      loading := true;
      products := productsData;
      filteredProducts := productsData;
      categories := categoriesData;
      if |productsData| > 0 {
        var highestPrice := FilterSort.SliderMax(productsData);
        maxPrice := highestPrice;
        priceRange := (0, highestPrice);
      }
      loading := false;
      ApplyFiltersAndSort();
    }

    /** Choosing a category re-runs the effects when it differs from the current one. */
    method SetSelectedCategory(category: string)
      requires Valid()
      modifies this`selectedCategory, this`filteredProducts, this`currentPage, this`displayProducts
      ensures Valid() && selectedCategory == category
      ensures old(selectedCategory) != category ==> currentPage == 1
      ensures old(selectedCategory) == category ==>
        filteredProducts == old(filteredProducts) && currentPage == old(currentPage)
    {
      if category != selectedCategory {
        selectedCategory := category;
        ApplyFiltersAndSort();
      }
    }

    /** Moving the slider always hands over a fresh range array, so the effects always re-run. */
    method SetPriceRange(range: (int, int))
      requires Valid()
      modifies this`priceRange, this`filteredProducts, this`currentPage, this`displayProducts
      ensures Valid() && priceRange == range && currentPage == 1
    {
      priceRange := range;
      ApplyFiltersAndSort();
    }

    /** Choosing a sort option re-runs the effects when it differs from the current one. */
    method SetSortOption(option: string)
      requires Valid()
      modifies this`sortOption, this`filteredProducts, this`currentPage, this`displayProducts
      ensures Valid() && sortOption == option
      ensures old(sortOption) != option ==> currentPage == 1
      ensures old(sortOption) == option ==>
        filteredProducts == old(filteredProducts) && currentPage == old(currentPage)
    {
      if option != sortOption {
        sortOption := option;
        ApplyFiltersAndSort();
      }
    }

    /** `handlePageChange`: go to the page and show its slice. */
    method HandlePageChange(pageNumber: int)
      requires Valid()
      modifies this`currentPage, this`displayProducts
      ensures Valid() && currentPage == pageNumber
    {
      currentPage := pageNumber;
      assert filteredProducts == FilterSort.FilteredView(products, selectedCategory, priceRange, sortOption);
      CalculatePagination();
    }

    /** `handleAddToCart`: the cart updater applied to the current cart; the badge grows by one. */
    method HandleAddToCart(product: Product)
      requires Valid()
      modifies this`cartItems
      ensures Valid()
      ensures cartItems == CartStore.AddToCart(old(cartItems), product)
      ensures CartItemsCount() == old(CartItemsCount()) + 1
    {
      CartStore.AddToCartWellFormed(cartItems, product);
      CartStore.CountOfAddToCart(cartItems, product);
      cartItems := CartStore.AddToCart(cartItems, product);
    }

    /** `handleUpdateQuantity`: a quantity of zero or less removes the line, any other sets it. */
    method HandleUpdateQuantity(id: int, quantity: int)
      requires Valid()
      modifies this`cartItems
      ensures Valid()
      ensures cartItems == CartStore.UpdateQuantity(old(cartItems), id, quantity)
    {
      if quantity <= 0 {
        HandleRemoveItem(id);
        return;
      }
      CartStore.UpdateQuantityWellFormed(cartItems, id, quantity);
      cartItems := CartStore.SetQuantity(cartItems, id, quantity);
    }

    /** `handleRemoveItem`: the filter updater applied to the current cart. */
    method HandleRemoveItem(id: int)
      requires Valid()
      modifies this`cartItems
      ensures Valid()
      ensures cartItems == CartStore.RemoveItem(old(cartItems), id)
    {
      CartStore.RemoveItemWellFormed(cartItems, id);
      cartItems := CartStore.RemoveItem(cartItems, id);
    }

    /** `toggleCart`: open a closed drawer, close an open one. */
    method ToggleCart()
      modifies this`isCartOpen
      ensures isCartOpen == !old(isCartOpen)
    {
      isCartOpen := !isCartOpen;
    }

    /** The drawer's close action. */
    method CloseCart()
      modifies this`isCartOpen
      ensures !isCartOpen
    {
      isCartOpen := false;
    }
  }
}
