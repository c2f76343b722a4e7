/**
 * The filter-and-sort effect of the index page and the price bounds it is seeded with
 * when the catalog arrives.
 */
module FilterSort {
  import opened Domain

  /** The sort options of the sort select; any other string falls to the `default` branch. */
  datatype SortOption = Default | PriceAsc | PriceDesc | TitleAsc | TitleDesc

  function ParseSortOption(s: string): SortOption {
    if s == "price-asc" then PriceAsc
    else if s == "price-desc" then PriceDesc
    else if s == "title-asc" then TitleAsc
    else if s == "title-desc" then TitleDesc
    else Default
  }

  /** The stand-in for `localeCompare(a, b) <= 0`: lexicographic order on code points. */
  predicate TitleLe(a: string, b: string) {
    if a == [] then true
    else if b == [] then false
    else if a[0] != b[0] then a[0] < b[0]
    else TitleLe(a[1..], b[1..])
  }

  lemma {:induction false} TitleLeTotal(a: string, b: string)
    ensures TitleLe(a, b) || TitleLe(b, a)
  {
    if a != [] && b != [] && a[0] == b[0] {
      TitleLeTotal(a[1..], b[1..]);
    }
  }

  lemma {:induction false} TitleLeTransitive(a: string, b: string, c: string)
    requires TitleLe(a, b) && TitleLe(b, c)
    ensures TitleLe(a, c)
  {
    if a != [] && b != [] && c != [] && a[0] == b[0] == c[0] {
      TitleLeTransitive(a[1..], b[1..], c[1..]);
    }
  }

  lemma {:induction false} TitleLeAntisymmetric(a: string, b: string)
    requires TitleLe(a, b) && TitleLe(b, a)
    ensures a == b
  {
    if a != [] && b != [] {
      TitleLeAntisymmetric(a[1..], b[1..]);
      assert a == [a[0]] + a[1..] && b == [b[0]] + b[1..];
    }
  }

  /** `compare(x, y) <= 0` for the comparator the option selects: `x` may stand before `y`. */
  predicate Before(opt: SortOption, x: Product, y: Product) {
    match opt
    case Default => x.id <= y.id
    case PriceAsc => x.price <= y.price
    case PriceDesc => y.price <= x.price
    case TitleAsc => TitleLe(x.title, y.title)
    case TitleDesc => TitleLe(y.title, x.title)
  }

  lemma BeforeTotal(opt: SortOption, x: Product, y: Product)
    ensures Before(opt, x, y) || Before(opt, y, x)
  {
    if opt.TitleAsc? || opt.TitleDesc? {
      TitleLeTotal(x.title, y.title);
    }
  }

  lemma BeforeTransitive(opt: SortOption, x: Product, y: Product, z: Product)
    requires Before(opt, x, y) && Before(opt, y, z)
    ensures Before(opt, x, z)
  {
    match opt
    case TitleAsc => TitleLeTransitive(x.title, y.title, z.title);
    case TitleDesc => TitleLeTransitive(z.title, y.title, x.title);
    case _ =>
  }

  ghost predicate SortedBy(opt: SortOption, s: seq<Product>) {
    forall i, j :: 0 <= i < j < |s| ==> Before(opt, s[i], s[j])
  }

  /** The category test: `'all'` keeps every product. */
  predicate InCategory(p: Product, category: string) {
    category == "all" || p.category == category
  }

  /** The inclusive price test. */
  predicate InPriceRange(p: Product, range: (int, int)) {
    range.0 <= p.price <= range.1
  }

  /** `result.filter(product => product.category === category)`. */
  function ByCategory(ps: seq<Product>, category: string): (r: seq<Product>)
    ensures forall p :: multiset(r)[p] == if p.category == category then multiset(ps)[p] else 0
    ensures SubsequenceOf(r, ps)
  {
    if ps == [] then []
    else
      assert ps == [ps[0]] + ps[1..];
      var rest := ByCategory(ps[1..], category);
      if ps[0].category == category then
        assert ([ps[0]] + rest)[1..] == rest;
        [ps[0]] + rest
      else
        rest
  }

  /** `result.filter(product => product.price >= range[0] && product.price <= range[1])`. */
  function ByPrice(ps: seq<Product>, range: (int, int)): (r: seq<Product>)
    ensures forall p :: multiset(r)[p] == if InPriceRange(p, range) then multiset(ps)[p] else 0
    ensures SubsequenceOf(r, ps)
  {
    if ps == [] then []
    else
      assert ps == [ps[0]] + ps[1..];
      var rest := ByPrice(ps[1..], range);
      if InPriceRange(ps[0], range) then
        assert ([ps[0]] + rest)[1..] == rest;
        [ps[0]] + rest
      else
        rest
  }

  /** Every product inside the range passes the price filter, in its place. */
  lemma {:induction false} ByPriceKeepsAll(ps: seq<Product>, range: (int, int))
    requires forall i :: 0 <= i < |ps| ==> InPriceRange(ps[i], range)
    ensures ByPrice(ps, range) == ps
  {
    if ps != [] {
      ByPriceKeepsAll(ps[1..], range);
      assert [ps[0]] + ps[1..] == ps;
    }
  }

  // ---- the sort ----

  /** `x` and `y` compare equal under the option. */
  predicate Tie(opt: SortOption, x: Product, y: Product) {
    Before(opt, x, y) && Before(opt, y, x)
  }

  /** The elements of `s` that tie with `x`, in their order in `s`. */
  function TiedWith(opt: SortOption, s: seq<Product>, x: Product): seq<Product> {
    if s == [] then []
    else TiedWith(opt, s[..|s| - 1], x) + (if Tie(opt, s[|s| - 1], x) then [s[|s| - 1]] else [])
  }

  /** The elements tied with `x` appear in `s` in the order `TiedWith` lists them. */
  lemma {:induction false} TiedWithSubsequence(opt: SortOption, s: seq<Product>, x: Product)
    ensures SubsequenceOf(TiedWith(opt, s, x), s)
  {
    if s != [] {
      var init, last := s[..|s| - 1], s[|s| - 1];
      TiedWithSubsequence(opt, init, x);
      SubsequenceExtend(TiedWith(opt, init, x), init, last);
      assert s == init + [last];
      if Tie(opt, last, x) {
        assert TiedWith(opt, s, x) == TiedWith(opt, init, x) + [last];
      } else {
        assert TiedWith(opt, s, x) == TiedWith(opt, init, x);
      }
    }
  }

  /** Inserts `x` into `s` from the back: it passes every element that must follow it. */
  function InsertBack(opt: SortOption, s: seq<Product>, x: Product): seq<Product> {
    if s == [] then [x]
    else if Before(opt, s[|s| - 1], x) then s + [x]
    else InsertBack(opt, s[..|s| - 1], x) + [s[|s| - 1]]
  }

  /** The reference sort: insertion of each element in turn, from the front. */
  function InsertionSort(opt: SortOption, s: seq<Product>): seq<Product> {
    if s == [] then [] else InsertBack(opt, InsertionSort(opt, s[..|s| - 1]), s[|s| - 1])
  }

  lemma {:induction false} InsertBackMultiset(opt: SortOption, s: seq<Product>, x: Product)
    ensures multiset(InsertBack(opt, s, x)) == multiset(s) + multiset{x}
  {
    if s != [] && !Before(opt, s[|s| - 1], x) {
      InsertBackMultiset(opt, s[..|s| - 1], x);
      assert s == s[..|s| - 1] + [s[|s| - 1]];
    }
  }

  lemma {:induction false} InsertBackSorted(opt: SortOption, s: seq<Product>, x: Product)
    requires SortedBy(opt, s)
    ensures SortedBy(opt, InsertBack(opt, s, x))
  {
    if s == [] {
    } else if Before(opt, s[|s| - 1], x) {
      var r := s + [x];
      forall i, j | 0 <= i < j < |r| ensures Before(opt, r[i], r[j]) {
        if j == |s| && i < |s| - 1 {
          BeforeTransitive(opt, s[i], s[|s| - 1], x);
        }
      }
    } else {
      var init, last := s[..|s| - 1], s[|s| - 1];
      BeforeTotal(opt, last, x);
      InsertBackSorted(opt, init, x);
      InsertBackMultiset(opt, init, x);
      var front := InsertBack(opt, init, x);
      var r := front + [last];
      forall i | 0 <= i < |front| ensures Before(opt, front[i], last) {
        assert front[i] in multiset(init) + multiset{x};
        if front[i] != x {
          assert front[i] in init;
        }
      }
      forall i, j | 0 <= i < j < |r| ensures Before(opt, r[i], r[j]) {
        if j < |front| {
          assert r[i] == front[i] && r[j] == front[j];
        }
      }
    }
  }

  lemma {:induction false} TiedWithConcat(opt: SortOption, a: seq<Product>, b: seq<Product>, x: Product)
    ensures TiedWith(opt, a + b, x) == TiedWith(opt, a, x) + TiedWith(opt, b, x)
  {
    if b == [] {
      assert a + b == a;
    } else {
      TiedWithConcat(opt, a, b[..|b| - 1], x);
      assert (a + b)[..|a + b| - 1] == a + b[..|b| - 1];
    }
  }

  lemma TiedWithSingle(opt: SortOption, e: Product, x: Product)
    ensures TiedWith(opt, [e], x) == if Tie(opt, e, x) then [e] else []
  {
    assert [e][..0] == [];
  }

  lemma {:induction false} InsertBackTiedWith(opt: SortOption, s: seq<Product>, y: Product, x: Product)
    ensures TiedWith(opt, InsertBack(opt, s, y), x) == TiedWith(opt, s, x) + (if Tie(opt, y, x) then [y] else [])
    decreases |s|
  {
    if s == [] {
      TiedWithSingle(opt, y, x);
    } else if Before(opt, s[|s| - 1], y) {
      TiedWithSingle(opt, y, x);
      TiedWithConcat(opt, s, [y], x);
    } else {
      InsertBackTiedWith(opt, s[..|s| - 1], y, x);
      InsertBackPassTiedWith(opt, s[..|s| - 1], s[|s| - 1], y, x);
      assert s == s[..|s| - 1] + [s[|s| - 1]];
    }
  }

  /** Two elements out of order under the option cannot both tie with a third. */
  lemma NotBothTied(opt: SortOption, z: Product, y: Product, x: Product)
    requires !Before(opt, z, y)
    ensures !(Tie(opt, y, x) && Tie(opt, z, x))
  {
    if Tie(opt, y, x) && Tie(opt, z, x) {
      BeforeTransitive(opt, z, x, y);
    }
  }

  /** The step of the lemma above where `y` passes the element `last` at the end. */
  lemma InsertBackPassTiedWith(opt: SortOption, init: seq<Product>, last: Product, y: Product, x: Product)
    requires !Before(opt, last, y)
    requires TiedWith(opt, InsertBack(opt, init, y), x) == TiedWith(opt, init, x) + (if Tie(opt, y, x) then [y] else [])
    ensures TiedWith(opt, InsertBack(opt, init + [last], y), x)
         == TiedWith(opt, init + [last], x) + (if Tie(opt, y, x) then [y] else [])
  {
    var ys := if Tie(opt, y, x) then [y] else [];
    var ls := if Tie(opt, last, x) then [last] else [];
    var s := init + [last];
    assert s[..|s| - 1] == init;
    assert InsertBack(opt, s, y) == InsertBack(opt, init, y) + [last];
    TiedWithConcat(opt, InsertBack(opt, init, y), [last], x);
    TiedWithSingle(opt, last, x);
    TiedWithConcat(opt, init, [last], x);
    NotBothTied(opt, last, y, x);
    var t := TiedWith(opt, init, x);
    assert TiedWith(opt, InsertBack(opt, s, y), x) == (t + ys) + ls;
    assert TiedWith(opt, s, x) + ys == (t + ls) + ys;
    assert ys == [] || ls == [];
    if ys == [] {
      assert t + ys == t && (t + ls) + ys == t + ls;
    } else {
      assert ls == [];
      assert t + ls == t && (t + ys) + ls == t + ys;
    }
  }

  /** The reference sort is a permutation of its input. */
  lemma {:induction false} InsertionSortPermutes(opt: SortOption, s: seq<Product>)
    ensures multiset(InsertionSort(opt, s)) == multiset(s)
  {
    if s != [] {
      var init, last := s[..|s| - 1], s[|s| - 1];
      InsertionSortPermutes(opt, init);
      InsertBackMultiset(opt, InsertionSort(opt, init), last);
      assert s == init + [last];
      assert multiset(s) == multiset(init) + multiset{last};
    }
  }

  /** The reference sort puts its output in the option's order. */
  lemma {:induction false} InsertionSortSorts(opt: SortOption, s: seq<Product>)
    ensures SortedBy(opt, InsertionSort(opt, s))
  {
    if s != [] {
      InsertionSortSorts(opt, s[..|s| - 1]);
      InsertBackSorted(opt, InsertionSort(opt, s[..|s| - 1]), s[|s| - 1]);
    }
  }

  /** The reference sort is stable: elements that tie keep their relative order. */
  lemma {:induction false} InsertionSortStable(opt: SortOption, s: seq<Product>, x: Product)
    ensures TiedWith(opt, InsertionSort(opt, s), x) == TiedWith(opt, s, x)
  {
    if s != [] {
      InsertionSortStable(opt, s[..|s| - 1], x);
      InsertBackTiedWith(opt, InsertionSort(opt, s[..|s| - 1]), s[|s| - 1], x);
    }
  }

  /** Exchanges two elements of an array. */
  method Swap(a: array<Product>, i: int, j: int)
    requires 0 <= i < a.Length && 0 <= j < a.Length
    modifies a
    ensures a[i] == old(a[j]) && a[j] == old(a[i])
    ensures forall k :: 0 <= k < a.Length && k != i && k != j ==> a[k] == old(a[k])
  {
    a[i], a[j] := a[j], a[i];
  }

  /** Insertion puts `x` right behind the last element that may precede it. */
  lemma {:induction false} InsertBackAt(opt: SortOption, s: seq<Product>, x: Product, j: int)
    requires 0 <= j <= |s| && (j > 0 ==> Before(opt, s[j - 1], x))
    requires forall k :: j <= k < |s| ==> !Before(opt, s[k], x)
    ensures InsertBack(opt, s, x) == s[..j] + [x] + s[j..]
  {
    if j == |s| {
      assert s[..j] == s && s[j..] == [];
    } else {
      var init, last := s[..|s| - 1], s[|s| - 1];
      assert !Before(opt, last, x);
      assert init[..j] == s[..j];
      InsertBackAt(opt, init, x, j);
      assert init[j..] + [last] == s[j..];
    }
  }

  /** One pass of the sort: moves `a[i]` left past every element that must follow it. */
  method Insert(a: array<Product>, i: int, opt: SortOption)
    requires 0 <= i < a.Length
    modifies a
    ensures a[..i + 1] == InsertBack(opt, old(a[..i]), old(a[i]))
    ensures forall k :: i < k < a.Length ==> a[k] == old(a[k])
  {
    ghost var s, x := a[..i], a[i];
    var j := i;
    while j > 0 && !Before(opt, a[j - 1], a[j])
      invariant 0 <= j <= i
      invariant forall k :: 0 <= k < j ==> a[k] == s[k]
      invariant a[j] == x
      invariant forall k :: j < k <= i ==> a[k] == s[k - 1]
      invariant forall k :: i < k < a.Length ==> a[k] == old(a[k])
      invariant forall k :: j <= k < i ==> !Before(opt, s[k], x)
    {
      Swap(a, j - 1, j);
      j := j - 1;
    }
    InsertBackAt(opt, s, x, j);
    assert a[..i + 1] == s[..j] + [x] + s[j..] by {
      forall k | 0 <= k <= i ensures a[k] == (s[..j] + [x] + s[j..])[k] {
      }
    }
  }

  /** `result.sort(compare)`: an in-place insertion sort by adjacent exchanges. */
  method SortInPlace(a: array<Product>, opt: SortOption)
    modifies a
    ensures a[..] == InsertionSort(opt, old(a[..]))
  {
    var i := 0;
    while i < a.Length
      invariant 0 <= i <= a.Length
      invariant a[..i] == InsertionSort(opt, old(a[..])[..i])
      invariant forall k :: i <= k < a.Length ==> a[k] == old(a[k])
    {
      assert old(a[..])[..i + 1][..i] == old(a[..])[..i];
      Insert(a, i, opt);
      i := i + 1;
    }
    assert a[..] == a[..a.Length];
    assert old(a[..])[..a.Length] == old(a[..]);
  }

  // ---- the effect ----

  /** The products that pass the category filter (skipped for `'all'`) and then the price filter. */
  function Filtered(products: seq<Product>, selectedCategory: string, priceRange: (int, int)): seq<Product> {
    ByPrice(if selectedCategory != "all" then ByCategory(products, selectedCategory) else products, priceRange)
  }

  /** The filtered list the effect computes: the filtered products in the option's sorted order. */
  function FilteredView(products: seq<Product>, selectedCategory: string, priceRange: (int, int),
                        sortOption: string): seq<Product>
  {
    InsertionSort(ParseSortOption(sortOption), Filtered(products, selectedCategory, priceRange))
  }

  /**
   * `result` is a filtered view of the catalog: it holds each product that passes the category
   * and price tests exactly as often as the catalog does and nothing else, in the option's
   * order, with products that tie under the option in the order the filters left them.
   */
  ghost predicate IsFilteredView(result: seq<Product>, products: seq<Product>, selectedCategory: string,
                                 priceRange: (int, int), sortOption: string)
  {
    && (forall p :: multiset(result)[p] ==
                    (if InCategory(p, selectedCategory) && InPriceRange(p, priceRange)
                     then multiset(products)[p] else 0))
    && SortedBy(ParseSortOption(sortOption), result)
    && SubsequenceOf(Filtered(products, selectedCategory, priceRange), products)
    && (forall x :: TiedWith(ParseSortOption(sortOption), result, x)
                 == TiedWith(ParseSortOption(sortOption), Filtered(products, selectedCategory, priceRange), x))
    && (forall x :: SubsequenceOf(TiedWith(ParseSortOption(sortOption), result, x), products))
  }

  /** The view is a filtered view: exactly the matching products, sorted, ties in catalog order. */
  lemma FilteredViewIsFilteredView(products: seq<Product>, selectedCategory: string, priceRange: (int, int),
                                   sortOption: string)
    ensures IsFilteredView(FilteredView(products, selectedCategory, priceRange, sortOption),
                           products, selectedCategory, priceRange, sortOption)
  {
    var opt := ParseSortOption(sortOption);
    var kept := Filtered(products, selectedCategory, priceRange);
    InsertionSortPermutes(opt, kept);
    InsertionSortSorts(opt, kept);
    var byCategory := if selectedCategory != "all" then ByCategory(products, selectedCategory) else products;
    assert SubsequenceOf(byCategory, products) by {
      if selectedCategory == "all" {
        SubsequenceReflexive(products);
      }
    }
    SubsequenceTransitive(kept, byCategory, products);
    forall x ensures TiedWith(opt, InsertionSort(opt, kept), x) == TiedWith(opt, kept, x)
                  && SubsequenceOf(TiedWith(opt, InsertionSort(opt, kept), x), products) {
      InsertionSortStable(opt, kept, x);
      TiedWithSubsequence(opt, kept, x);
      SubsequenceTransitive(TiedWith(opt, kept, x), kept, products);
    }
  }

  /**
   * The filter-and-sort effect: copy the catalog, filter by category unless it is `'all'`,
   * filter by price, then sort in place by the selected option. Its result depends on its
   * inputs alone, so recomputing with the same inputs gives the same list.
   */
  method DeriveFiltered(products: seq<Product>, selectedCategory: string, priceRange: (int, int),
                        sortOption: string) returns (result: seq<Product>)
    ensures result == FilteredView(products, selectedCategory, priceRange, sortOption)
  {
    var kept := products;
    if selectedCategory != "all" {
      kept := ByCategory(kept, selectedCategory);
    }
    kept := ByPrice(kept, priceRange);
    var a := new Product[|kept|](i requires 0 <= i < |kept| => kept[i]);
    assert a[..] == kept;
    SortInPlace(a, ParseSortOption(sortOption));
    result := a[..];
  }

  /** What each sort option promises about neighbours in the result. */
  lemma SortedByMeaning(opt: SortOption, s: seq<Product>, i: int, j: int)
    requires SortedBy(opt, s) && 0 <= i < j < |s|
    ensures opt == Default ==> s[i].id <= s[j].id
    ensures opt == PriceAsc ==> s[i].price <= s[j].price
    ensures opt == PriceDesc ==> s[i].price >= s[j].price
    ensures opt == TitleAsc ==> TitleLe(s[i].title, s[j].title)
    ensures opt == TitleDesc ==> TitleLe(s[j].title, s[i].title)
  {
    assert Before(opt, s[i], s[j]);
  }

  /** With distinct ids the default order is strictly ascending by id. */
  lemma DefaultOrderStrict(s: seq<Product>)
    requires SortedBy(Default, s)
    requires forall i, j :: 0 <= i < j < |s| ==> s[i].id != s[j].id
    ensures forall i, j :: 0 <= i < j < |s| ==> s[i].id < s[j].id
  {
    forall i, j | 0 <= i < j < |s| ensures s[i].id < s[j].id {
      assert Before(Default, s[i], s[j]);
    }
  }

  // ---- price bounds from the catalog ----

  /** `Math.max(...products.map(p => p.price))`: no price exceeds it. */
  function HighestPrice(ps: seq<Product>): (r: nat)
    requires |ps| > 0
    ensures forall i :: 0 <= i < |ps| ==> ps[i].price <= r
  {
    if |ps| == 1 then ps[0].price
    else
      var rest := HighestPrice(ps[1..]);
      assert forall i :: 1 <= i < |ps| ==> ps[i] == ps[1..][i - 1];
      if ps[0].price >= rest then ps[0].price else rest
  }

  /** The highest price is the price of some product. */
  lemma {:induction false} HighestPriceAttained(ps: seq<Product>)
    requires |ps| > 0
    ensures exists i :: 0 <= i < |ps| && ps[i].price == HighestPrice(ps)
  {
    if |ps| > 1 && ps[0].price < HighestPrice(ps[1..]) {
      HighestPriceAttained(ps[1..]);
      var i :| 0 <= i < |ps[1..]| && ps[1..][i].price == HighestPrice(ps[1..]);
      assert ps[i + 1].price == HighestPrice(ps);
    } else {
      assert ps[0].price == HighestPrice(ps);
    }
  }

  /** `Math.ceil` of a dollar amount, on cents: the least whole-dollar amount not below it. */
  function CeilToDollar(cents: nat): (r: nat)
    ensures r % 100 == 0
    ensures cents <= r < cents + 100
  {
    (cents + 99) / 100 * 100
  }

  /**
   * The slider maximum a non-empty catalog sets: the highest price rounded up to a whole dollar,
   * so it is a whole-dollar amount, at least every price and less than a dollar above the highest.
   */
  function SliderMax(ps: seq<Product>): (r: nat)
    requires |ps| > 0
    ensures r % 100 == 0
    ensures forall i :: 0 <= i < |ps| ==> ps[i].price <= r
    ensures r < HighestPrice(ps) + 100
  {
    CeilToDollar(HighestPrice(ps))
  }

  /** Right after a non-empty catalog loads, the price filter lets every product through. */
  lemma InitialRangeKeepsAll(ps: seq<Product>)
    requires |ps| > 0
    ensures ByPrice(ps, (0, SliderMax(ps))) == ps
  {
    ByPriceKeepsAll(ps, (0, SliderMax(ps)));
  }
}
