/** The catalog page's state: the product list fetched from the listing
    endpoint, the filter and sort controls, and the current page number, with
    the handlers that update them. What the page shows is always the catalog
    pipeline applied to these cells. */
module ProductsPage {
  import opened Common
  import opened Catalog

  /** The categories offered by the page's selector, 'Todas' first. */
  const Categories: seq<string> := [AllCategories, "Piezas de Yeso", "Velas", "Piezas personalizadas", "Otros"]

  /** The outcome of one request to the listing endpoint: the request, the
      JSON decoding or the read of `products` threw, or the raw products. */
  datatype Response = FetchFailed | Fetched(raw: seq<RawProduct>)

  /** The query-string parameters the page reads. A parameter is None when it
      is absent or empty; price bounds arrive already read by Number(). */
  datatype Query = Query(
    category: Option<string>, search: Option<string>,
    minPrice: Option<PriceBound>, maxPrice: Option<PriceBound>, page: Option<int>)

  class ProductsPage {
    var products: seq<Product>
    var isLoading: bool
    var selectedCategory: string
    var searchTerm: string
    var priceMin: PriceBound
    var priceMax: PriceBound
    var sortBy: SortKey
    var currentPage: int

    constructor ()
      ensures products == [] && isLoading
      ensures selectedCategory == AllCategories && searchTerm == ""
      ensures priceMin == Unset && priceMax == Unset
      ensures sortBy == ByName && currentPage == 1
    {
      products := [];
      isLoading := true;
      selectedCategory := AllCategories;
      searchTerm := "";
      priceMin := Unset;
      priceMax := Unset;
      sortBy := ByName;
      currentPage := 1;
    }

    function CurrentFilter(): Filter
      reads this
    {
      Filter(selectedCategory, searchTerm, priceMin, priceMax)
    }

    /** The filtered and sorted list, before it is cut into pages. */
    function Results(): seq<Product>
      reads this
    {
      SortProducts(sortBy, FilterProducts(products, CurrentFilter()))
    }

    function PageCount(): nat
      reads this
    {
      TotalPages(|Results()|)
    }

    /** The products on screen. */
    function Shown(): seq<Product>
      reads this
    {
      PageOf(Results(), currentPage)
    }

    /** fetchProducts: a failed request empties the list; a successful one
        normalises the response and commits it when it differs from the list
        on screen. Either way loading ends. */
    method FetchProducts(response: Response) returns (changed: bool)
      modifies this`products, this`isLoading
      ensures !isLoading
      ensures response.FetchFailed? ==> products == []
      ensures response.Fetched? ==> products == NormalizeAll(response.raw)
      ensures changed <==> products != old(products)
    {
      match response {
        case FetchFailed =>
          changed := products != [];
          products := [];
        case Fetched(raw) =>
          var incoming := NormalizeAll(raw);
          changed := incoming != products;
          if changed {
            products := incoming;
          }
      }
      isLoading := false;
    }

    /** The ← button. */
    method PreviousPage()
      modifies this`currentPage
      ensures currentPage == PrevPage(old(currentPage))
    {
      currentPage := if currentPage - 1 >= 1 then currentPage - 1 else 1;
    }

    /** The → button, clamped to the page count of the current results. */
    method FollowingPage()
      modifies this`currentPage
      ensures currentPage == NextPage(old(currentPage), PageCount())
    {
      var total := PageCount();
      currentPage := if currentPage + 1 <= total then currentPage + 1 else total;
    }

    /** One of the numbered buttons, which run from 1 to the page count. */
    method GoToPage(page: int)
      modifies this`currentPage
      ensures currentPage == page
      ensures 1 <= page <= PageCount() ==> Shown() != []
    {
      currentPage := page;
      if page >= 1 {
        PageEmptyIff(Results(), page);
      }
    }

    /** The search box, the category selector and the sort selector: each
        changes one control and leaves the page number where it was. */
    method SetSearchTerm(term: string)
      modifies this`searchTerm
      ensures searchTerm == term
    {
      searchTerm := term;
    }

    method SetCategory(category: string)
      modifies this`selectedCategory
      ensures selectedCategory == category
    {
      selectedCategory := category;
    }

    method SetSortBy(key: SortKey)
      modifies this`sortBy
      ensures sortBy == key
    {
      sortBy := key;
    }

    /** A link carrying `categoria` selects it only when it is one of the
        page's categories. */
    method FollowCategoryLink(categoria: Option<string>)
      modifies this`selectedCategory
      ensures categoria.Some? && categoria.value != "" && categoria.value in Categories
        ==> selectedCategory == categoria.value
      ensures !(categoria.Some? && categoria.value != "" && categoria.value in Categories)
        ==> selectedCategory == old(selectedCategory)
    {
      if categoria.Some? && categoria.value != "" && categoria.value in Categories {
        selectedCategory := categoria.value;
      }
    }

    /** The query-string sync: every parameter present overwrites its cell;
        the category is taken as given, without checking it. */
    method SyncFromQuery(q: Query)
      modifies this`selectedCategory, this`searchTerm, this`priceMin, this`priceMax, this`currentPage
      ensures selectedCategory == (if q.category.Some? then q.category.value else old(selectedCategory))
      ensures searchTerm == (if q.search.Some? then q.search.value else old(searchTerm))
      ensures priceMin == (if q.minPrice.Some? then q.minPrice.value else old(priceMin))
      ensures priceMax == (if q.maxPrice.Some? then q.maxPrice.value else old(priceMax))
      ensures currentPage == (if q.page.Some? then q.page.value else old(currentPage))
    {
      if q.category.Some? {
        selectedCategory := q.category.value;
      }
      if q.search.Some? {
        searchTerm := q.search.value;
      }
      if q.minPrice.Some? {
        priceMin := q.minPrice.value;
      }
      if q.maxPrice.Some? {
        priceMax := q.maxPrice.value;
      }
      if q.page.Some? {
        currentPage := q.page.value;
      }
    }
  }

  /** Thirteen products under an open filter make two pages, the second
      holding one product. */
  lemma ThirteenProductsTwoPages(ps: seq<Product>, f: Filter, key: SortKey)
    requires |ps| == 13
    requires f.category == AllCategories && f.searchTerm == "" && f.min == Unset && f.max == Unset
    ensures TotalPages(|SortProducts(key, FilterProducts(ps, f))|) == 2
    ensures |View(ps, f, key, 2)| == 1
  {
    OpenFilterKeepsAll(ps, f);
    var sorted := SortProducts(key, ps);
    assert |sorted| == 13 by {
      assert |multiset(sorted)| == |multiset(ps)|;
    }
    ThirteenItems(sorted);
  }

  lemma {:induction false} FilterNothingMatches(ps: seq<Product>, f: Filter)
    requires forall p :: p in ps ==> !MatchesSearch(p.name, f.searchTerm)
    ensures FilterProducts(ps, f) == []
    decreases |ps|
  {
    if ps != [] {
      assert ps[0] in ps;
      FilterNothingMatches(ps[1..], f);
    }
  }

  /** A search that matches no product leaves every page empty. */
  lemma NoMatchShowsNothing(ps: seq<Product>, f: Filter, key: SortKey, page: int)
    requires forall p :: p in ps ==> !MatchesSearch(p.name, f.searchTerm)
    ensures View(ps, f, key, page) == []
  {
    FilterNothingMatches(ps, f);
  }

  /** A browsing session: the list arrives with 13 products, the shopper
      steps to page 2 and sees the 13th, then types a search nothing matches;
      the page number stays at 2 and shows nothing. */
  method NarrowingSearchLeavesPage(raw: seq<RawProduct>, term: string)
    requires |raw| == 13
    requires forall p :: p in NormalizeAll(raw) ==> !MatchesSearch(p.name, term)
  {
    var page := new ProductsPage();
    var _ := page.FetchProducts(Fetched(raw));
    ThirteenProductsTwoPages(page.products, page.CurrentFilter(), page.sortBy);
    page.FollowingPage();
    assert page.currentPage == 2;
    assert |page.Shown()| == 1;
    page.SetSearchTerm(term);
    NoMatchShowsNothing(page.products, page.CurrentFilter(), page.sortBy, page.currentPage);
    assert page.currentPage == 2 && page.Shown() == [];
  }
}
