/** The home page's product search: the text typed in the search box, and
    whether a search was run. Until a search is run the page lists every
    product; after one, only those whose title contains the search text,
    ignoring case. */
module HomePage {
  import opened Wrappers
  import opened Seqs
  import opened Text
  import opened Store

  /** `product.title.toLowerCase().includes(search.toLowerCase())`. */
  predicate TitleMatches(search: string, p: Product) {
    Contains(ToLower(p.title), ToLower(search))
  }

  /** `filteredProducts`: nothing until a search is run, then the matching
      products in their listed order. */
  function FilteredProducts(products: seq<Product>, search: string, isSearched: bool): (r: seq<Product>)
    ensures !isSearched ==> r == []
    ensures IsSubsequence(r, products)
    ensures forall i :: 0 <= i < |products| ==>
              (products[i] in r <==> isSearched && TitleMatches(search, products[i]))
  {
    if isSearched then
      var matches := (p: Product) => TitleMatches(search, p);
      FilterKeeps(products, matches);
      Filter(products, matches)
    else []
  }

  /** The case the search text is typed in does not change the result. */
  lemma SearchIgnoresCase(products: seq<Product>, search: string, isSearched: bool)
    ensures FilteredProducts(products, ToUpper(search), isSearched) == FilteredProducts(products, search, isSearched)
    ensures FilteredProducts(products, ToLower(search), isSearched) == FilteredProducts(products, search, isSearched)
  {
    LowerForgetsCase(search);
    FilterSamePredicate(products, (p: Product) => TitleMatches(ToUpper(search), p),
                        (p: Product) => TitleMatches(search, p));
    FilterSamePredicate(products, (p: Product) => TitleMatches(ToLower(search), p),
                        (p: Product) => TitleMatches(search, p));
  }

  /** A search whose text was erased after it ran lists every product. */
  lemma ErasedSearchListsAll(products: seq<Product>)
    ensures FilteredProducts(products, "", true) == products
  {
    forall i | 0 <= i < |products| ensures TitleMatches("", products[i]) {
      assert OccursAt(ToLower(products[i].title), ToLower(""), 0);
    }
    FilterAll(products, (p: Product) => TitleMatches("", p));
  }

  /** The product cards the page renders: every product while no search is
      active, `filteredProducts` once one is. */
  function ShownProducts(products: seq<Product>, search: string, isSearched: bool): (r: seq<Product>)
    ensures !isSearched ==> r == products
    ensures isSearched ==> IsSubsequence(r, products)
    ensures forall i :: 0 <= i < |products| ==>
              (products[i] in r <==> !isSearched || TitleMatches(search, products[i]))
  {
    if isSearched then FilteredProducts(products, search, true) else products
  }

  const EmptySearchAlert := "Please enter a search term"

  /** The search state of the page. */
  class HomeState {
    var search: string
    var isSearched: bool

    constructor ()
      ensures search == "" && !isSearched
    {
      search := "";
      isSearched := false;
    }

    /** `filteredProducts` in the current state. */
    function Filtered(products: seq<Product>): seq<Product>
      reads this
    {
      FilteredProducts(products, search, isSearched)
    }

    /** The product cards the page renders in the current state. */
    function Shown(products: seq<Product>): seq<Product>
      reads this
    {
      ShownProducts(products, search, isSearched)
    }

    /** The search box's `onChange`. */
    method SetSearch(text: string)
      modifies this
      ensures search == text && isSearched == old(isSearched)
    {
      search := text;
    }

    /** `handleSearch`: a blank search text raises an alert and changes
        nothing; any other text runs the search. */
    method HandleSearch() returns (alert: Option<string>)
      modifies this
      ensures search == old(search)
      ensures alert.Some? <==> forall i :: 0 <= i < |search| ==> IsSpace(search[i])
      ensures alert.Some? ==> alert.value == EmptySearchAlert && isSearched == old(isSearched)
      ensures alert.None? ==> isSearched
    {
      TrimEmptyIffBlank(search);
      if Trim(search) == "" {
        alert := Some(EmptySearchAlert);
      } else {
        isSearched := true;
        alert := None;
      }
    }

    /** `handleClearSearch`: back to the empty search and the full list. */
    method HandleClearSearch()
      modifies this
      ensures search == "" && !isSearched
      ensures forall products :: Shown(products) == products
    {
      search := "";
      isSearched := false;
    }
  }
}
