/**
 * The client's catalog state engine: one store object whose actions overwrite
 * its fields. `products` is the source of truth; `filteredProducts` is the view
 * that `search` and `filterByCategory` rebuild from `products`, that a price
 * sort reorders in place, and that `default` resets.
 */
module ProductStore {
  import opened Catalog

  /** The argument of `sortByPrice`. */
  datatype SortOrder = Asc | Desc | Default

  /** All five fields of the store at one moment. */
  datatype StoreState = StoreState(
    products: seq<Product>,
    filteredProducts: seq<Product>,
    categories: seq<string>,
    currentPage: int,
    itemsPerPage: int)

  class Store {
    var products: seq<Product>
    var filteredProducts: seq<Product>
    var categories: seq<string>
    var currentPage: int
    var itemsPerPage: int

    /**
     * The store's invariant: the view is a permutation of a subsequence of
     * `products` (its multiset is included in theirs), the category list is
     * derived from `products`, and the page size is positive.
     */
    ghost predicate Valid()
      reads this
    {
      && multiset(filteredProducts) <= multiset(products)
      && categories == Categories(products)
      && itemsPerPage > 0
    }

    /** The store's fields as one value. */
    function Snapshot(): StoreState
      reads this
    {
      StoreState(products, filteredProducts, categories, currentPage, itemsPerPage)
    }

    /** The initial state: empty lists, first page, six items per page. */
    constructor ()
      ensures Valid()
      ensures products == [] && filteredProducts == [] && categories == []
      ensures currentPage == 1 && itemsPerPage == 6
    {
      products := [];
      filteredProducts := [];
      categories := [];
      currentPage := 1;
      itemsPerPage := 6;
    }

    /** Replaces the collection, resets the view to it and recomputes the categories; the page is kept. */
    method SetProducts(ps: seq<Product>)
      requires Valid()
      modifies this
      ensures Valid()
      ensures products == ps && filteredProducts == ps && categories == Categories(ps)
      ensures currentPage == old(currentPage) && itemsPerPage == old(itemsPerPage)
    {
      var cs := Categories(ps);
      products, filteredProducts, categories := ps, ps, cs;
    }

    /** Keeps, from all products, those whose lowercased title or category includes the lowercased term. */
    method Search(term: string)
      requires Valid()
      modifies this
      ensures Valid()
      ensures filteredProducts == Filter(products, Matches(term))
      ensures currentPage == 1
      ensures products == old(products) && categories == old(categories)
      ensures itemsPerPage == old(itemsPerPage)
    {
      FilterSubMultiset(products, Matches(term));
      filteredProducts := Filter(products, Matches(term));
      currentPage := 1;
    }

    /** `"all"` restores every product; any other value keeps the products of exactly that category. */
    method FilterByCategory(category: string)
      requires Valid()
      modifies this
      ensures Valid()
      ensures filteredProducts == if category == "all" then products
                                  else Filter(products, InCategory(category))
      ensures currentPage == 1
      ensures products == old(products) && categories == old(categories)
      ensures itemsPerPage == old(itemsPerPage)
    {
      if category == "all" {
        filteredProducts := products;
      } else {
        FilterSubMultiset(products, InCategory(category));
        filteredProducts := Filter(products, InCategory(category));
      }
      currentPage := 1;
    }

    /**
     * `Default` restores every product, dropping any search or filter; `Asc` and
     * `Desc` stably sort the current view by price. The page is kept.
     */
    method SortByPrice(order: SortOrder)
      requires Valid()
      modifies this
      ensures Valid()
      ensures order == Default ==> filteredProducts == products
      ensures order != Default ==>
                filteredProducts == Catalog.SortByPrice(old(filteredProducts), order == Asc)
      ensures currentPage == old(currentPage)
      ensures products == old(products) && categories == old(categories)
      ensures itemsPerPage == old(itemsPerPage)
    {
      if order == Default {
        filteredProducts := products;
        return;
      }
      filteredProducts := Catalog.SortByPrice(filteredProducts, order == Asc);
    }

    /** Stores the page number as given, without any bounds check. */
    method SetPage(page: int)
      requires Valid()
      modifies this
      ensures Valid()
      ensures currentPage == page
      ensures products == old(products) && filteredProducts == old(filteredProducts)
      ensures categories == old(categories) && itemsPerPage == old(itemsPerPage)
    {
      currentPage := page;
    }
  }

  /** After a price sort the view is ordered, holds the same products, and keeps equal prices in their order. */
  lemma SortedView(view: seq<Product>, order: SortOrder, p: real)
    requires order != Default
    ensures Ordered(Catalog.SortByPrice(view, order == Asc), order == Asc)
    ensures multiset(Catalog.SortByPrice(view, order == Asc)) == multiset(view)
    ensures Filter(Catalog.SortByPrice(view, order == Asc), PricedAt(p)) == Filter(view, PricedAt(p))
  {
    SortStable(view, order == Asc, p);
  }
}
