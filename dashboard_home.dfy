/**
 * The product dashboard page: it fetches the catalog into the store, toggling a
 * `loading` flag around the request, and renders the current page of the view.
 */
module DashboardHome {
  import opened Wrappers
  import opened Catalog
  import opened Pagination
  import ProductStore

  /** What the page body shows. */
  datatype View = Spinner | NoResults | Grid(items: seq<Product>, pager: bool)

  /**
   * The page body: the spinner while loading, the no-results message for an empty
   * view, else the current page's window, with the pagination control only when
   * there is more than one page.
   */
  function Render(loading: bool, view: seq<Product>, page: int, size: int): (r: View)
    requires size > 0
    ensures r == Spinner <==> loading
    ensures r == NoResults <==> !loading && view == []
    ensures r.Grid? ==> r.items == PageWindow(view, page, size) && |r.items| <= size
    ensures r.Grid? ==> (r.pager <==> |view| > size)
  {
    PagerShownIffOverflow(|view|, size);
    if loading then Spinner
    else if |view| == 0 then NoResults
    else
      var items := PageWindow(view, page, size);
      assert |items| <= size by {
        if page >= 1 {
          WindowOfPage(view, page, size);
        }
      }
      Grid(items, TotalPages(|view|, size) > 1)
  }

  class Dashboard {
    var loading: bool
    const store: ProductStore.Store

    /** The page mounts loading. */
    constructor (store: ProductStore.Store)
      ensures this.store == store && loading
    {
      this.store := store;
      loading := true;
    }

    /**
     * `fetchProducts`: a successful response replaces the catalog; a failure is
     * only logged, leaving the store as it was. Loading ends false either way.
     */
    method FetchProducts(response: Option<seq<Product>>)
      requires store.Valid()
      modifies this, store
      ensures store.Valid() && !loading
      ensures response.Some? ==>
                store.Snapshot() == old(store.Snapshot()).(products := response.value,
                                                           filteredProducts := response.value,
                                                           categories := Categories(response.value))
      ensures response.None? ==> store.Snapshot() == old(store.Snapshot())
    {
      loading := true;
      if response.Some? {
        store.SetProducts(response.value);
      }
      loading := false;
    }
  }
}
