/**
 * The recipe list page's state and paging controls
 * (client/src/pages/RecipesPage.jsx lines 9-35 and 75-95): the query it
 * keeps, how the filter bar and the paging buttons change it, and when the
 * buttons are shown and enabled.
 */
module RecipesPage {
  import opened Wrappers
  import SearchFilters
  import opened RecipeQuery
  import RecipeRoutes
  import Text

  /** The page's state, which is also the query of the list request. */
  datatype PageFilters = PageFilters(
    page: int,
    limit: int,
    search: string,
    category: string,
    difficulty: string,
    sortBy: string,
    sortOrder: string)

  /** The initial state: the first page of 12, no search or filter, newest first. */
  function InitialPageFilters(): PageFilters {
    PageFilters(1, 12, "", "", "", "createdAt", "desc")
  }

  /** The page's state carries exactly the filter bar's five values. */
  predicate InSync(pf: PageFilters, sf: SearchFilters.Filters) {
    pf.search == sf.search && pf.category == sf.category && pf.difficulty == sf.difficulty
    && pf.sortBy == sf.sortBy && pf.sortOrder == sf.sortOrder
  }

  /** `handleFiltersChange`: `{ ...prev, ...newFilters, page: 1 }`. */
  function HandleFiltersChange(prev: PageFilters, nf: SearchFilters.Filters): (r: PageFilters)
    ensures InSync(r, nf)
    ensures r.page == 1 && r.limit == prev.limit
  {
    PageFilters(1, prev.limit, nf.search, nf.category, nf.difficulty, nf.sortBy, nf.sortOrder)
  }

  /** `handlePageChange`: only the page changes; the scroll to the top is not modelled. */
  function HandlePageChange(prev: PageFilters, page: int): (r: PageFilters)
    ensures r.page == page && r.limit == prev.limit
    ensures forall sf :: InSync(r, sf) <==> InSync(prev, sf)
  {
    prev.(page := page)
  }

  /** Both components start in agreement. */
  lemma InitiallyInSync()
    ensures InSync(InitialPageFilters(), SearchFilters.InitialFilters())
  {
  }

  /**
   * Whatever the filter bar does next, the page follows it: after any of its
   * handlers reports its new filters, the two agree again and the page is the first.
   */
  lemma FilterBarKeepsSync(prev: PageFilters, sf: SearchFilters.Filters, key: SearchFilters.FilterKey, v: string)
    ensures var nf := SearchFilters.HandleSearchChange(sf, v);
      InSync(HandleFiltersChange(prev, nf), nf)
    ensures var nf := SearchFilters.HandleFilterChange(sf, key, v);
      InSync(HandleFiltersChange(prev, nf), nf)
    ensures |Text.Split(v, '-')| >= 2 ==> var nf := SearchFilters.HandleSortChange(sf, v);
      InSync(HandleFiltersChange(prev, nf), nf)
    ensures var nf := SearchFilters.ClearFilters(sf);
      var r := HandleFiltersChange(prev, nf);
      InSync(r, SearchFilters.InitialFilters()) && r.page == 1
  {
  }

  /**
   * The list request the state makes, each value sent as a query parameter.
   * How the client's API module turns the state into parameters is not part
   * of this model; an empty text is sent as an empty parameter.
   */
  function ToQuery(pf: PageFilters): RecipeRoutes.ListQuery {
    RecipeRoutes.ListQuery(Some(pf.page), Some(pf.limit), Some(pf.category), Some(pf.difficulty),
      Some(pf.search), Some(pf.sortBy), Some(pf.sortOrder))
  }

  /** The initial request lists exactly what a request with no parameters lists: the server's defaults agree. */
  lemma InitialQueryIsDefaultListing()
    ensures var q, e := ToQuery(InitialPageFilters()), RecipeRoutes.ListQuery(None, None, None, None, None, None, None);
      && RecipeRoutes.PageOf(q) == RecipeRoutes.PageOf(e)
      && RecipeRoutes.LimitOf(q) == RecipeRoutes.LimitOf(e)
      && RecipeRoutes.QueryFilter(q) == RecipeRoutes.QueryFilter(e)
      && RecipeRoutes.SortFieldOf(q) == RecipeRoutes.SortFieldOf(e)
      && RecipeRoutes.AscendingOf(q) == RecipeRoutes.AscendingOf(e)
  {
  }

  /** The paging bar is rendered only for a non-empty page of a result with several pages. */
  predicate ControlsShown(shown: nat, p: Pagination) {
    shown > 0 && p.totalPages > 1
  }

  function PreviousTarget(p: Pagination): int { p.currentPage - 1 }
  predicate PreviousEnabled(p: Pagination) { p.hasPrevPage }
  function NextTarget(p: Pagination): int { p.currentPage + 1 }
  predicate NextEnabled(p: Pagination) { p.hasNextPage }

  /**
   * On a page the list route returned with some recipes on it, an enabled
   * button leads to another page of the same result that is itself non-empty
   * (while the stored recipes stay the same); Previous is enabled exactly
   * off the first page and Next exactly before the last.
   */
  lemma NavigationStaysInRange(es: seq<Entry>, page: int, limit: int)
    requires page >= 1 && limit >= 1
    requires |PageAt(es, page, limit)| > 0
    ensures var p := Paginate(page, limit, |es|);
      && 1 <= p.currentPage <= p.totalPages
      && (PreviousEnabled(p) <==> p.currentPage != 1)
      && (NextEnabled(p) <==> p.currentPage != p.totalPages)
      && (PreviousEnabled(p) ==> 1 <= PreviousTarget(p) && |PageAt(es, PreviousTarget(p), limit)| > 0)
      && (NextEnabled(p) ==> NextTarget(p) <= p.totalPages && |PageAt(es, NextTarget(p), limit)| > 0)
  {
    var p := Paginate(page, limit, |es|);
    PageNonEmptyIff(es, page, limit);
    if p.hasPrevPage {
      PageNonEmptyIff(es, page - 1, limit);
    }
    if p.hasNextPage {
      PageNonEmptyIff(es, page + 1, limit);
    }
  }

  /** With the bar shown, at least one of the two buttons is enabled. */
  lemma ShownControlsNavigate(es: seq<Entry>, page: int, limit: int)
    requires page >= 1 && limit >= 1
    requires ControlsShown(|PageAt(es, page, limit)|, Paginate(page, limit, |es|))
    ensures PreviousEnabled(Paginate(page, limit, |es|)) || NextEnabled(Paginate(page, limit, |es|))
  {
    NavigationStaysInRange(es, page, limit);
  }
}
