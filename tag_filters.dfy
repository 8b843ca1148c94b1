/** The tags page's search box: the same query-parameter rewrite as the notes
    page, without a tag selector. */
module TagFilters {
  import opened Entities
  import opened SearchParams

  class Filters {
    var searchQuery: string

    constructor (searchParams: seq<Pair>)
      ensures searchQuery == GetOr(searchParams, "q", "")
    {
      searchQuery := GetOr(searchParams, "q", "");
    }

    method SetSearchQuery(query: string)
      modifies this
      ensures searchQuery == query
    {
      searchQuery := query;
    }

    /** The search effect: no navigation while the box shows the URL's query;
        otherwise `q` is set to a non-empty query or deleted for an empty one,
        and every other parameter is kept. */
    method SearchEffect(searchParams: seq<Pair>) returns (target: Option<seq<Pair>>)
      ensures searchQuery == GetOr(searchParams, "q", "") <==> target.None?
      ensures target.Some? && searchQuery != "" ==>
        target.value == SetParam(searchParams, "q", searchQuery) && Get(target.value, "q") == Some(searchQuery)
      ensures target.Some? && searchQuery == "" ==>
        target.value == Others(searchParams, "q") && Get(target.value, "q").None?
      ensures target.Some? ==> Others(target.value, "q") == Others(searchParams, "q")
    {
      var currentQueryInUrl := GetOr(searchParams, "q", "");
      if searchQuery == currentQueryInUrl {
        return None;
      }
      var params := new URLSearchParams(searchParams);
      if searchQuery != "" {
        params.Set("q", searchQuery);
      } else {
        params.Delete("q");
      }
      target := Some(params.list);
    }
  }
}
