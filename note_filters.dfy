/** The notes page's search box and tag selector. Both rewrite the URL's query
    parameters: a copy of the current parameters is edited with `set` or
    `delete` and becomes the navigation target. The 500 ms debounce and the
    navigation itself are not modelled: each handler returns the parameters it
    would navigate to. */
module NoteFilters {
  import opened Entities
  import opened SearchParams

  const AllTags := "all_tags"

  /** The tag selector's `defaultValue`. */
  function TagSelectDefault(searchParams: seq<Pair>): (r: string)
    ensures r != ""
    ensures r == AllTags || Get(searchParams, "tag") == Some(r)
    ensures NonEmpty(searchParams, "tag").Some? ==> r == NonEmpty(searchParams, "tag").value
    ensures NonEmpty(searchParams, "tag").None? ==> r == AllTags
  {
    GetOr(searchParams, "tag", AllTags)
  }

  class Filters {
    /** The `searchQuery` state field, bound to the search input. */
    var searchQuery: string

    constructor (searchParams: seq<Pair>)
      ensures searchQuery == GetOr(searchParams, "q", "")
    {
      searchQuery := GetOr(searchParams, "q", "");
    }

    /** The input's `onChange`. */
    method SetSearchQuery(query: string)
      modifies this
      ensures searchQuery == query
    {
      searchQuery := query;
    }

    /** `handleTagChange`: a real tag id sets `tag`; the empty id and
        `"all_tags"` delete it. Every other parameter is kept. */
    method HandleTagChange(searchParams: seq<Pair>, tagId: string) returns (target: seq<Pair>)
      ensures tagId != "" && tagId != AllTags ==>
        target == SetParam(searchParams, "tag", tagId) && Get(target, "tag") == Some(tagId)
      ensures tagId == "" || tagId == AllTags ==>
        target == Others(searchParams, "tag") && Get(target, "tag").None?
      ensures Others(target, "tag") == Others(searchParams, "tag")
    {
      var params := new URLSearchParams(searchParams);
      if tagId != "" && tagId != AllTags {
        params.Set("tag", tagId);
      } else {
        params.Delete("tag");
      }
      target := params.list;
    }

    /** The search effect: nothing happens while the box shows the URL's
        query; otherwise a non-empty query sets `q` and an empty one deletes
        it, keeping every other parameter. */
    method SearchEffect(searchParams: seq<Pair>) returns (target: Option<seq<Pair>>)
      ensures searchQuery == GetOr(searchParams, "q", "") <==> target.None?
      ensures target.Some? && searchQuery != "" ==>
        target.value == SetParam(searchParams, "q", searchQuery) && Get(target.value, "q") == Some(searchQuery)
      ensures target.Some? && searchQuery == "" ==>
        target.value == Others(searchParams, "q") && Get(target.value, "q").None?
      ensures target.Some? ==> Others(target.value, "q") == Others(searchParams, "q")
    {
      var currentQueryInUrl := GetOr(searchParams, "q", "");
      if searchQuery == currentQueryInUrl {
        return None;
      }
      var params := new URLSearchParams(searchParams);
      if searchQuery != "" {
        params.Set("q", searchQuery);
      } else {
        params.Delete("q");
      }
      target := Some(params.list);
    }
  }
}
