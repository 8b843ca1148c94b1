/** The notes page's list with "load more" pagination. `fetchNotes` is not
    defined by the actions module it is imported from, so its answer is an
    input: `Some(notes)` when the result has a `notes` array, `None` when it
    does not. */
module NoteList {
  import opened Entities
  import opened SearchParams

  /** The argument of `fetchNotes({ page, query, tagId })`. */
  datatype FetchRequest = FetchRequest(page: int, query: Option<string>, tagId: Option<string>)

  class List {
    var notes: seq<Note>
    var page: int

    constructor (initialNotes: seq<Note>)
      ensures notes == initialNotes && page == 1
    {
      notes, page := initialNotes, 1;
    }

    /** The effect that runs when `initialNotes` changes (the scroll to the
        top is not modelled). */
    method ResetOnNewNotes(initialNotes: seq<Note>)
      modifies this
      ensures notes == initialNotes && page == 1
    {
      notes, page := initialNotes, 1;
    }

    /** `hasMoreNotes`: the "load more" button is shown. */
    predicate HasMoreNotes(totalNotes: int)
      reads this
    {
      |notes| < totalNotes
    }

    /** The empty-page message replaces the list. */
    predicate ShowsEmptyState()
      reads this
    {
      |notes| == 0
    }

    /** The first half of `loadMoreNotes`, up to the `await`: the request for
        the next page under the URL's current `q` and `tag` (an empty value
        counts as absent). */
    method BeginLoadMore(searchParams: seq<Pair>) returns (req: FetchRequest)
      ensures req.page == page + 1
      ensures req.query == NonEmpty(searchParams, "q")
      ensures req.tagId == NonEmpty(searchParams, "tag")
    {
      var nextPage := page + 1;
      var query := NonEmpty(searchParams, "q");
      var tagId := NonEmpty(searchParams, "tag");
      req := FetchRequest(nextPage, query, tagId);
    }

    /** The second half, after the `await`: a notes array is appended to
        whatever `notes` holds now and `page` becomes the requested page; any
        other result changes nothing. Already loaded notes are never removed
        or reordered. */
    method FinishLoadMore(req: FetchRequest, fetched: Option<seq<Note>>)
      modifies this
      ensures fetched.Some? ==> notes == old(notes) + fetched.value && page == req.page
      ensures fetched.None? ==> notes == old(notes) && page == old(page)
      ensures old(notes) <= notes
    {
      if fetched.Some? {
        notes := notes + fetched.value;
        page := req.page;
      }
    }

    /** `loadMoreNotes` when nothing else runs between its two halves. */
    method LoadMoreNotes(searchParams: seq<Pair>, fetched: Option<seq<Note>>) returns (req: FetchRequest)
      modifies this
      ensures req == FetchRequest(old(page) + 1, NonEmpty(searchParams, "q"), NonEmpty(searchParams, "tag"))
      ensures fetched.Some? ==> notes == old(notes) + fetched.value && page == old(page) + 1
      ensures fetched.None? ==> notes == old(notes) && page == old(page)
    {
      req := BeginLoadMore(searchParams);
      FinishLoadMore(req, fetched);
    }
  }
}
