/** The trash page: three tabs of soft-deleted notes, todos and tags, and a
    marker on the one item whose restore or delete is in flight. The item
    action runs in two steps around its `await`, so that other handlers can
    run in between. */
module TrashList {
  import opened Entities

  class List {
    var notes: seq<Note>
    var todos: seq<Todo>
    var tags: seq<Tag>
    var pendingActionItemId: Option<Id>

    constructor (initialDeletedNotes: seq<Note>, initialDeletedTodos: seq<Todo>, initialDeletedTags: seq<Tag>)
      ensures notes == initialDeletedNotes && todos == initialDeletedTodos && tags == initialDeletedTags
      ensures pendingActionItemId == None
    {
      notes, todos, tags := initialDeletedNotes, initialDeletedTodos, initialDeletedTags;
      pendingActionItemId := None;
    }

    /** The effect that runs when any of the three props changes. */
    method ResetOnNewItems(initialDeletedNotes: seq<Note>, initialDeletedTodos: seq<Todo>, initialDeletedTags: seq<Tag>)
      modifies this
      ensures notes == initialDeletedNotes && todos == initialDeletedTodos && tags == initialDeletedTags
      ensures pendingActionItemId == None
    {
      notes, todos, tags := initialDeletedNotes, initialDeletedTodos, initialDeletedTags;
      pendingActionItemId := None;
    }

    /** `handleItemAction` up to its `await`: the item becomes the one
        pending item, replacing any earlier one. */
    method StartItemAction(itemId: Id)
      modifies this`pendingActionItemId
      ensures pendingActionItemId == Some(itemId)
    {
      pendingActionItemId := Some(itemId);
    }

    /** `handleItemAction` after its `await`: a thrown error clears the
        marker (whichever item it names by then); success leaves it until the
        refresh resets the list. */
    method FinishItemAction(threw: bool)
      modifies this`pendingActionItemId
      ensures threw ==> pendingActionItemId == None
      ensures !threw ==> pendingActionItemId == old(pendingActionItemId)
    {
      if threw {
        pendingActionItemId := None;
      }
    }

    /** The whole handler when nothing runs between its two steps. */
    method HandleItemAction(itemId: Id, threw: bool)
      modifies this`pendingActionItemId
      ensures pendingActionItemId == if threw then None else Some(itemId)
    {
      StartItemAction(itemId);
      FinishItemAction(threw);
    }

    /** The "trash is empty" view: the three lists hold no item between them and
        no transition is running, which is to say every tab counts zero. */
    function ShowsEmptyView(isPending: bool): (r: bool)
      reads this
      ensures r <==> notes == [] && todos == [] && tags == [] && !isPending
      ensures r <==> TabCounts() == (0, 0, 0) && !isPending
    {
      |notes| + |todos| + |tags| == 0 && !isPending
    }

    /** The counts in the three tab headers: notes, todos, tags. */
    function TabCounts(): (nat, nat, nat)
      reads this
    {
      (|notes|, |todos|, |tags|)
    }

    /** A card is marked pending when its id is the pending id. */
    predicate IsItemPending(itemId: Id)
      reads this
    {
      pendingActionItemId == Some(itemId)
    }
  }
}
