/** The tags page's list and its optimistic deletion markers. The delete
    actions it calls are abstract here: `permanentDeleteTag` is not exported
    by the tag actions module, so only the choice of action is modelled. */
module TagList {
  import opened Entities

  /** Which server action a delete request calls, and with which id. */
  datatype DeleteCall = SoftDeleteTag(id: Id) | PermanentDeleteTag(id: Id)

  class List {
    var tags: seq<Tag>
    var pendingDeletionTagIds: seq<Id>

    constructor (initialTags: seq<Tag>)
      ensures tags == initialTags && pendingDeletionTagIds == []
    {
      tags, pendingDeletionTagIds := initialTags, [];
    }

    /** The effect that runs when `initialTags` changes, e.g. after the
        refresh that follows a delete. */
    method ResetOnNewTags(initialTags: seq<Tag>)
      modifies this
      ensures tags == initialTags && pendingDeletionTagIds == []
    {
      tags, pendingDeletionTagIds := initialTags, [];
    }

    /** `handleOptimisticDelete` up to its server call: the id is appended to
        the pending list first, and the flag alone picks the action. Existing
        entries stay. */
    method HandleOptimisticDelete(tagId: Id, isPermanent: bool) returns (call: DeleteCall)
      modifies this`pendingDeletionTagIds
      ensures pendingDeletionTagIds == old(pendingDeletionTagIds) + [tagId]
      ensures call.id == tagId
      ensures call.PermanentDeleteTag? <==> isPermanent
    {
      pendingDeletionTagIds := pendingDeletionTagIds + [tagId];
      call := if isPermanent then PermanentDeleteTag(tagId) else SoftDeleteTag(tagId);
    }

    /** A tag card is dimmed while its id is pending. */
    predicate IsPendingDeletion(tagId: Id)
      reads this
    {
      tagId in pendingDeletionTagIds
    }

    /** The empty-page message replaces the grid. */
    predicate ShowsEmptyMessage()
      reads this
    {
      |tags| == 0
    }
  }
}
