/** The tag picker of the note dialogs: a list of selected tags that a click
    toggles, a remove button per badge, and one hidden `tagIds` form input per
    selected tag. */
module TagSelector {
  import opened Entities
  import opened Seqs
  import NoteActions

  /** The selected tags' ids, in selection order. */
  function Ids(tags: seq<Tag>): (ids: seq<Id>)
    ensures |ids| == |tags|
    ensures forall i :: 0 <= i < |tags| ==> ids[i] == tags[i].id
  {
    seq(|tags|, i requires 0 <= i < |tags| => tags[i].id)
  }

  /** `(t) => ids.includes(t.id)` */
  function IdIn(ids: seq<Id>): (p: Tag -> bool)
    ensures forall t :: p(t) == (t.id in ids)
  {
    (t: Tag) => t.id in ids
  }

  /** `(t) => t.id !== id` */
  function IdIsNot(id: Id): (p: Tag -> bool)
    ensures forall t :: p(t) == (t.id != id)
  {
    (t: Tag) => t.id != id
  }

  /** The initial selection: `allTags` restricted to the given ids, in
      `allTags` order. */
  function InitialSelection(allTags: seq<Tag>, selectedIds: seq<Id>): seq<Tag> {
    Filter(allTags, IdIn(selectedIds))
  }

  /** `prev.filter((t) => t.id !== id)` */
  function WithoutId(tags: seq<Tag>, id: Id): (r: seq<Tag>)
    ensures id !in Ids(r)
    ensures forall t :: t in r <==> t in tags && t.id != id
  {
    var r := Filter(tags, IdIsNot(id));
    assert forall t :: t in tags && t.id != id ==> t in r by {
      forall t | t in tags && t.id != id ensures t in r {
        var k :| 0 <= k < |tags| && tags[k] == t;
      }
    }
    r
  }

  /** The updater of `handleSelect`: a tag whose id is selected is removed
      (every entry with that id), any other tag is appended. */
  function Toggled(tags: seq<Tag>, tag: Tag): seq<Tag> {
    if tag.id in Ids(tags) then WithoutId(tags, tag.id) else tags + [tag]
  }

  /** `formData.getAll(name)`: the values of every submitted field with that
      name, in form order. */
  function GetAll(fields: seq<(string, string)>, name: string): seq<string>
    decreases |fields|
  {
    if fields == [] then []
    else (if fields[0].0 == name then [fields[0].1] else []) + GetAll(fields[1..], name)
  }

  /** The hidden inputs `<input type="hidden" name="tagIds" value={tag.id}>`,
      as the name/value pairs the form submits: reading `tagIds` back gives
      the selected ids in selection order, and no other name is submitted. */
  function HiddenInputs(tags: seq<Tag>): (fields: seq<(string, string)>)
    ensures |fields| == |tags|
    ensures forall i :: 0 <= i < |tags| ==> fields[i] == ("tagIds", tags[i].id)
    ensures GetAll(fields, "tagIds") == Ids(tags)
    ensures forall name :: name != "tagIds" ==> GetAll(fields, name) == []
    decreases |tags|
  {
    if tags == [] then []
    else
      var fields := [("tagIds", tags[0].id)] + HiddenInputs(tags[1..]);
      assert fields[1..] == HiddenInputs(tags[1..]);
      assert Ids(tags) == [tags[0].id] + Ids(tags[1..]);
      fields
  }

  /** A note form submitted with the picker's hidden inputs validates to a
      note linked to exactly the ids of the selected tags. */
  lemma SubmittedTagIds(tags: seq<Tag>, title: string, content: string)
    requires |content| >= 1
    ensures var form := NoteActions.NoteForm(Some(title), Some(content), GetAll(HiddenInputs(tags), "tagIds"));
      NoteActions.ValidatedNote(form).Some? &&
      NoteActions.ValidatedNote(form).value.tagIds == set t | t in tags :: t.id
  {
    var form := NoteActions.NoteForm(Some(title), Some(content), GetAll(HiddenInputs(tags), "tagIds"));
    var linked := NoteActions.ValidatedNote(form).value.tagIds;
    forall id ensures id in linked <==> id in set t | t in tags :: t.id {
      if id in Ids(tags) {
        var k :| 0 <= k < |tags| && Ids(tags)[k] == id;
        assert tags[k] in tags;
      }
      if id in set t | t in tags :: t.id {
        var t :| t in tags && t.id == id;
        var k :| 0 <= k < |tags| && tags[k] == t;
        assert Ids(tags)[k] == id;
      }
    }
  }

  /** Removing an id that is not selected changes nothing. */
  lemma {:induction false} WithoutAbsentId(tags: seq<Tag>, id: Id)
    requires id !in Ids(tags)
    ensures WithoutId(tags, id) == tags
  {
    assert forall i :: 0 <= i < |tags| ==> IdIsNot(id)(tags[i]) by {
      forall i | 0 <= i < |tags| ensures IdIsNot(id)(tags[i]) {
        assert Ids(tags)[i] == tags[i].id;
      }
    }
    FilterKeepsAll(tags, IdIsNot(id));
  }

  /** Selecting a tag that is not selected appends it, leaving the rest
      untouched; selecting it again removes it and gives back the original
      selection. */
  lemma ToggleTwiceRestores(tags: seq<Tag>, tag: Tag)
    requires tag.id !in Ids(tags)
    ensures Toggled(tags, tag) == tags + [tag]
    ensures Toggled(Toggled(tags, tag), tag) == tags
  {
    var once := tags + [tag];
    assert Ids(once)[|tags|] == tag.id;
    FilterAppend(tags, [tag], IdIsNot(tag.id));
    WithoutAbsentId(tags, tag.id);
    assert Filter([tag], IdIsNot(tag.id)) == [];
  }

  /** Removing keeps the order of the remaining tags. */
  lemma WithoutKeepsOrder(tags: seq<Tag>, id: Id)
    ensures IsSubsequence(WithoutId(tags, id), tags)
  {
    FilterIsSubsequence(tags, IdIsNot(id));
  }

  /** No two selected tags share an id. */
  predicate UniqueIds(tags: seq<Tag>) {
    forall i, j :: 0 <= i < j < |tags| ==> tags[i].id != tags[j].id
  }

  /** Filtering keeps ids unique. */
  lemma {:induction false} FilterKeepsIdsUnique(tags: seq<Tag>, p: Tag -> bool)
    requires UniqueIds(tags)
    ensures UniqueIds(Filter(tags, p))
    decreases |tags|
  {
    if tags != [] {
      var rest := Filter(tags[1..], p);
      FilterKeepsIdsUnique(tags[1..], p);
      if p(tags[0]) {
        forall j | 0 <= j < |rest| ensures rest[j].id != tags[0].id {
          var k :| 0 <= k < |tags[1..]| && tags[1..][k] == rest[j];
          assert tags[k + 1] == rest[j];
        }
        var r := [tags[0]] + rest;
        forall i, j | 0 <= i < j < |r| ensures r[i].id != r[j].id {
          assert r[j] == rest[j - 1];
          if i > 0 {
            assert r[i] == rest[i - 1];
          }
        }
      }
    }
  }

  /** If the selected ids are unique before a toggle or a removal, they are
      unique after it. */
  lemma ToggleKeepsIdsUnique(tags: seq<Tag>, tag: Tag, id: Id)
    requires UniqueIds(tags)
    ensures UniqueIds(Toggled(tags, tag))
    ensures UniqueIds(WithoutId(tags, id))
  {
    FilterKeepsIdsUnique(tags, IdIsNot(id));
    if tag.id in Ids(tags) {
      FilterKeepsIdsUnique(tags, IdIsNot(tag.id));
    } else {
      var r := tags + [tag];
      forall i | 0 <= i < |tags| ensures tags[i].id != tag.id {
        assert Ids(tags)[i] == tags[i].id;
      }
      assert forall i, j :: 0 <= i < j < |r| ==> r[i].id != r[j].id;
    }
  }

  /** The component's state: `selectedTags` and the popover's `open` flag. */
  class Selector {
    var selectedTags: seq<Tag>
    var open: bool

    /** `useState(() => allTags.filter((tag) => initialSelectedTagIds.includes(tag.id)))` */
    constructor (allTags: seq<Tag>, initialSelectedTagIds: seq<Id>)
      ensures forall t :: t in selectedTags <==> t in allTags && t.id in initialSelectedTagIds
      ensures IsSubsequence(selectedTags, allTags)
      ensures !open
    {
      selectedTags := InitialSelection(allTags, initialSelectedTagIds);
      open := false;
      FilterIsSubsequence(allTags, IdIn(initialSelectedTagIds));
      forall t | t in allTags && t.id in initialSelectedTagIds
        ensures t in InitialSelection(allTags, initialSelectedTagIds)
      {
        var k :| 0 <= k < |allTags| && allTags[k] == t;
      }
    }

    method HandleSelect(tag: Tag)
      modifies this
      ensures tag.id in Ids(old(selectedTags)) ==> selectedTags == WithoutId(old(selectedTags), tag.id)
      ensures tag.id !in Ids(old(selectedTags)) ==> selectedTags == old(selectedTags) + [tag]
      ensures UniqueIds(old(selectedTags)) ==> UniqueIds(selectedTags)
      ensures open
    {
      if UniqueIds(selectedTags) {
        ToggleKeepsIdsUnique(selectedTags, tag, tag.id);
      }
      selectedTags := Toggled(selectedTags, tag);
      open := true;
    }

    method HandleRemove(tagId: Id)
      modifies this`selectedTags
      ensures selectedTags == WithoutId(old(selectedTags), tagId)
      ensures tagId !in Ids(old(selectedTags)) ==> selectedTags == old(selectedTags)
      ensures UniqueIds(old(selectedTags)) ==> UniqueIds(selectedTags)
    {
      if UniqueIds(selectedTags) {
        ToggleKeepsIdsUnique(selectedTags, Row(tagId, "", false, TagFields("", "", "")), tagId);
      }
      if tagId !in Ids(selectedTags) {
        WithoutAbsentId(selectedTags, tagId);
      }
      selectedTags := WithoutId(selectedTags, tagId);
    }
  }
}
