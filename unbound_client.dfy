/** The note, todo and tag actions reach the database through the global
    variable `prisma` (they do not import the client module), and call it with
    an optional chain: `prisma?.tag.create(...)`. The global is declared for
    the type checker only and is assigned only when the client module has run
    outside production. With it unassigned, reading the undeclared name throws
    a ReferenceError, which the optional chain does not guard against; the
    throw happens inside the `try`, so the action reports its unexpected
    error and writes nothing. `createTag` stands for the pattern here. */
module UnboundClient {
  import opened Entities
  import opened Store
  import opened TagActions

  /** `createTag` as written: `clientBound` says whether the global `prisma`
      holds a client when the action runs. */
  function CreateTagAsWritten(tags: Table<TagFields>, clientBound: bool, session: Session, form: TagForm,
                              newId: Id, fault: bool): (out: (Response, Table<TagFields>))
    ensures out.0.Ok? ==> out.0.code == "create_tag_success"
    ensures !clientBound && SignedIn(session) && ValidatedTag(form).Some? ==>
      out.0 == Err("create_tag_unexpected_err") && out.1 == tags
    ensures !clientBound ==> out.0.Err? && out.1 == tags
    ensures out.0.Ok? ==> SignedIn(session) && ValidatedTag(form).Some?
    ensures clientBound && out.0.Ok? ==> newId in out.1 && out.1[newId].userId == session.value
  {
    if !SignedIn(session) then (Err(SessionNotFound), tags)
    else if ValidatedTag(form).None? then (Err(InvalidDataError), tags)
    else if !clientBound || fault || newId in tags then (Err("create_tag_unexpected_err"), tags)
    else (Ok("create_tag_success"), tags[newId := Row(newId, session.value, false, ValidatedTag(form).value)])
  }

  /** A signed-in user submits a valid tag to an empty table while the global
      is unassigned: the action refuses it with `create_tag_unexpected_err`,
      although the action with a bound client stores it. */
  lemma RefusedTagCreate()
    ensures var form := TagForm(Some("work"), Some(""), Some("#00ff00"));
      var out := CreateTagAsWritten(map[], false, Some("user-1"), form, "tag-1", false);
      out.0 == Err("create_tag_unexpected_err") && out.1 == map[]
    ensures var form := TagForm(Some("work"), Some(""), Some("#00ff00"));
      var out := CreateTagAsWritten(map[], true, Some("user-1"), form, "tag-1", false);
      out.0 == Ok("create_tag_success") && "tag-1" in out.1
  {
    var form := TagForm(Some("work"), Some(""), Some("#00ff00"));
    assert HexDigits("00ff00"[1..], 5) by {
      assert "00ff00"[1..] == "0ff00";
      assert "0ff00"[1..] == "ff00";
      assert "ff00"[1..] == "f00";
      assert "f00"[1..] == "00";
      assert "00"[1..] == "0";
      assert "0"[1..] == "";
    }
    assert "#00ff00"[1..] == "00ff00";
    assert MatchesColorPattern("#00ff00");
  }

  /** With the client bound, the as-written action agrees with the model of
      `createTag` used everywhere else: success means the row was stored. */
  lemma BoundClientStoresTag(tags: Table<TagFields>, session: Session, form: TagForm, newId: Id, fault: bool)
    ensures var out := CreateTagAsWritten(tags, true, session, form, newId, fault);
      out.0.Ok? <==> SignedIn(session) && ValidatedTag(form).Some? && !fault && newId !in tags
    ensures var out := CreateTagAsWritten(tags, true, session, form, newId, fault);
      out.0.Ok? ==> out.1 == tags[newId := Row(newId, session.value, false, ValidatedTag(form).value)]
  {
  }
}
