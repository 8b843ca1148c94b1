/** The tag server actions and the tag schema, whose colour must match
    `/^#[0-9a-fA-F]{6}$/`. */
module TagActions {
  import opened Entities
  import opened Store

  datatype TagForm = TagForm(name: Option<string>, description: Option<string>, color: Option<string>)

  predicate IsHexDigit(c: char) {
    ('0' <= c <= '9') || ('a' <= c <= 'f') || ('A' <= c <= 'F')
  }

  /** `[0-9a-fA-F]{n}$`: the text is exactly `n` hex digits. */
  predicate HexDigits(s: string, n: nat)
    decreases n
  {
    if n == 0 then s == []
    else s != [] && IsHexDigit(s[0]) && HexDigits(s[1..], n - 1)
  }

  /** The colour pattern, read left to right: a `#`, then six hex digits, then
      the end of the text. */
  predicate MatchesColorPattern(s: string) {
    s != [] && s[0] == '#' && HexDigits(s[1..], 6)
  }

  lemma {:induction false} HexDigitsIff(s: string, n: nat)
    ensures HexDigits(s, n) <==> |s| == n && forall i :: 0 <= i < |s| ==> IsHexDigit(s[i])
    decreases n
  {
    if n > 0 && s != [] {
      HexDigitsIff(s[1..], n - 1);
      if IsHexDigit(s[0]) && |s[1..]| == n - 1 && (forall i :: 0 <= i < |s[1..]| ==> IsHexDigit(s[1..][i])) {
        forall i | 0 <= i < |s| ensures IsHexDigit(s[i]) {
          if i > 0 {
            assert s[i] == s[1..][i - 1];
          }
        }
      }
    }
  }

  /** A colour is accepted exactly when it is `#` and six hex digits in
      either case: seven characters in all. */
  lemma ColorPatternIff(s: string)
    ensures MatchesColorPattern(s) <==>
      |s| == 7 && s[0] == '#' && forall i :: 1 <= i < 7 ==> IsHexDigit(s[i])
  {
    if s != [] {
      HexDigitsIff(s[1..], 6);
      if |s| == 7 && (forall i :: 1 <= i < 7 ==> IsHexDigit(s[i])) {
        assert forall i :: 0 <= i < 6 ==> s[1..][i] == s[i + 1];
      }
    }
  }

  /** `tagSchema.safeParse(...)`: a non-empty name, a present description,
      and a present colour that matches the pattern. A missing field is null,
      which `.optional()` does not accept. */
  function ValidatedTag(form: TagForm): (r: Option<TagFields>)
    ensures r.Some? <==>
      && form.name.Some? && |form.name.value| >= 1
      && form.description.Some?
      && form.color.Some? && MatchesColorPattern(form.color.value)
    ensures r.Some? ==> r.value == TagFields(form.name.value, form.description.value, form.color.value)
  {
    if form.name.None? || |form.name.value| < 1 then None
    else if form.description.None? then None
    else if form.color.None? || !MatchesColorPattern(form.color.value) then None
    else Some(TagFields(form.name.value, form.description.value, form.color.value))
  }

  method CreateTag(db: Database, session: Session, form: TagForm, newId: Id, fault: bool)
    returns (r: Response)
    modifies db`tags
    ensures !SignedIn(session) ==> r == Err(SessionNotFound) && db.tags == old(db.tags)
    ensures SignedIn(session) && ValidatedTag(form).None? ==>
      r == Err(InvalidDataError) && db.tags == old(db.tags)
    ensures SignedIn(session) && ValidatedTag(form).Some? && (fault || newId in old(db.tags)) ==>
      r == Err("create_tag_unexpected_err") && db.tags == old(db.tags)
    ensures r.Ok? <==> SignedIn(session) && ValidatedTag(form).Some? && !fault && newId !in old(db.tags)
    ensures r.Ok? ==> r.code == "create_tag_success"
    ensures r.Ok? ==>
      db.tags == old(db.tags)[newId := Row(newId, session.value, false, ValidatedTag(form).value)]
    ensures KeysMatch(old(db.tags)) ==> KeysMatch(db.tags)
  {
    if !SignedIn(session) {
      return Err(SessionNotFound);
    }
    var validated := ValidatedTag(form);
    if validated.None? {
      return Err(InvalidDataError);
    }
    if fault || newId in db.tags {
      return Err("create_tag_unexpected_err");
    }
    db.tags := db.tags[newId := Row(newId, session.value, false, validated.value)];
    r := Ok("create_tag_success");
  }

  method UpdateTag(db: Database, session: Session, tagId: Id, form: TagForm, fault: bool)
    returns (r: Response)
    modifies db`tags
    ensures !SignedIn(session) ==> r == Err(SessionNotFound) && db.tags == old(db.tags)
    ensures SignedIn(session) && ValidatedTag(form).None? ==>
      r == Err(InvalidDataError) && db.tags == old(db.tags)
    ensures SignedIn(session) && ValidatedTag(form).Some? && fault ==>
      r == Err("update_tag_unexpected_err") && db.tags == old(db.tags)
    ensures SignedIn(session) && ValidatedTag(form).Some? && !fault
            && !Owns(old(db.tags), tagId, session.value) ==>
      r == Err(NotFoundOrUnauthorized) && db.tags == old(db.tags)
    ensures r.Ok? <==> SignedIn(session) && ValidatedTag(form).Some? && !fault
                       && Owns(old(db.tags), tagId, session.value)
    ensures r.Ok? ==> r.code == "update_tag_success"
    ensures r.Ok? ==>
      db.tags == old(db.tags)[tagId := old(db.tags)[tagId].(fields := ValidatedTag(form).value)]
    ensures KeysMatch(old(db.tags)) ==> KeysMatch(db.tags)
  {
    if !SignedIn(session) {
      return Err(SessionNotFound);
    }
    var validated := ValidatedTag(form);
    if validated.None? {
      return Err(InvalidDataError);
    }
    if fault {
      return Err("update_tag_unexpected_err");
    }
    if tagId !in db.tags || db.tags[tagId].userId != session.value {
      return Err(NotFoundOrUnauthorized);
    }
    db.tags := db.tags[tagId := db.tags[tagId].(fields := validated.value)];
    r := Ok("update_tag_success");
  }

  method SoftDeleteTag(db: Database, session: Session, tagId: Id, fault: bool) returns (r: Response)
    modifies db`tags
    ensures !SignedIn(session) ==> r == Err(SessionNotFound) && db.tags == old(db.tags)
    ensures SignedIn(session) && fault ==>
      r == Err("soft_delete_tag_unexpected_err") && db.tags == old(db.tags)
    ensures SignedIn(session) && !fault && !Owns(old(db.tags), tagId, session.value) ==>
      r == Err(NotFoundOrUnauthorized) && db.tags == old(db.tags)
    ensures r.Ok? <==> SignedIn(session) && !fault && Owns(old(db.tags), tagId, session.value)
    ensures r.Ok? ==> r.code == "soft_delete_tag_success"
    ensures r.Ok? ==>
      db.tags == WithSoftDelete(old(db.tags), tagId, true)
    ensures KeysMatch(old(db.tags)) ==> KeysMatch(db.tags)
  {
    if !SignedIn(session) {
      return Err(SessionNotFound);
    }
    if fault {
      return Err("soft_delete_tag_unexpected_err");
    }
    if tagId !in db.tags || db.tags[tagId].userId != session.value {
      return Err(NotFoundOrUnauthorized);
    }
    db.tags := WithSoftDelete(db.tags, tagId, true);
    r := Ok("soft_delete_tag_success");
  }

  method DeleteTagPermanent(db: Database, session: Session, tagId: Id, fault: bool) returns (r: Response)
    modifies db`tags
    ensures !SignedIn(session) ==> r == Err(SessionNotFound) && db.tags == old(db.tags)
    ensures SignedIn(session) && fault ==>
      r == Err("permanent_delete_tag_unexpected_err") && db.tags == old(db.tags)
    ensures SignedIn(session) && !fault && !Owns(old(db.tags), tagId, session.value) ==>
      r == Err(NotFoundOrUnauthorized) && db.tags == old(db.tags)
    ensures r.Ok? <==> SignedIn(session) && !fault && Owns(old(db.tags), tagId, session.value)
    ensures r.Ok? ==> r.code == "permanent_delete_tag_success"
    ensures r.Ok? ==>
      db.tags == Purged(old(db.tags), tagId) && tagId !in db.tags
    ensures KeysMatch(old(db.tags)) ==> KeysMatch(db.tags)
  {
    if !SignedIn(session) {
      return Err(SessionNotFound);
    }
    if fault {
      return Err("permanent_delete_tag_unexpected_err");
    }
    if tagId !in db.tags || db.tags[tagId].userId != session.value {
      return Err(NotFoundOrUnauthorized);
    }
    db.tags := Purged(db.tags, tagId);
    r := Ok("permanent_delete_tag_success");
  }
}
