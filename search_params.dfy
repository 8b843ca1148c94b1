/** `URLSearchParams` as section 6.2 of the WHATWG URL Standard defines it: an
    ordered list of name/value pairs, read with `get` and changed with `set`
    and `delete`. Serialisation to and parsing from a query string are not
    modelled; `new URLSearchParams(searchParams.toString())` is a copy. */
module SearchParams {
  import opened Entities
  import opened Seqs

  type Pair = (string, string)

  /** `get(name)`: the value of the first pair with that name, or null. */
  function Get(list: seq<Pair>, name: string): (r: Option<string>)
    ensures r.Some? <==> exists i :: 0 <= i < |list| && list[i].0 == name
    ensures r.Some? ==> (name, r.value) in list
    ensures r.Some? ==> exists i :: 0 <= i < |list| && list[i] == (name, r.value)
                                  && forall j :: 0 <= j < i ==> list[j].0 != name
    decreases |list|
  {
    if list == [] then None
    else if list[0].0 == name then Some(list[0].1)
    else
      var r := Get(list[1..], name);
      assert forall i :: 1 <= i < |list| ==> list[i] == list[1..][i - 1];
      if r.Some? then
        var i :| 0 <= i < |list[1..]| && list[1..][i] == (name, r.value)
                 && forall j :: 0 <= j < i ==> list[1..][j].0 != name;
        assert list[i + 1] == (name, r.value);
        assert forall j :: 0 <= j < i + 1 ==> list[j].0 != name by {
          forall j | 0 <= j < i + 1 ensures list[j].0 != name {
            if j > 0 { assert list[j] == list[1..][j - 1]; }
          }
        }
        r
      else r
  }

  /** `(pair) => pair.name !== name` */
  function NameIsNot(name: string): (p: Pair -> bool)
    ensures forall pair :: p(pair) == (pair.0 != name)
  {
    (pair: Pair) => pair.0 != name
  }

  /** The pairs with any other name, in order; `delete(name)` leaves exactly
      these. */
  function Others(list: seq<Pair>, name: string): seq<Pair> {
    Filter(list, NameIsNot(name))
  }

  /** The first pair named `name` gets `value`; later pairs with that name
      are removed. */
  function ReplaceFirst(list: seq<Pair>, name: string, value: string): seq<Pair>
    decreases |list|
  {
    if list == [] then []
    else if list[0].0 == name then [(name, value)] + Others(list[1..], name)
    else [list[0]] + ReplaceFirst(list[1..], name, value)
  }

  /** `set(name, value)`: if the list has pairs named `name`, the first one
      takes `value` and the others are removed; otherwise the pair is
      appended. */
  function SetParam(list: seq<Pair>, name: string, value: string): seq<Pair> {
    if Get(list, name).Some? then ReplaceFirst(list, name, value)
    else list + [(name, value)]
  }

  /** After `set(name, value)`, `get(name)` returns `value`. */
  lemma {:induction false} GetAfterSet(list: seq<Pair>, name: string, value: string)
    ensures Get(SetParam(list, name, value), name) == Some(value)
  {
    if Get(list, name).Some? {
      GetReplaceFirst(list, name, value);
    } else {
      GetAppend(list, (name, value), name);
    }
  }

  lemma {:induction false} GetReplaceFirst(list: seq<Pair>, name: string, value: string)
    requires Get(list, name).Some?
    ensures Get(ReplaceFirst(list, name, value), name) == Some(value)
    decreases |list|
  {
    if list[0].0 != name {
      GetReplaceFirst(list[1..], name, value);
    }
  }

  lemma {:induction false} GetAppend(list: seq<Pair>, pair: Pair, name: string)
    requires Get(list, name).None?
    ensures Get(list + [pair], name) == if pair.0 == name then Some(pair.1) else None
    decreases |list|
  {
    if list != [] {
      assert (list + [pair])[1..] == list[1..] + [pair];
      GetAppend(list[1..], pair, name);
    }
  }

  /** `set` leaves every pair with another name in place: the other pairs
      are the same, in the same order. */
  lemma {:induction false} SetKeepsOthers(list: seq<Pair>, name: string, value: string)
    ensures Others(SetParam(list, name, value), name) == Others(list, name)
  {
    if Get(list, name).Some? {
      ReplaceFirstKeepsOthers(list, name, value);
    } else {
      FilterAppend(list, [(name, value)], NameIsNot(name));
    }
  }

  lemma {:induction false} ReplaceFirstKeepsOthers(list: seq<Pair>, name: string, value: string)
    ensures Others(ReplaceFirst(list, name, value), name) == Others(list, name)
    decreases |list|
  {
    if list != [] {
      if list[0].0 == name {
        OthersIdempotent(list[1..], name);
      } else {
        ReplaceFirstKeepsOthers(list[1..], name, value);
      }
    }
  }

  lemma {:induction false} OthersIdempotent(list: seq<Pair>, name: string)
    ensures Others(Others(list, name), name) == Others(list, name)
  {
    var r := Others(list, name);
    FilterKeepsAll(r, NameIsNot(name));
  }

  /** After `set`, exactly one pair carries the name. */
  lemma {:induction false} SetLeavesOnePair(list: seq<Pair>, name: string, value: string)
    ensures |SetParam(list, name, value)| == |Others(list, name)| + 1
  {
    if Get(list, name).Some? {
      ReplaceFirstLength(list, name, value);
    } else {
      FilterKeepsAll(list, NameIsNot(name));
    }
  }

  lemma {:induction false} ReplaceFirstLength(list: seq<Pair>, name: string, value: string)
    requires Get(list, name).Some?
    ensures |ReplaceFirst(list, name, value)| == |Others(list, name)| + 1
    decreases |list|
  {
    if list[0].0 != name {
      ReplaceFirstLength(list[1..], name, value);
    }
  }

  /** After `delete(name)`, `get(name)` returns null and `get` of every other
      name reads what it read before. */
  lemma DeleteRemovesName(list: seq<Pair>, name: string)
    ensures Get(Others(list, name), name).None?
    ensures forall other :: other != name ==> Get(Others(list, name), other) == Get(list, other)
  {
    forall other | other != name
      ensures Get(Others(list, name), other) == Get(list, other)
    {
      GetOtherName(list, name, other);
    }
  }

  /** Reading another name is unaffected by `set` or `delete`. */
  lemma {:induction false} GetOtherName(list: seq<Pair>, name: string, other: string)
    requires other != name
    ensures Get(Others(list, name), other) == Get(list, other)
    decreases |list|
  {
    if list != [] {
      GetOtherName(list[1..], name, other);
    }
  }

  /** The mutable object a component copies from the current URL and edits. */
  class URLSearchParams {
    var list: seq<Pair>

    constructor (init: seq<Pair>)
      ensures list == init
    {
      list := init;
    }

    method Set(name: string, value: string)
      modifies this
      ensures list == SetParam(old(list), name, value)
      ensures Get(list, name) == Some(value)
      ensures Others(list, name) == Others(old(list), name)
    {
      GetAfterSet(list, name, value);
      SetKeepsOthers(list, name, value);
      list := SetParam(list, name, value);
    }

    method Delete(name: string)
      modifies this
      ensures list == Others(old(list), name)
      ensures Get(list, name).None?
      ensures Others(list, name) == Others(old(list), name)
    {
      DeleteRemovesName(list, name);
      OthersIdempotent(list, name);
      list := Others(list, name);
    }
  }

  /** `searchParams.get(name) || fallback`: an absent or empty value gives the
      fallback. */
  function GetOr(list: seq<Pair>, name: string, fallback: string): (r: string)
    ensures Get(list, name).Some? && Get(list, name).value != "" ==> r == Get(list, name).value
    ensures Get(list, name).None? || Get(list, name).value == "" ==> r == fallback
  {
    match Get(list, name)
    case Some(v) => if v != "" then v else fallback
    case None => fallback
  }

  /** `searchParams.get(name) || undefined`. */
  function NonEmpty(list: seq<Pair>, name: string): (r: Option<string>)
    ensures r.Some? <==> Get(list, name).Some? && Get(list, name).value != ""
    ensures r.Some? ==> r == Get(list, name)
  {
    match Get(list, name)
    case Some(v) => if v != "" then Some(v) else None
    case None => None
  }
}
