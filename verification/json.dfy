/** The Python values that `json.loads` produces, and the three things the relay does
    with them: subscript by a string key (`message_json["events"]`), iterate
    (`for event in events`) and render with `str(event)`. */
module Json {
  import opened Wrappers

  /** A decoded JSON document. An object keeps its members in document order, duplicates
      included, exactly as the parser reads them; the Python dict built from them is
      recovered by `LastValue` (a later duplicate overrides the value) and `Keys` (a key
      keeps the position of its first occurrence). A number carries the text Python's
      `str` renders it as. */
  datatype Json =
    | JNull
    | JBool(b: bool)
    | JNumber(text: string)
    | JString(s: string)
    | JArray(items: seq<Json>)
    | JObject(members: seq<(string, Json)>)

  /** The value a dict built from `members` holds under `key`: the last member so named. */
  function LastValue(members: seq<(string, Json)>, key: string): (r: Option<Json>)
    ensures r.None? <==> forall i :: 0 <= i < |members| ==> members[i].0 != key
    ensures r.Some? ==>
      exists i :: 0 <= i < |members| && members[i] == (key, r.value) &&
        forall j :: i < j < |members| ==> members[j].0 != key
  {
    if |members| == 0 then None
    else if members[|members| - 1].0 == key then Some(members[|members| - 1].1)
    else LastValue(members[..|members| - 1], key)
  }

  /** `doc[key]` for a string key: only a dict holding the key answers; a list, a string,
      a number, a boolean or None raises (TypeError), and so does a missing key (KeyError). */
  function Subscript(doc: Json, key: string): (r: Option<Json>)
    ensures r.Some? <==> doc.JObject? && exists i :: 0 <= i < |doc.members| && doc.members[i].0 == key
  {
    match doc
    case JObject(members) => LastValue(members, key)
    case _ => None
  }

  /** When `doc[key]` answers, it answers with the value of the last member named `key`:
      a later duplicate key overrides an earlier one. */
  lemma {:induction false} SubscriptLastWins(doc: Json, key: string)
    requires Subscript(doc, key).Some?
    ensures
      exists i :: 0 <= i < |doc.members| && doc.members[i] == (key, Subscript(doc, key).value) &&
        forall j :: i < j < |doc.members| ==> doc.members[j].0 != key
  {
    assert Subscript(doc, key) == LastValue(doc.members, key);
  }

  /** The keys of the dict built from `members`, in the order iteration yields them. */
  function Keys(members: seq<(string, Json)>): (ks: seq<string>)
    ensures forall i :: 0 <= i < |members| ==> members[i].0 in ks
    ensures forall k :: k in ks ==> exists i :: 0 <= i < |members| && members[i].0 == k
    ensures forall i, j :: 0 <= i < j < |ks| ==> ks[i] != ks[j]
  {
    if |members| == 0 then []
    else
      var ks := Keys(members[..|members| - 1]);
      var k := members[|members| - 1].0;
      if k in ks then ks else ks + [k]
  }

  /** The one-character strings a Python `for` loop over a string yields. */
  function Chars(s: string): seq<Json>
  {
    seq(|s|, i requires 0 <= i < |s| => JString([s[i]]))
  }

  /** Key strings as the values a Python `for` loop over a dict yields. */
  function KeyValues(ks: seq<string>): seq<Json>
  {
    seq(|ks|, i requires 0 <= i < |ks| => JString(ks[i]))
  }

  /** `for event in v`: a list yields its items, a string its characters, a dict its
      keys; None, a boolean or a number is not iterable (TypeError). */
  function Iterate(v: Json): (r: Option<seq<Json>>)
    ensures r.None? <==> v.JNull? || v.JBool? || v.JNumber?
    ensures v.JArray? ==> r == Some(v.items)
  {
    match v
    case JArray(items) => Some(items)
    case JString(s) => Some(Chars(s))
    case JObject(members) => Some(KeyValues(Keys(members)))
    case _ => None
  }

  /** Python's `str(v)`. The rendering of a list or a dict (Python's repr formatting of
      the nested values) is supplied by `reprContainer`. */
  function PyStr(v: Json, reprContainer: Json -> string): string
  {
    match v
    case JNull => "None"
    case JBool(b) => if b then "True" else "False"
    case JNumber(text) => text
    case JString(s) => s
    case _ => reprContainer(v)
  }

  /** The concatenation of `str` over a sequence of values. */
  function JoinStr(vs: seq<Json>, reprContainer: Json -> string): string
  {
    if |vs| == 0 then "" else PyStr(vs[0], reprContainer) + JoinStr(vs[1..], reprContainer)
  }

  /** Iterating a string and rendering each item with `str` gives the string back. */
  lemma {:induction false} IterateStringRoundTrip(s: string, reprContainer: Json -> string)
    ensures Iterate(JString(s)).Some?
    ensures JoinStr(Iterate(JString(s)).value, reprContainer) == s
  {
    if |s| > 0 {
      assert Chars(s)[1..] == Chars(s[1..]);
      IterateStringRoundTrip(s[1..], reprContainer);
      assert s == [s[0]] + s[1..];
    }
  }

  /** Iterating a dict yields each of its keys exactly once, as strings, and nothing else. */
  lemma {:induction false} IterateObjectYieldsKeys(members: seq<(string, Json)>)
    ensures Iterate(JObject(members)).Some?
    ensures var xs := Iterate(JObject(members)).value;
      && (forall i :: 0 <= i < |xs| ==> xs[i].JString?)
      && (forall i, j :: 0 <= i < j < |xs| ==> xs[i] != xs[j])
      && (forall i :: 0 <= i < |members| ==> JString(members[i].0) in xs)
      && (forall x :: x in xs ==> exists i :: 0 <= i < |members| && x == JString(members[i].0))
  {
    var ks := Keys(members);
    var xs := KeyValues(ks);
    forall i | 0 <= i < |members|
      ensures JString(members[i].0) in xs
    {
      var k :| 0 <= k < |ks| && ks[k] == members[i].0;
      assert xs[k] == JString(members[i].0);
    }
    forall x | x in xs
      ensures exists i :: 0 <= i < |members| && x == JString(members[i].0)
    {
      var k :| 0 <= k < |xs| && xs[k] == x;
      assert ks[k] in ks;
    }
  }
}
