/** Parsed JSON (and YAML) documents as the Python values the scanner
    handles: `None`, booleans, numbers, strings, lists and dicts. A dict is
    the list of its items in insertion order; a parser never produces two
    items with the same key. */
module PyJson {
  import opened PyText

  datatype Json =
    | JNull
    | JBool(b: bool)
    | JNum(n: int)
    | JStr(s: string)
    | JArr(items: seq<Json>)
    | JObj(fields: seq<(string, Json)>)

  datatype Option<T> = None | Some(value: T)

  /** `key in d` for a dict's items */
  predicate HasKey(fields: seq<(string, Json)>, key: string) {
    exists i :: 0 <= i < |fields| && fields[i].0 == key
  }

  /** `d.get(key)`: the value of the first item with that key. */
  function Lookup(fields: seq<(string, Json)>, key: string): (r: Option<Json>)
    ensures r.Some? <==> HasKey(fields, key)
    ensures r.Some? ==> exists i :: 0 <= i < |fields| && fields[i] == (key, r.value)
  {
    if fields == [] then None
    else if fields[0].0 == key then Some(fields[0].1)
    else
      var r := Lookup(fields[1..], key);
      assert r.Some? ==> exists i :: 0 <= i < |fields[1..]| && fields[1..][i] == (key, r.value);
      assert HasKey(fields[1..], key) ==> HasKey(fields, key) by {
        if HasKey(fields[1..], key) {
          var i :| 0 <= i < |fields[1..]| && fields[1..][i].0 == key;
          assert fields[i + 1].0 == key;
        }
      }
      r
  }

  /** A value found in a dict is a proper part of it. */
  lemma LookupSmaller(fields: seq<(string, Json)>, key: string)
    requires HasKey(fields, key)
    ensures Lookup(fields, key).value < JObj(fields)
  {
    var i :| 0 <= i < |fields| && fields[i] == (key, Lookup(fields, key).value);
    assert fields[i] in fields;
  }

  /** `d.get(key, default)` */
  function GetOr(fields: seq<(string, Json)>, key: string, default: Json): Json {
    match Lookup(fields, key)
    case Some(v) => v
    case None => default
  }

  /** Python truthiness of a value (`if x:`). */
  predicate Truthy(j: Json) {
    match j
    case JNull => false
    case JBool(b) => b
    case JNum(n) => n != 0
    case JStr(s) => s != []
    case JArr(items) => items != []
    case JObj(fields) => fields != []
  }

  function Keys(fields: seq<(string, Json)>): (r: seq<Json>)
    ensures |r| == |fields|
    ensures forall i :: 0 <= i < |fields| ==> r[i] == JStr(fields[i].0)
  {
    if fields == [] then [] else [JStr(fields[0].0)] + Keys(fields[1..])
  }

  function Chars(s: string): (r: seq<Json>)
    ensures |r| == |s|
    ensures forall i :: 0 <= i < |s| ==> r[i] == JStr([s[i]])
  {
    if s == [] then [] else [JStr([s[0]])] + Chars(s[1..])
  }

  /** What `for x in v` iterates over: a list's items, a dict's keys, a
      string's characters; `None` when iterating raises `TypeError`. */
  function Iterate(j: Json): Option<seq<Json>> {
    match j
    case JArr(items) => Some(items)
    case JObj(fields) => Some(Keys(fields))
    case JStr(s) => Some(Chars(s))
    case _ => None
  }

  /** `key in v` for a string `key`: a dict's keys, a list's items, a
      string's substrings; `None` when the test raises `TypeError`. */
  function Membership(j: Json, key: string): Option<bool> {
    match j
    case JObj(fields) => Some(HasKey(fields, key))
    case JArr(items) => Some(JStr(key) in items)
    case JStr(s) => Some(Contains(s, key))
    case _ => None
  }

  /** `v[key]` for a string `key` known to be in `v`: only a dict can be
      indexed by a string; `None` when indexing raises. */
  function Index(j: Json, key: string): Option<Json> {
    match j
    case JObj(fields) => Lookup(fields, key)
    case _ => None
  }

  /** `"".join(v)` for a list: `None` when an item is not a string. */
  function JoinStrings(items: seq<Json>): (r: Option<string>)
    ensures r.Some? <==> forall i :: 0 <= i < |items| ==> items[i].JStr?
  {
    if items == [] then Some("")
    else if !items[0].JStr? then None
    else match JoinStrings(items[1..])
      case None => None
      case Some(rest) => Some(items[0].s + rest)
  }

  /** A list of strings as a JSON list. */
  function Strs(strs: seq<string>): (r: seq<Json>)
    ensures |r| == |strs|
    ensures forall i :: 0 <= i < |strs| ==> r[i] == JStr(strs[i])
  {
    seq(|strs|, i requires 0 <= i < |strs| => JStr(strs[i]))
  }

  /** For a list of strings, `"".join(v)` is their plain concatenation. */
  lemma {:induction false} JoinStringsConcat(strs: seq<string>)
    ensures JoinStrings(Strs(strs)) == Some(Concat(strs))
    decreases |strs|
  {
    if strs != [] {
      var items := Strs(strs);
      assert items[1..] == Strs(strs[1..]);
      JoinStringsConcat(strs[1..]);
      assert strs[0] + "" == strs[0];
      if |strs| > 1 {
        JoinCons("", strs[0], strs[1..]);
        assert [strs[0]] + strs[1..] == strs;
      }
    }
  }
}
