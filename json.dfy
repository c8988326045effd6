/** Decoded JSON values, as Python's `json` module hands them to the program. Decoding itself is
    not modelled: `json.loads` and `json.load` are a `Decoder` parameter, where `None` stands for
    a raised `JSONDecodeError`. */
module Json {
  import opened Wrappers

  datatype Json =
    | JNull
    | JBool(b: bool)
    | JNumber(n: real)
    | JString(s: string)
    | JArray(items: seq<Json>)
    | JObject(members: seq<(string, Json)>)

  /** A value `json.loads` can return. An object decodes to a `dict`, so its members have
      distinct names: of repeated names in the text the dict keeps one, with the value that
      comes last. */
  ghost predicate Loaded(j: Json) {
    match j
    case JArray(items) => forall i :: 0 <= i < |items| ==> Loaded(items[i])
    case JObject(members) => DistinctNames(members) && forall i :: 0 <= i < |members| ==> Loaded(members[i].1)
    case _ => true
  }

  /** `json.loads`: `None` where it raises, a value it can return otherwise. */
  type Decoder = f: string -> Option<Json> | forall s :: f(s).Some? ==> Loaded(f(s).value)
    witness (s: string) => None

  /** Python truthiness of a decoded value (`if value:`). */
  predicate Truthy(j: Json) {
    match j
    case JNull => false
    case JBool(b) => b
    case JNumber(n) => n != 0.0
    case JString(s) => s != []
    case JArray(items) => items != []
    case JObject(members) => members != []
  }

  /** The value of `key` in an object's members; a later duplicate wins, as with a dict. */
  function Get(members: seq<(string, Json)>, key: string): (r: Option<Json>)
    ensures r.None? <==> forall i :: 0 <= i < |members| ==> members[i].0 != key
    ensures r.Some? ==>
      exists i :: (0 <= i < |members| && members[i] == (key, r.value)
                   && forall j :: i < j < |members| ==> members[j].0 != key)
  {
    if members == [] then None
    else if members[|members| - 1].0 == key then Some(members[|members| - 1].1)
    else
      var r := Get(members[..|members| - 1], key);
      r
  }

  /** No name occurs twice (as with the keys of a dict, or the members `inspect.getmembers`
      lists). */
  ghost predicate DistinctNames<T>(xs: seq<(string, T)>) {
    forall i, j :: 0 <= i < j < |xs| ==> xs[i].0 != xs[j].0
  }

  /** The set of names in a list of pairs. */
  ghost function NameSet<T>(xs: seq<(string, T)>): set<string> {
    set i | 0 <= i < |xs| :: xs[i].0
  }

  /** A Python `list` of `str`, as a JSON array. */
  function FromStrings(xs: seq<string>): (r: seq<Json>)
    ensures |r| == |xs|
    ensures forall i :: 0 <= i < |xs| ==> r[i] == JString(xs[i])
  {
    if xs == [] then [] else [JString(xs[0])] + FromStrings(xs[1..])
  }

  /** The strings of an array whose items are all strings (`List[str]` validation). */
  function AsStrings(items: seq<Json>): (r: Option<seq<string>>)
    ensures r.Some? <==> forall i :: 0 <= i < |items| ==> items[i].JString?
    ensures r.Some? ==> |r.value| == |items| && forall i :: 0 <= i < |items| ==> items[i] == JString(r.value[i])
  {
    if items == [] then Some([])
    else if !items[0].JString? then None
    else
      match AsStrings(items[1..])
      case None => None
      case Some(rest) => Some([items[0].s] + rest)
  }

  /** Reading back a list of strings gives the same strings. */
  lemma {:induction false} StringsRoundTrip(xs: seq<string>)
    ensures AsStrings(FromStrings(xs)) == Some(xs)
  {
    if xs != [] {
      StringsRoundTrip(xs[1..]);
      assert FromStrings(xs)[1..] == FromStrings(xs[1..]);
      assert [xs[0]] + xs[1..] == xs;
    }
  }
}
