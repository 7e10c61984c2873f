/** The part of `URLSearchParams` the client uses: an ordered list of key/value
    pairs and its `toString()`. The form encoding of a key or value is a
    parameter. */
module UrlParams {
  import opened Strings

  datatype Param = Param(key: string, value: string)

  function Keys(ps: seq<Param>): (keys: seq<string>)
    ensures |keys| == |ps|
    ensures forall i :: 0 <= i < |ps| ==> keys[i] == ps[i].key
  {
    seq(|ps|, i requires 0 <= i < |ps| => ps[i].key)
  }

  /** `params.toString()`: `key=value` pairs joined by `&`. */
  function Serialize(ps: seq<Param>, encode: string -> string): (q: string)
    ensures q == "" <==> ps == []
  {
    var parts := seq(|ps|, i requires 0 <= i < |ps| => encode(ps[i].key) + "=" + encode(ps[i].value));
    if ps == [] then ""
    else
      JoinStartsWithFirst(parts, "&");
      Join(parts, "&")
  }

  /** An address built from a path and the query string: `path?query` when the
      query is not empty, `whenEmpty` otherwise. */
  function WithQuery(path: string, whenEmpty: string, ps: seq<Param>, encode: string -> string): (url: string)
    requires |whenEmpty| <= |path| + 1
    ensures url == whenEmpty <==> ps == []
    ensures ps != [] ==> url == path + "?" + Serialize(ps, encode)
  {
    var q := Serialize(ps, encode);
    if q != "" then path + "?" + q else whenEmpty
  }

  lemma JoinStartsWithFirst(parts: seq<string>, sep: string)
    requires parts != []
    ensures |Join(parts, sep)| >= |parts[0]|
  {
  }
}
