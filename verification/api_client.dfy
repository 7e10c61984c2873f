/** frontend/src/lib/api.ts: the query string `getPolicies` builds, the choice of
    response schema, the error `apiCall` raises on a non-OK status, and the
    category list `getCategories` derives from the fetched policies. */
module ApiClient {
  import opened Wrappers
  import opened Strings
  import opened PolicyTypes
  import opened UrlParams
  import opened ClientSchemas

  // ---------------------------------------------------------------------------
  // getPolicies: the query string

  predicate TermGiven(f: PolicyFilters) {
    f.term.Some? && f.term.value != ""
  }

  predicate PageGiven(f: PolicyFilters) {
    f.page.Some? && f.page.value != 0
  }

  predicate SizeGiven(f: PolicyFilters) {
    f.pageSize.Some? && f.pageSize.value != 0
  }

  /** `if (filters.term) params.append('term', …)` and so on: each field that is
      truthy, in the order term, page, page_size. */
  method QueryParams(f: PolicyFilters) returns (ps: seq<Param>)
    ensures Keys(ps) == (if TermGiven(f) then ["term"] else []) + (if PageGiven(f) then ["page"] else [])
                        + (if SizeGiven(f) then ["page_size"] else [])
    ensures forall i :: 0 <= i < |ps| && ps[i].key == "term" ==> ps[i].value == f.term.value
    ensures forall i :: 0 <= i < |ps| && ps[i].key == "page" ==> ps[i].value == IntToString(f.page.value)
    ensures forall i :: 0 <= i < |ps| && ps[i].key == "page_size" ==> ps[i].value == IntToString(f.pageSize.value)
  {
    ps := [];
    if TermGiven(f) {
      ps := ps + [Param("term", f.term.value)];
    }
    if PageGiven(f) {
      ps := ps + [Param("page", IntToString(f.page.value))];
    }
    if SizeGiven(f) {
      ps := ps + [Param("page_size", IntToString(f.pageSize.value))];
    }
  }

  /** `/policies${queryString ? `?${queryString}` : ''}` */
  function Endpoint(ps: seq<Param>, encode: string -> string): (e: string)
    ensures e == "/policies" <==> ps == []
    ensures ps != [] ==> e == "/policies?" + Serialize(ps, encode)
  {
    WithQuery("/policies", "/policies", ps, encode)
  }

  /** With no truthy filter the request goes to the bare `/policies`. */
  lemma BareEndpoint(f: PolicyFilters, ps: seq<Param>, encode: string -> string)
    requires Keys(ps) == (if TermGiven(f) then ["term"] else []) + (if PageGiven(f) then ["page"] else [])
                         + (if SizeGiven(f) then ["page_size"] else [])
    ensures Endpoint(ps, encode) == "/policies" <==> !TermGiven(f) && !PageGiven(f) && !SizeGiven(f)
  {
    if TermGiven(f) || PageGiven(f) || SizeGiven(f) {
      assert |Keys(ps)| > 0;
    }
  }

  /** Which schema validates the response: the search schema exactly when the
      body has a `pagination` key. */
  datatype ResponseSchema = SearchResponse | ListResponse

  function SchemaFor(keys: set<string>): (s: ResponseSchema)
    ensures s == SearchResponse <==> "pagination" in keys
  {
    if "pagination" in keys then SearchResponse else ListResponse
  }

  // ---------------------------------------------------------------------------
  // apiCall

  /** `response.ok`: a status in 200..299. */
  predicate Ok(status: int) {
    200 <= status <= 299
  }

  function ApiErrorMessage(status: int, body: string): (m: string)
    ensures |m| > 10 && m[..10] == "API Error "
  {
    var m := "API Error " + IntToString(status) + ": " + body;
    assert m[..10] == "API Error ";
    m
  }

  /** `apiCall`: the body of an OK response, otherwise the thrown `Error`. */
  function ApiCall(status: int, body: string): (r: Result<string, Thrown>)
    ensures r.Success? <==> Ok(status)
    ensures r.Success? ==> r.value == body
    ensures r.Failure? ==> r.error == Error(ApiErrorMessage(status, body))
  {
    if Ok(status) then Success(body) else Failure(Error(ApiErrorMessage(status, body)))
  }

  // ---------------------------------------------------------------------------
  // getCategories

  predicate StrictlySorted(s: seq<string>) {
    forall i, j :: 0 <= i < j < |s| ==> LexLess(s[i], s[j])
  }

  /** Places `x` into a strictly sorted list, once. */
  function Insert(x: string, s: seq<string>): (r: seq<string>)
    requires StrictlySorted(s)
    ensures StrictlySorted(r)
    ensures forall c :: c in r <==> c == x || c in s
    decreases |s|
  {
    if s == [] then [x]
    else if x == s[0] then s
    else if LexLess(x, s[0]) then
      forall j | 0 <= j < |s| ensures LexLess(x, s[j]) {
        if j > 0 { LexLessTransitive(x, s[0], s[j]); }
      }
      [x] + s
    else
      LexLessTotal(x, s[0]);
      var t := Insert(x, s[1..]);
      assert forall c :: c in t ==> LexLess(s[0], c) by {
        forall c | c in t ensures LexLess(s[0], c) {
          if c != x {
            var j :| 0 <= j < |s[1..]| && s[1..][j] == c;
            assert s[j + 1] == c;
          }
        }
      }
      [s[0]] + t
  }

  /** `Array.from(new Set(categories)).sort()`: the distinct categories in
      ascending order. */
  function DistinctSorted(categories: seq<string>): (r: seq<string>)
    ensures StrictlySorted(r)
    ensures forall c :: c in r <==> c in categories
  {
    if categories == [] then []
    else
      var r := Insert(categories[|categories| - 1], DistinctSorted(categories[..|categories| - 1]));
      assert forall c :: c in categories <==> c in categories[..|categories| - 1] || c == categories[|categories| - 1] by {
        assert categories == categories[..|categories| - 1] + [categories[|categories| - 1]];
      }
      r
  }

  /** A strictly sorted list holds no value twice. */
  lemma SortedHasNoDuplicates(s: seq<string>)
    requires StrictlySorted(s)
    ensures forall i, j :: 0 <= i < j < |s| ==> s[i] != s[j]
  {
    forall i, j | 0 <= i < j < |s|
      ensures s[i] != s[j]
    {
      LexLessIrreflexive(s[i]);
    }
  }

  /** The order in which the set yields the categories does not matter: two
      strictly sorted lists with the same elements are equal. */
  lemma {:induction false} SortedUnique(a: seq<string>, b: seq<string>)
    requires StrictlySorted(a) && StrictlySorted(b)
    requires forall c :: c in a <==> c in b
    ensures a == b
    decreases |a|
  {
    if a != [] {
      assert a[0] in b;
    }
    if b != [] {
      assert b[0] in a;
    }
    if a != [] {
      if a[0] != b[0] {
        var j :| 0 <= j < |b| && b[j] == a[0];
        var i :| 0 <= i < |a| && a[i] == b[0];
        assert LexLess(b[0], a[0]) by {
          if j == 0 { } else { }
        }
        assert LexLess(a[0], b[0]) by {
          if i == 0 { } else { }
        }
        LexLessTransitive(a[0], b[0], a[0]);
        LexLessIrreflexive(a[0]);
      } else {
        forall c ensures c in a[1..] <==> c in b[1..] {
          if c in a[1..] {
            var i :| 0 <= i < |a[1..]| && a[1..][i] == c;
            assert LexLess(a[0], c);
            LexLessIrreflexive(c);
            assert c in b;
          }
          if c in b[1..] {
            var i :| 0 <= i < |b[1..]| && b[1..][i] == c;
            assert LexLess(b[0], c);
            LexLessIrreflexive(c);
            assert c in a;
          }
        }
        SortedUnique(a[1..], b[1..]);
        assert a == [a[0]] + a[1..] && b == [b[0]] + b[1..];
      }
    }
  }
}
