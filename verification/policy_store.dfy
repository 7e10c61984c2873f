/** backend/src/modules/policies/policies.repository.ts over an in-memory table:
    `save`, `findById`, `findAll`, `update`, `delete` and `search`. The database
    keeps identifiers and source URLs unique and stamps each write with a fresh
    time; the table below does the same with a counter and a logical clock. */
module PolicyStore {
  import opened Wrappers
  import opened Strings
  import opened PolicyTypes

  // ---------------------------------------------------------------------------
  // The table and what the database guarantees about it

  datatype Table = Table(rows: seq<Policy>, nextId: nat, clock: nat)

  predicate UniqueIds(rows: seq<Policy>) {
    forall i, j :: 0 <= i < j < |rows| ==> rows[i].id != rows[j].id
  }

  /** The `@unique` constraint on `source_url`. */
  predicate UniqueUrls(rows: seq<Policy>) {
    forall i, j :: 0 <= i < j < |rows| ==> rows[i].sourceUrl != rows[j].sourceUrl
  }

  /** Rows are kept in the order they were created, each later than the last. */
  predicate Chronological(rows: seq<Policy>) {
    forall i, j :: 0 <= i < j < |rows| ==> rows[i].createdAt < rows[j].createdAt
  }

  /** Identifiers and stamps already handed out lie below the counters. */
  predicate Below(rows: seq<Policy>, nextId: nat, clock: nat) {
    forall i :: 0 <= i < |rows| ==> rows[i].id < nextId && rows[i].createdAt < clock && rows[i].updatedAt < clock
  }

  predicate Consistent(t: Table) {
    UniqueIds(t.rows) && UniqueUrls(t.rows) && Chronological(t.rows) && Below(t.rows, t.nextId, t.clock)
  }

  /** Why Prisma refused a write; its own message text is reduced to this tag. */
  datatype DbFailure = UniqueViolation | RecordNotFound

  function FailureText(f: DbFailure): string {
    match f
    case UniqueViolation => "Unique constraint failed on the fields: (`source_url`)"
    case RecordNotFound => "Record to update not found."
  }

  const SaveError := "Erro ao salvar política: "
  const UpdateError := "Erro ao atualizar política: "
  const DeleteError := "Erro ao deletar política: "

  /** A write's new table and what the call returns or throws. */
  datatype Written<T> = Written(table: Table, outcome: Result<T, AppError>)

  /** The index of the row with `url`, or `|rows|`. */
  function UrlIndex(rows: seq<Policy>, url: string): (k: nat)
    ensures k <= |rows|
    ensures k < |rows| ==> rows[k].sourceUrl == url
    ensures forall j :: 0 <= j < k ==> rows[j].sourceUrl != url
  {
    if rows == [] then 0
    else if rows[0].sourceUrl == url then 0
    else 1 + UrlIndex(rows[1..], url)
  }

  /** The index of the row with `id`, or `|rows|`. */
  function IdIndex(rows: seq<Policy>, id: nat): (k: nat)
    ensures k <= |rows|
    ensures k < |rows| ==> rows[k].id == id
    ensures forall j :: 0 <= j < k ==> rows[j].id != id
  {
    if rows == [] then 0
    else if rows[0].id == id then 0
    else 1 + IdIndex(rows[1..], id)
  }

  // ---------------------------------------------------------------------------
  // save

  /** `save`: stores title, content, source URL and category (the capture method
      is dropped), or fails with 500 when the source URL is already stored. */
  function SaveSpec(t: Table, input: PolicyInput): (w: Written<Policy>)
    ensures UrlIndex(t.rows, input.sourceUrl) < |t.rows| ==>
      w.table == t && w.outcome.Failure? && w.outcome.error.status == 500
    ensures UrlIndex(t.rows, input.sourceUrl) == |t.rows| ==>
      w.outcome.Success? && w.table.rows == t.rows + [w.outcome.value]
  {
    if UrlIndex(t.rows, input.sourceUrl) < |t.rows| then
      Written(t, Failure(AppError(SaveError + FailureText(UniqueViolation), 500)))
    else
      var p := Policy(t.nextId, input.title, input.sourceUrl, input.content, input.category, t.clock, t.clock, None);
      Written(Table(t.rows + [p], t.nextId + 1, t.clock + 1), Success(p))
  }

  /** A stored record carries the input's fields, no capture method, a new
      identifier, and is found by that identifier afterwards. */
  lemma SaveStores(t: Table, input: PolicyInput)
    requires Consistent(t) && UrlIndex(t.rows, input.sourceUrl) == |t.rows|
    ensures var w := SaveSpec(t, input);
      w.outcome.Success?
      && w.outcome.value.title == input.title && w.outcome.value.content == input.content
      && w.outcome.value.sourceUrl == input.sourceUrl && w.outcome.value.category == input.category
      && w.outcome.value.capture == None
      && IdIndex(t.rows, w.outcome.value.id) == |t.rows|
      && Find(w.table.rows, w.outcome.value.id) == Some(w.outcome.value)
  {
    var w := SaveSpec(t, input);
    IdIndexAppend(t.rows, w.outcome.value);
  }

  lemma {:induction false} IdIndexAppend(rows: seq<Policy>, p: Policy)
    requires IdIndex(rows, p.id) == |rows|
    ensures IdIndex(rows + [p], p.id) == |rows|
  {
    if rows != [] {
      assert (rows + [p])[1..] == rows[1..] + [p];
      IdIndexAppend(rows[1..], p);
    }
  }

  lemma SaveKeepsConsistent(t: Table, input: PolicyInput)
    requires Consistent(t)
    ensures Consistent(SaveSpec(t, input).table)
  {
  }

  // ---------------------------------------------------------------------------
  // findById, findAll

  /** `findById`: the row with that identifier, or none. */
  function Find(rows: seq<Policy>, id: nat): (r: Option<Policy>)
    ensures r.Some? ==> r.value in rows && r.value.id == id
    ensures r.None? ==> forall j :: 0 <= j < |rows| ==> rows[j].id != id
  {
    var k := IdIndex(rows, id);
    if k < |rows| then Some(rows[k]) else None
  }

  /** With unique identifiers, a row is found by its own identifier. */
  lemma FindEach(rows: seq<Policy>, i: nat)
    requires UniqueIds(rows) && i < |rows|
    ensures Find(rows, rows[i].id) == Some(rows[i])
  {
  }

  // ---------------------------------------------------------------------------
  // update

  /** `Partial<IPolicy>`: the fields an update supplies. */
  datatype PolicyPatch = PolicyPatch(
    title: Option<string>, sourceUrl: Option<string>, content: Option<string>,
    category: Option<string>, capture: Option<Method>)

  /** The row with the supplied fields replaced, stamped `now`. */
  function Patched(p: Policy, patch: PolicyPatch, now: nat): (q: Policy)
    ensures q.id == p.id && q.createdAt == p.createdAt && q.updatedAt == now
    ensures patch.title.None? ==> q.title == p.title
    ensures patch.sourceUrl.None? ==> q.sourceUrl == p.sourceUrl
    ensures patch.content.None? ==> q.content == p.content
    ensures patch.category.None? ==> q.category == p.category
    ensures patch.capture.None? ==> q.capture == p.capture
    ensures patch.title.Some? ==> q.title == patch.title.value
    ensures patch.sourceUrl.Some? ==> q.sourceUrl == patch.sourceUrl.value
    ensures patch.content.Some? ==> q.content == patch.content.value
    ensures patch.category.Some? ==> q.category == patch.category.value
    ensures patch.capture.Some? ==> q.capture == patch.capture
  {
    Policy(p.id, patch.title.GetOr(p.title), patch.sourceUrl.GetOr(p.sourceUrl),
           patch.content.GetOr(p.content), patch.category.GetOr(p.category),
           p.createdAt, now, if patch.capture.Some? then patch.capture else p.capture)
  }

  /** Another row than `k` already holds `url`. */
  predicate UrlTakenElsewhere(rows: seq<Policy>, k: nat, url: string) {
    exists j :: 0 <= j < |rows| && j != k && rows[j].sourceUrl == url
  }

  /** `update`: a missing identifier or a source URL held by another row fails
      with 500 and leaves the table alone; otherwise only that row changes. */
  function UpdateSpec(t: Table, id: nat, patch: PolicyPatch): (w: Written<Policy>)
    ensures IdIndex(t.rows, id) == |t.rows| ==> w.table == t && w.outcome.Failure? && w.outcome.error.status == 500
    ensures w.outcome.Failure? ==> w.table == t && w.outcome.error.status == 500
    ensures var k := IdIndex(t.rows, id);
      k < |t.rows| && patch.sourceUrl.Some? && UrlTakenElsewhere(t.rows, k, patch.sourceUrl.value) ==>
        w.outcome.Failure? && w.table == t
    ensures var k := IdIndex(t.rows, id);
      k < |t.rows| && !(patch.sourceUrl.Some? && UrlTakenElsewhere(t.rows, k, patch.sourceUrl.value)) ==>
        w.outcome.Success?
    ensures w.outcome.Success? ==>
      var k := IdIndex(t.rows, id);
      k < |t.rows| && w.outcome.value == Patched(t.rows[k], patch, t.clock)
      && w.table == Table(t.rows[k := w.outcome.value], t.nextId, t.clock + 1)
  {
    var k := IdIndex(t.rows, id);
    if k == |t.rows| then
      Written(t, Failure(AppError(UpdateError + FailureText(RecordNotFound), 500)))
    else if patch.sourceUrl.Some? && UrlTakenElsewhere(t.rows, k, patch.sourceUrl.value) then
      Written(t, Failure(AppError(UpdateError + FailureText(UniqueViolation), 500)))
    else
      var q := Patched(t.rows[k], patch, t.clock);
      Written(Table(t.rows[k := q], t.nextId, t.clock + 1), Success(q))
  }

  lemma UpdateKeepsConsistent(t: Table, id: nat, patch: PolicyPatch)
    requires Consistent(t)
    ensures Consistent(UpdateSpec(t, id, patch).table)
  {
    var w := UpdateSpec(t, id, patch);
    if w.outcome.Success? {
      var k := IdIndex(t.rows, id);
      var rows := w.table.rows;
      forall i, j | 0 <= i < j < |rows|
        ensures rows[i].sourceUrl != rows[j].sourceUrl
      {
        if i == k {
          assert !UrlTakenElsewhere(t.rows, k, rows[i].sourceUrl) || patch.sourceUrl.None?;
          if patch.sourceUrl.Some? {
            assert t.rows[j].sourceUrl == rows[j].sourceUrl;
          }
        } else if j == k {
          if patch.sourceUrl.Some? {
            assert t.rows[i].sourceUrl == rows[i].sourceUrl;
          }
        }
      }
    }
  }

  // ---------------------------------------------------------------------------
  // delete

  /** `delete`: a missing identifier fails with 500; otherwise exactly that row
      is removed and the call returns true. */
  function DeleteSpec(t: Table, id: nat): (w: Written<bool>)
    ensures IdIndex(t.rows, id) == |t.rows| ==> w.table == t && w.outcome.Failure? && w.outcome.error.status == 500
    ensures IdIndex(t.rows, id) < |t.rows| ==> w.outcome == Success(true) && |w.table.rows| == |t.rows| - 1
  {
    var k := IdIndex(t.rows, id);
    if k == |t.rows| then
      Written(t, Failure(AppError(DeleteError + FailureText(RecordNotFound), 500)))
    else
      Written(Table(t.rows[..k] + t.rows[k + 1..], t.nextId, t.clock), Success(true))
  }

  /** After a delete the identifier is gone and every other row is still there. */
  lemma DeleteRemovesExactly(t: Table, id: nat)
    requires Consistent(t) && IdIndex(t.rows, id) < |t.rows|
    ensures Find(DeleteSpec(t, id).table.rows, id) == None
    ensures forall p :: p in DeleteSpec(t, id).table.rows <==> p in t.rows && p.id != id
  {
    var k := IdIndex(t.rows, id);
    var rows := DeleteSpec(t, id).table.rows;
    assert rows == t.rows[..k] + t.rows[k + 1..];
    forall j | 0 <= j < |rows|
      ensures rows[j].id != id
    {
      if j < k {
        assert rows[j] == t.rows[j];
      } else {
        assert rows[j] == t.rows[j + 1];
      }
    }
    forall p | p in t.rows && p.id != id
      ensures p in rows
    {
      var i :| 0 <= i < |t.rows| && t.rows[i] == p;
      if i < k {
        assert rows[i] == p;
      } else {
        assert rows[i - 1] == p;
      }
    }
  }

  lemma DeleteKeepsConsistent(t: Table, id: nat)
    requires Consistent(t)
    ensures Consistent(DeleteSpec(t, id).table)
  {
    var k := IdIndex(t.rows, id);
    if k < |t.rows| {
      var rows := DeleteSpec(t, id).table.rows;
      assert rows == t.rows[..k] + t.rows[k + 1..];
      forall i, j | 0 <= i < j < |rows|
        ensures rows[i].id != rows[j].id && rows[i].sourceUrl != rows[j].sourceUrl
        ensures rows[i].createdAt < rows[j].createdAt
      {
        var i' := if i < k then i else i + 1;
        var j' := if j < k then j else j + 1;
        assert rows[i] == t.rows[i'] && rows[j] == t.rows[j'] && i' < j';
      }
      forall j | 0 <= j < |rows|
        ensures rows[j].id < t.nextId && rows[j].createdAt < t.clock && rows[j].updatedAt < t.clock
      {
        assert rows[j] == t.rows[if j < k then j else j + 1];
      }
    }
  }

  // ---------------------------------------------------------------------------
  // search

  /** `IPolicySearchParams` */
  datatype SearchParams = SearchParams(term: Option<string>, page: Option<int>, pageSize: Option<int>)

  /** `IPolicySearchResult` */
  datatype SearchResult = SearchResult(policies: seq<Policy>, total: nat, page: int, pageSize: int, totalPages: nat)

  /** The `where` clause: no condition for an absent or empty term, otherwise the
      term as a case-insensitive substring of the title, content or category. */
  predicate Matches(p: Policy, term: Option<string>) {
    term.None? || term.value == ""
    || ContainsInsensitive(p.title, term.value)
    || ContainsInsensitive(p.content, term.value)
    || ContainsInsensitive(p.category, term.value)
  }

  /** The matching rows, oldest first. */
  function Filter(rows: seq<Policy>, term: Option<string>): (m: seq<Policy>)
    ensures |m| <= |rows|
    ensures forall p :: p in m <==> p in rows && Matches(p, term)
  {
    if rows == [] then []
    else if Matches(rows[0], term) then [rows[0]] + Filter(rows[1..], term)
    else Filter(rows[1..], term)
  }

  lemma {:induction false} FilterChronological(rows: seq<Policy>, term: Option<string>)
    requires Chronological(rows)
    ensures Chronological(Filter(rows, term))
    ensures forall i :: 0 <= i < |Filter(rows, term)| ==> rows[0].createdAt <= Filter(rows, term)[i].createdAt
  {
    if rows != [] {
      FilterChronological(rows[1..], term);
      if |rows| > 1 {
        assert rows[1..][0] == rows[1];
        assert rows[0].createdAt < rows[1].createdAt;
      }
    }
  }

  /** An absent or empty term keeps every row. */
  lemma {:induction false} FilterAll(rows: seq<Policy>, term: Option<string>)
    requires term.None? || term.value == ""
    ensures Filter(rows, term) == rows
  {
    if rows != [] {
      FilterAll(rows[1..], term);
    }
  }

  function Reverse(s: seq<Policy>): (r: seq<Policy>)
    ensures |r| == |s|
    ensures forall i :: 0 <= i < |s| ==> r[i] == s[|s| - 1 - i]
  {
    if s == [] then [] else Reverse(s[1..]) + [s[0]]
  }

  /** `orderBy: { createdAt: 'desc' }` over the matching rows. */
  function Newest(rows: seq<Policy>, term: Option<string>): seq<Policy> {
    Reverse(Filter(rows, term))
  }

  predicate NewestFirst(s: seq<Policy>) {
    forall i, j :: 0 <= i < j < |s| ==> s[i].createdAt > s[j].createdAt
  }

  /** Reversing keeps the elements and turns oldest-first into newest-first. */
  lemma ReverseOrders(m: seq<Policy>)
    requires Chronological(m)
    ensures NewestFirst(Reverse(m))
    ensures forall p :: p in Reverse(m) <==> p in m
  {
    var r := Reverse(m);
    forall p | p in r
      ensures p in m
    {
      var i :| 0 <= i < |r| && r[i] == p;
      assert m[|m| - 1 - i] == p;
    }
    forall p | p in m
      ensures p in r
    {
      var i :| 0 <= i < |m| && m[i] == p;
      assert r[|m| - 1 - i] == p;
    }
  }

  /** The ordered matches are exactly the matching rows, newest first. */
  lemma NewestIsOrdered(rows: seq<Policy>, term: Option<string>)
    requires Chronological(rows)
    ensures NewestFirst(Newest(rows, term))
    ensures forall p :: p in Newest(rows, term) <==> p in rows && Matches(p, term)
  {
    FilterChronological(rows, term);
    ReverseOrders(Filter(rows, term));
  }

  /** `Math.ceil(a / b)` for natural numbers. */
  function CeilDiv(a: nat, b: nat): (c: nat)
    requires b > 0
    ensures c * b >= a
    ensures c > 0 ==> (c - 1) * b < a
  {
    var c := (a + b - 1) / b;
    assert c * b >= a by {
      assert (a + b - 1) == c * b + (a + b - 1) % b;
    }
    c
  }

  /** `skip` and `take`: at most `size` elements of `s` from offset `skip`. */
  function Window(s: seq<Policy>, skip: nat, size: nat): (w: seq<Policy>)
    ensures |w| <= size
    ensures skip < |s| ==> |w| == if skip + size < |s| then size else |s| - skip
    ensures skip >= |s| ==> w == []
    ensures forall k :: 0 <= k < |w| ==> w[k] == s[skip + k]
  {
    if skip >= |s| then [] else s[skip..if skip + size < |s| then skip + size else |s|]
  }

  /** `search`: the page of the ordered matches at offset `(page-1)*page_size`,
      with `total` and `total_pages` over all matches. */
  function Search(rows: seq<Policy>, params: SearchParams): (r: SearchResult)
    requires params.page.GetOr(1) >= 1 && params.pageSize.GetOr(10) >= 1
    ensures r.page == params.page.GetOr(1) && r.pageSize == params.pageSize.GetOr(10)
    ensures r.total == |Filter(rows, params.term)|
    ensures |r.policies| <= r.pageSize
    ensures r.totalPages * r.pageSize >= r.total
    ensures r.totalPages > 0 ==> (r.totalPages - 1) * r.pageSize < r.total
  {
    var page := params.page.GetOr(1);
    var size := params.pageSize.GetOr(10);
    var ordered := Newest(rows, params.term);
    var skip := (page - 1) * size;
    SearchResult(Window(ordered, skip, size), |ordered|, page, size, CeilDiv(|ordered|, size))
  }

  /** The `i`-th match, newest first, is on page `i / size + 1` at position
      `i % size`: the pages cut the ordered matches in consecutive pieces. */
  lemma SearchPages(rows: seq<Policy>, term: Option<string>, size: nat, i: nat)
    requires size >= 1 && i < |Filter(rows, term)|
    ensures var r := Search(rows, SearchParams(term, Some(i / size + 1), Some(size)));
      i % size < |r.policies| && r.policies[i % size] == Newest(rows, term)[i]
  {
    var q := i / size;
    assert q * size + i % size == i && 0 <= i % size < size by {
      DivMod(i, size);
    }
    assert (q + 1 - 1) * size == q * size;
  }

  lemma DivMod(i: nat, size: nat)
    requires size >= 1
    ensures (i / size) * size + i % size == i && 0 <= i % size < size
  {
  }

  /** Every page holds matching rows only, newest first. */
  lemma SearchOrdered(rows: seq<Policy>, params: SearchParams)
    requires params.page.GetOr(1) >= 1 && params.pageSize.GetOr(10) >= 1
    requires Chronological(rows)
    ensures NewestFirst(Search(rows, params).policies)
    ensures forall p :: p in Search(rows, params).policies ==> p in rows && Matches(p, params.term)
  {
    NewestIsOrdered(rows, params.term);
    WindowOrdered(Newest(rows, params.term), (params.page.GetOr(1) - 1) * params.pageSize.GetOr(10), params.pageSize.GetOr(10));
  }

  lemma WindowOrdered(s: seq<Policy>, skip: nat, size: nat)
    requires NewestFirst(s)
    ensures NewestFirst(Window(s, skip, size))
    ensures forall p :: p in Window(s, skip, size) ==> p in s
  {
    var w := Window(s, skip, size);
    forall p | p in w
      ensures p in s
    {
      var k :| 0 <= k < |w| && w[k] == p;
      assert s[skip + k] == p;
    }
  }

  /** Three stored records and two per page make two pages, the first full. */
  lemma SearchThreeByTwo(rows: seq<Policy>)
    requires |rows| == 3
    ensures var r := Search(rows, SearchParams(Some(""), Some(1), Some(2)));
      r.total == 3 && r.totalPages == 2 && |r.policies| == 2 && r.page == 1 && r.pageSize == 2
  {
    FilterAll(rows, Some(""));
  }

  // ---------------------------------------------------------------------------
  // The repository object

  class PoliciesRepository {
    var rows: seq<Policy>
    var nextId: nat
    var clock: nat

    function Contents(): Table
      reads this
    {
      Table(rows, nextId, clock)
    }

    ghost predicate Valid()
      reads this
    {
      Consistent(Contents())
    }

    constructor()
      ensures Valid() && rows == []
    {
      rows := [];
      nextId := 0;
      clock := 0;
    }

    method Save(input: PolicyInput) returns (r: Result<Policy, AppError>)
      requires Valid()
      modifies this
      ensures Valid()
      ensures Written(Contents(), r) == SaveSpec(old(Contents()), input)
    {
      if UrlIndex(rows, input.sourceUrl) < |rows| {
        return Failure(AppError(SaveError + FailureText(UniqueViolation), 500));
      }
      var p := Policy(nextId, input.title, input.sourceUrl, input.content, input.category, clock, clock, None);
      SaveKeepsConsistent(Contents(), input);
      rows := rows + [p];
      nextId := nextId + 1;
      clock := clock + 1;
      r := Success(p);
    }

    method FindById(id: nat) returns (r: Option<Policy>)
      ensures r == Find(rows, id)
    {
      var k := IdIndex(rows, id);
      r := if k < |rows| then Some(rows[k]) else None;
    }

    /** `findAll`: every row, in no promised order. */
    method FindAll() returns (all: seq<Policy>)
      ensures multiset(all) == multiset(rows)
    {
      all := rows;
    }

    method Update(id: nat, patch: PolicyPatch) returns (r: Result<Policy, AppError>)
      requires Valid()
      modifies this
      ensures Valid()
      ensures Written(Contents(), r) == UpdateSpec(old(Contents()), id, patch)
    {
      var w := UpdateSpec(Contents(), id, patch);
      UpdateKeepsConsistent(Contents(), id, patch);
      rows, nextId, clock := w.table.rows, w.table.nextId, w.table.clock;
      r := w.outcome;
    }

    method Delete(id: nat) returns (r: Result<bool, AppError>)
      requires Valid()
      modifies this
      ensures Valid()
      ensures Written(Contents(), r) == DeleteSpec(old(Contents()), id)
    {
      var k := IdIndex(rows, id);
      if k == |rows| {
        return Failure(AppError(DeleteError + FailureText(RecordNotFound), 500));
      }
      DeleteKeepsConsistent(Contents(), id);
      rows := rows[..k] + rows[k + 1..];
      r := Success(true);
    }

    method SearchRows(params: SearchParams) returns (r: SearchResult)
      requires params.page.GetOr(1) >= 1 && params.pageSize.GetOr(10) >= 1
      ensures r == Search(rows, params)
    {
      r := Search(rows, params);
    }
  }
}
