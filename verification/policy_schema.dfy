/** backend/src/modules/policies/policies.schema.ts: the request and response
    schemas of the policies API, as issue lists over request records. A request is
    accepted exactly when its list is empty. The query's `Number()` conversion is
    a parameter. */
module PolicySchema {
  import opened Wrappers
  import opened Strings
  import opened Urls
  import opened PolicyTypes
  import opened Zod
  import opened PolicyStore

  // ---------------------------------------------------------------------------
  // createPolicySchema

  datatype CreateBody = CreateBody(
    title: string, sourceUrl: string, content: string, category: string, capture: Option<string>)

  /** What `createPolicySchema` admits. */
  predicate ValidCreate(b: CreateBody) {
    1 <= |b.title| <= MaxTitle && IsUrl(b.sourceUrl) && b.content != "" && b.category != ""
    && (b.capture.None? || IsMethodName(b.capture.value))
  }

  function CreateIssues(b: CreateBody): (issues: seq<Issue>)
    ensures issues == [] <==> ValidCreate(b)
  {
    TitleIssues(b.title) + UrlIssues("source_url", b.sourceUrl)
    + RequiredIssues("content", b.content, ContentRequired)
    + RequiredIssues("category", b.category, CategoryRequired)
    + MethodIssues(b.capture)
  }

  /** The body of an accepted create request, as the service receives it. */
  function CreateInput(b: CreateBody): (input: PolicyInput)
    requires ValidCreate(b)
    ensures input.title == b.title && input.sourceUrl == b.sourceUrl
    ensures input.content == b.content && input.category == b.category
    ensures input.capture.None? <==> b.capture.None?
  {
    PolicyInput(b.sourceUrl, b.title, b.content, b.category, ParseOptionalMethod(b.capture))
  }

  /** Any non-empty category is accepted, not only the twelve labels. */
  lemma AnyCategoryAccepted()
    ensures ValidCreate(CreateBody("T", "http://a", "C", "Qualquer", None))
  {
    var u := "http://a";
    assert IndexOf(u, ':') == 4 by {
      assert u[4] == ':' && u[0] != ':' && u[1] != ':' && u[2] != ':' && u[3] != ':';
    }
  }

  /** A title over 500 characters is refused with its own message. */
  lemma LongTitleRefused(b: CreateBody)
    requires |b.title| > MaxTitle
    ensures !ValidCreate(b) && CreateIssues(b)[0] == Issue("title", Some(TitleTooLong))
  {
  }

  // ---------------------------------------------------------------------------
  // updatePolicySchema

  datatype UpdateBody = UpdateBody(
    title: Option<string>, sourceUrl: Option<string>, content: Option<string>,
    category: Option<string>, capture: Option<string>)

  /** What `updatePolicySchema` admits: each field optional, each present field
      under the create rule. */
  predicate ValidUpdate(b: UpdateBody) {
    (b.title.None? || 1 <= |b.title.value| <= MaxTitle)
    && (b.sourceUrl.None? || IsUrl(b.sourceUrl.value))
    && (b.content.None? || b.content.value != "")
    && (b.category.None? || b.category.value != "")
    && (b.capture.None? || IsMethodName(b.capture.value))
  }

  function UpdateIssues(b: UpdateBody): (issues: seq<Issue>)
    ensures issues == [] <==> ValidUpdate(b)
  {
    (if b.title.Some? then TitleIssues(b.title.value) else [])
    + (if b.sourceUrl.Some? then UrlIssues("source_url", b.sourceUrl.value) else [])
    + (if b.content.Some? then RequiredIssues("content", b.content.value, ContentRequired) else [])
    + (if b.category.Some? then RequiredIssues("category", b.category.value, CategoryRequired) else [])
    + MethodIssues(b.capture)
  }

  /** An update carrying every field is accepted exactly when the same fields
      make an accepted create request. */
  lemma FullUpdateIsCreate(b: CreateBody)
    ensures ValidUpdate(UpdateBody(Some(b.title), Some(b.sourceUrl), Some(b.content), Some(b.category), b.capture))
        <==> ValidCreate(b)
  {
  }

  /** The patch an accepted update request hands the service. */
  function UpdatePatch(b: UpdateBody): (patch: PolicyPatch)
    requires ValidUpdate(b)
    ensures patch.title == b.title && patch.sourceUrl == b.sourceUrl
    ensures patch.content == b.content && patch.category == b.category
    ensures patch.capture.None? <==> b.capture.None?
  {
    PolicyPatch(b.title, b.sourceUrl, b.content, b.category, ParseOptionalMethod(b.capture))
  }

  /** The empty update is accepted, and changes no field of the row. */
  lemma EmptyUpdateChangesNothing(p: Policy, now: nat)
    ensures ValidUpdate(UpdateBody(None, None, None, None, None))
    ensures var q := Patched(p, UpdatePatch(UpdateBody(None, None, None, None, None)), now);
      q == p.(updatedAt := now)
  {
  }

  // ---------------------------------------------------------------------------
  // policyIdSchema, downloadQuerySchema

  const IdMessage := "ID deve ser um UUID válido"

  function IdIssues(id: string): (issues: seq<Issue>)
    ensures issues == [] <==> IsUuid(id)
    ensures issues != [] ==> issues == [Issue("id", Some(IdMessage))]
  {
    UuidIssues("id", id, Some(IdMessage))
  }

  /** `z.enum(['json'])` */
  function DownloadIssues(format: string): (issues: seq<Issue>)
    ensures issues == [] <==> format == "json"
  {
    if format == "json" then [] else [Issue("format", None)]
  }

  // ---------------------------------------------------------------------------
  // policyQuerySchema

  /** The query string's fields, as the strings the request carries. */
  datatype Query = Query(term: Option<string>, page: Option<string>, pageSize: Option<string>)

  const MaxPageSize := 100

  /** `page: z.string().transform(Number).pipe(z.number().int().min(1)).optional()`
      and `page_size` with `.max(100)` as well; `toNumber` is `Number`. */
  function ParseQuery(q: Query, toNumber: string -> JsNumber): (r: Result<SearchParams, seq<Issue>>)
    ensures r.Success? <==>
      (q.page.None? || IntInRange(toNumber(q.page.value), 1, None))
      && (q.pageSize.None? || IntInRange(toNumber(q.pageSize.value), 1, Some(MaxPageSize)))
    ensures r.Success? ==> r.value.term == q.term
    ensures r.Success? ==> r.value.page.GetOr(1) >= 1
    ensures r.Success? ==> 1 <= r.value.pageSize.GetOr(10) <= MaxPageSize
    ensures r.Success? && q.page.Some? ==> r.value.page == Some(IntOf(toNumber(q.page.value)))
    ensures r.Success? && q.page.None? ==> r.value.page.None?
    ensures r.Success? && q.pageSize.Some? ==> r.value.pageSize == Some(IntOf(toNumber(q.pageSize.value)))
    ensures r.Success? && q.pageSize.None? ==> r.value.pageSize.None?
  {
    var pageOk := q.page.None? || IntInRange(toNumber(q.page.value), 1, None);
    var sizeOk := q.pageSize.None? || IntInRange(toNumber(q.pageSize.value), 1, Some(MaxPageSize));
    if !pageOk || !sizeOk then
      Failure((if pageOk then [] else [Issue("page", None)]) + (if sizeOk then [] else [Issue("page_size", None)]))
    else
      var page := if q.page.Some? then Some(IntOf(toNumber(q.page.value))) else None;
      var size := if q.pageSize.Some? then Some(IntOf(toNumber(q.pageSize.value))) else None;
      Success(SearchParams(q.term, page, size))
  }

  // ---------------------------------------------------------------------------
  // The pagination block of policiesSearchResponseSchema

  predicate ValidPagination(r: SearchResult) {
    r.total >= 0 && r.page >= 1 && r.pageSize >= 1 && r.totalPages >= 0
  }

  /** An accepted query leads to a search whose pagination block the response
      schema accepts. */
  lemma QueryGivesValidPagination(rows: seq<Policy>, q: Query, toNumber: string -> JsNumber)
    requires ParseQuery(q, toNumber).Success?
    ensures var params := ParseQuery(q, toNumber).value;
      params.page.GetOr(1) >= 1 && params.pageSize.GetOr(10) >= 1
      && ValidPagination(Search(rows, params))
  {
  }
}
