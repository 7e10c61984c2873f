/** frontend/src/lib/schemas.ts: the client's zod schemas. They repeat the
    backend's field rules, except that the category must be one of the twelve
    labels and a read policy must carry a UUID. */
module ClientSchemas {
  import opened Wrappers
  import opened Urls
  import opened Zod
  import opened Constants
  import PolicySchema
  import Classification

  /** The category `z.enum(POLICY_CATEGORIES_ARRAY)` admits. */
  function CategoryIssues(category: string): (issues: seq<Issue>)
    ensures issues == [] <==> category in PolicyCategories
  {
    if category in CategoryEnum() then [] else [Issue("category", None)]
  }

  /** The enum is built from the spread copy of the labels. */
  function CategoryEnum(): (labels: set<string>)
    ensures labels == set c | c in PolicyCategories
  {
    var a := CategoriesArray();
    assert a == PolicyCategories;
    set c | c in a
  }

  // ---------------------------------------------------------------------------
  // policySchema: a policy as the API returns it

  datatype ClientPolicy = ClientPolicy(
    id: string, title: string, sourceUrl: string, content: string, category: string,
    createdAt: Option<string>, updatedAt: Option<string>, capture: Option<string>)

  predicate ValidPolicy(p: ClientPolicy) {
    IsUuid(p.id) && 1 <= |p.title| <= MaxTitle && IsUrl(p.sourceUrl) && p.content != ""
    && p.category in PolicyCategories && (p.capture.None? || IsMethodName(p.capture.value))
  }

  /** Timestamps are any optional strings; only the other fields are checked. */
  function PolicyIssues(p: ClientPolicy): (issues: seq<Issue>)
    ensures issues == [] <==> ValidPolicy(p)
  {
    UuidIssues("id", p.id, None) + TitleIssues(p.title) + UrlIssues("source_url", p.sourceUrl)
    + RequiredIssues("content", p.content, ContentRequired) + CategoryIssues(p.category)
    + MethodIssues(p.capture)
  }

  // ---------------------------------------------------------------------------
  // createPolicySchema, updatePolicySchema

  predicate ValidCreate(b: PolicySchema.CreateBody) {
    1 <= |b.title| <= MaxTitle && IsUrl(b.sourceUrl) && b.content != ""
    && b.category in PolicyCategories && (b.capture.None? || IsMethodName(b.capture.value))
  }

  function CreateIssues(b: PolicySchema.CreateBody): (issues: seq<Issue>)
    ensures issues == [] <==> ValidCreate(b)
  {
    TitleIssues(b.title) + UrlIssues("source_url", b.sourceUrl)
    + RequiredIssues("content", b.content, ContentRequired) + CategoryIssues(b.category)
    + MethodIssues(b.capture)
  }

  /** Whatever the client accepts, the backend accepts too. */
  lemma ClientCreateAcceptedByServer(b: PolicySchema.CreateBody)
    requires ValidCreate(b)
    ensures PolicySchema.ValidCreate(b)
  {
    assert b.category != "" by {
      var i :| 0 <= i < |PolicyCategories| && PolicyCategories[i] == b.category;
    }
  }

  /** The converse fails: the backend takes a category that is no label. */
  lemma ServerAcceptsMore()
    ensures var b := PolicySchema.CreateBody("T", "http://a", "C", "Qualquer", None);
      PolicySchema.ValidCreate(b) && !ValidCreate(b)
  {
    PolicySchema.AnyCategoryAccepted();
  }

  predicate ValidUpdate(b: PolicySchema.UpdateBody) {
    (b.title.None? || 1 <= |b.title.value| <= MaxTitle)
    && (b.sourceUrl.None? || IsUrl(b.sourceUrl.value))
    && (b.content.None? || b.content.value != "")
    && (b.category.None? || b.category.value in PolicyCategories)
    && (b.capture.None? || IsMethodName(b.capture.value))
  }

  function UpdateIssues(b: PolicySchema.UpdateBody): (issues: seq<Issue>)
    ensures issues == [] <==> ValidUpdate(b)
  {
    (if b.title.Some? then TitleIssues(b.title.value) else [])
    + (if b.sourceUrl.Some? then UrlIssues("source_url", b.sourceUrl.value) else [])
    + (if b.content.Some? then RequiredIssues("content", b.content.value, ContentRequired) else [])
    + (if b.category.Some? then CategoryIssues(b.category.value) else [])
    + MethodIssues(b.capture)
  }

  /** An update carrying every field is accepted exactly when the same fields
      make an accepted create request. */
  lemma FullUpdateIsCreate(b: PolicySchema.CreateBody)
    ensures ValidUpdate(PolicySchema.UpdateBody(Some(b.title), Some(b.sourceUrl), Some(b.content), Some(b.category), b.capture))
        <==> ValidCreate(b)
  {
  }

  // ---------------------------------------------------------------------------
  // policyQuerySchema, the filters, deletePolicyResponseSchema

  datatype ClientQuery = ClientQuery(term: Option<string>, page: Option<JsNumber>, pageSize: Option<JsNumber>)

  function QueryIssues(q: ClientQuery): (issues: seq<Issue>)
    ensures issues == [] <==>
      (q.page.None? || IntInRange(q.page.value, 1, None))
      && (q.pageSize.None? || IntInRange(q.pageSize.value, 1, Some(PolicySchema.MaxPageSize)))
  {
    (if q.page.Some? && !IntInRange(q.page.value, 1, None) then [Issue("page", None)] else [])
    + (if q.pageSize.Some? && !IntInRange(q.pageSize.value, 1, Some(PolicySchema.MaxPageSize)) then [Issue("page_size", None)] else [])
  }

  /** `PolicyFilters`: what the page asks the API for. */
  datatype PolicyFilters = PolicyFilters(term: Option<string>, page: Option<int>, pageSize: Option<int>, category: Option<string>)

  /** `deletePolicyResponseSchema`: `success` is literally true and `data` null. */
  function DeleteResponseIssues(success: Classification.Json, data: Classification.Json): (issues: seq<Issue>)
    ensures issues == [] <==> success == Classification.JBool(true) && data == Classification.JNull
  {
    (if success == Classification.JBool(true) then [] else [Issue("success", None)])
    + (if data == Classification.JNull then [] else [Issue("data", None)])
  }
}
