# Privacy-policy catalogue: a Dafny model

The system collects privacy policies from web sites, classifies them with a
language model and serves them through a REST API to a Next.js front end.

- **Scraper** (`scraping.service.ts`): fetches a page with a plain HTTP request
  and falls back to a headless browser. It then chooses the main text, cleans
  the title and filters the sentences.
- **Classifier** (`ai.service.ts`): asks the model for one of twelve labels and
  a confidence, and coerces the reply into that range.
- **Ingestion** (`ingestion.service.ts`): chains scrape, classify and store, and
  wraps every failure in one 500 error.
- **Repository and service** (`policies.repository.ts`, `policies.service.ts`):
  keep the table of policies. Reads and writes check that the id exists, and
  `source_url` is unique. Search filters case-insensitively, orders newest
  first and paginates.
- **Validators** (`policies.schema.ts`, front-end `schemas.ts`): zod schemas.
- **Front-end logic**:
  - the pagination bar and URL parameters of `page.tsx`;
  - the query string, error and category helpers of `api.ts`;
  - the retry rule and query keys of `query-client.ts`;
  - the filter panel's transitions;
  - the badge colours and the download file name.

The network, the browser, the language model, `JSON.parse`, `Number()` and URL
encoding become parameters of the model: a `Net` value, `string -> Completion`
and `string -> Option<ParsedReply>` functions, and `string -> string` encoders.
The database becomes an in-memory `Table` held by a `PoliciesRepository` object.
Objects whose fields the source updates are classes:

- `ScrapingService` holds the browser handle;
- `PoliciesRepository` holds the rows;
- `PoliciesService` and `IngestionService` hold their collaborators;
- `HomeFilters` holds the page's filter state and the pushed URLs.

Each method is proved equal to a specification function, and the properties are
lemmas about those functions.

Modules, one per file:

- Shared: `Wrappers`, `Strings` (JavaScript string operations), `Urls` (outlines
  of the URL and UUID checks),
  `JsObject` (property lookup that sees `Object.prototype`), `PolicyTypes`,
  `Zod`.
- Back end: `Scraping`, `ScrapingText`, `Classification`, `PolicyStore`,
  `PoliciesService`, `PolicySchema`, `Ingestion`.
- Front end: `Constants`, `ClientSchemas`, `UrlParams`, `ApiClient`,
  `QueryClient`, `HomePage`, `PolicyFilterPanel`, `PolicyBadge`.

## Model

| member | source | states |
|---|---|---|
| Scraping.Scrape | backend/src/modules/scraping/scraping.service.ts:21-50 | An invalid URL gives the invalid-URL failure. Nothing is fetched and the browser is untouched. |
| Scraping.ScrapeSelectsPath | backend/src/modules/scraping/scraping.service.ts:30-43 | A preferred method is the only path tried. Without one, axios runs first, and the browser runs exactly when axios failed. |
| Scraping.ScrapeResultShape | backend/src/modules/scraping/scraping.service.ts:21-50 | The scrape never throws. A success is the record of the URL, made by the last path tried. A failure has no data and an error. A browser exception becomes the caught message naming the URL. |
| Scraping.ScrapeBrowserUse | backend/src/modules/scraping/scraping.service.ts:104-148 | Only the browser path changes the browser state. An open browser is reused, and one scrape launches at most one browser. |
| Scraping.ExtractPolicyData | backend/src/modules/scraping/scraping.service.ts:150-211 | The record has the input URL, an empty category and the capture method. Its title is empty iff the raw title is empty. Its content has no '!' or '?'. |
| Scraping.AxiosResult | backend/src/modules/scraping/scraping.service.ts:73-102 | Success iff the page loaded. The result is well formed for the URL and the axios method. |
| Scraping.OpenBrowser | backend/src/modules/scraping/scraping.service.ts:310-326 | An open browser is returned unchanged. Otherwise a launch either fails or adds exactly one browser. |
| Scraping.PuppeteerRun | backend/src/modules/scraping/scraping.service.ts:104-148 | The run ends with a browser open, or with the state unchanged. When it returns, it succeeds iff the page loaded, and the result is well formed for puppeteer. |
| Scraping.Caught | backend/src/modules/scraping/scraping.service.ts:44-49 | A thrown run becomes a failure whose message names the URL. A returned run's result passes through. |
| Scraping.Batch | backend/src/modules/scraping/scraping.service.ts:52-71 | One result per URL. |
| Scraping.UrlsToScrape | backend/src/modules/scraping/scraping.service.ts:13-19 | An absent list means the five predefined URLs. |
| Scraping.StepIsScrape | backend/src/modules/scraping/scraping.service.ts:56-66 | A batch step is the scrape with no preferred method. |
| Scraping.BatchInOrder | backend/src/modules/scraping/scraping.service.ts:52-71 | Result i is the scrape of URL i, starting from the browser state the earlier URLs left. |
| Scraping.BatchPerUrl | backend/src/modules/scraping/scraping.service.ts:56-66 | An invalid URL in the batch gets the invalid-URL failure. Each success is the record of its own URL. |
| Scraping.BatchLaunchesOnce | backend/src/modules/scraping/scraping.service.ts:310-326 | A batch launches at most one browser, and none when one is already open. |
| Scraping.ScrapingService.GetBrowser | backend/src/modules/scraping/scraping.service.ts:310-326 | Returns the open handle. Otherwise it launches and stores a new one, or passes the launch error on with the state unchanged. |
| Scraping.ScrapingService.CloseBrowser | backend/src/modules/scraping/scraping.service.ts:328-333 | The handle is cleared. |
| Scraping.ScrapingService.ScrapeWithPuppeteer | backend/src/modules/scraping/scraping.service.ts:104-148 | Result and new browser state are those of PuppeteerRun. |
| Scraping.ScrapingService.ScrapePolicyFromUrl | backend/src/modules/scraping/scraping.service.ts:21-50 | Result and new browser state are those of Scrape. |
| Scraping.ScrapingService.ScrapeBatchItem | backend/src/modules/scraping/scraping.service.ts:56-66 | One loop iteration: the result and state of one Step. |
| Scraping.ScrapingService.ScrapeMultipleUrls | backend/src/modules/scraping/scraping.service.ts:52-71 | The loop's results and final state are those of Batch over the given or predefined URLs. |
| Scraping.ScrapingService.ScrapePredefinedUrls | backend/src/modules/scraping/scraping.service.ts:335-337 | Five results, the batch over the predefined URLs. |
| ScrapingText.ExtractTitle | backend/src/modules/scraping/scraping.service.ts:225-242 | Empty iff every heading is blank. |
| ScrapingText.ExtractTitleIsFirst | backend/src/modules/scraping/scraping.service.ts:225-242 | A non-empty title is the trimmed first non-blank heading. |
| ScrapingText.RawTitle | backend/src/modules/scraping/scraping.service.ts:178 | The trimmed `<title>` when non-blank, else the heading title. |
| ScrapingText.CleanTitle | backend/src/modules/scraping/scraping.service.ts:213-223 | Empty iff the title is empty. Otherwise it is the title itself or the trimmed text before the separators. |
| ScrapingText.CleanTitleSingleLine | backend/src/modules/scraping/scraping.service.ts:213-223 | For a single-line title, the result is the trimmed text before the earliest `\|`, `-` or `–`, or the original title when that text is blank. |
| ScrapingText.Chosen | backend/src/modules/scraping/scraping.service.ts:180-194 | Either empty or longer than 500 characters. |
| ScrapingText.ChosenEmpty | backend/src/modules/scraping/scraping.service.ts:180-194 | Empty iff no trimmed candidate exceeds 500 characters. |
| ScrapingText.ChosenIsLongest | backend/src/modules/scraping/scraping.service.ts:180-194 | A chosen text is a trimmed candidate that is longest, and the earliest on a tie. |
| ScrapingText.ChooseCandidate | backend/src/modules/scraping/scraping.service.ts:180-194 | The loop computes Chosen. |
| ScrapingText.MainText | backend/src/modules/scraping/scraping.service.ts:196-202 | The body text when nothing is chosen or the choice is under 1000 characters, else the choice. |
| ScrapingText.ReplaceRuns | backend/src/modules/scraping/scraping.service.ts:247-252 | Every character is the replacement or outside the class. Input with no class character is unchanged. |
| ScrapingText.ReplaceRunsNoAdjacent | backend/src/modules/scraping/scraping.service.ts:247-252 | No two adjacent characters of the result belong to the class. |
| ScrapingText.Normalise | backend/src/modules/scraping/scraping.service.ts:247-252 | The only whitespace left is the single space. |
| ScrapingText.NormaliseIsCollapse | backend/src/modules/scraping/scraping.service.ts:247-252 | Whitespace runs collapse to one space, then the ends are trimmed. |
| ScrapingText.FilterMeaningful | backend/src/modules/scraping/scraping.service.ts:266-278 | Keeps exactly the meaningful sentences. |
| ScrapingText.CleanContent | backend/src/modules/scraping/scraping.service.ts:244-281 | The method computes CleanedText. |
| ScrapingText.CleanedHasNoBangOrQuestion | backend/src/modules/scraping/scraping.service.ts:244-281 | The output contains no `!` and no `?`. |
| ScrapingText.CleanedUnitsAreMeaningful | backend/src/modules/scraping/scraping.service.ts:266-281 | Every `'.'`-separated unit of a non-empty output, trimmed, is over 50 characters and free of `javascript`, `error` and `404`, case-insensitively. |
| Classification.CategoriesShape | backend/src/modules/ai/ai.service.ts:9-22 | Twelve distinct labels, the last being `OUTROS`. |
| Classification.DescriptionAsWritten | backend/src/modules/ai/ai.service.ts:109-136 | A label finds its own description. |
| Classification.DescriptionAsWrittenFindsConstructor | backend/src/modules/ai/ai.service.ts:109-136 | The unlisted name "constructor" gets `Object.prototype`'s member instead of the fallback text. |
| Classification.Description | backend/src/modules/ai/ai.service.ts:179-181 | A label's own description, otherwise `Descrição não disponível`. |
| Classification.GetAvailableCategories | backend/src/modules/ai/ai.service.ts:175-177 | A fresh array equal to the label list. |
| Classification.ContentSection | backend/src/modules/ai/ai.service.ts:78-107 | The content is cut to 4000 characters, and `...` is added exactly when it was longer. |
| Classification.TitleSection | backend/src/modules/ai/ai.service.ts:78-107 | Empty iff no non-empty title is given. |
| Classification.PromptEmbedsContentAndLabels | backend/src/modules/ai/ai.service.ts:78-107 | The prompt contains the content section, the title section and the numbered line of every label. |
| Classification.LastIndexOf | backend/src/modules/ai/ai.service.ts:140 | The last position of the character, or -1. |
| Classification.BraceSpan | backend/src/modules/ai/ai.service.ts:140-145 | None iff there is no `{` before a later `}`. Otherwise the span runs from the first `{` to the last `}`. |
| Classification.CoerceCategory | backend/src/modules/ai/ai.service.ts:147-149 | Always one of the twelve. A listed string is kept, anything else becomes `OUTROS`. |
| Classification.CoerceConfidence | backend/src/modules/ai/ai.service.ts:151-157 | Always in [0,100]. An in-range number is kept, anything else becomes 50. |
| Classification.Interpret | backend/src/modules/ai/ai.service.ts:138-173 | Label in the set and confidence in [0,100]. No brace span gives `{OUTROS, 0}`. |
| Classification.ParseAIResponse | backend/src/modules/ai/ai.service.ts:138-173 | As Interpret, plus: unparsable JSON gives `{OUTROS, 0}`, and parsed fields are coerced. |
| Classification.Classify | backend/src/modules/ai/ai.service.ts:36-76 | Never fails. A failed call or an empty reply gives `{OUTROS, 0}`, and the label is always one of the twelve. |
| Classification.ClassifyItem | backend/src/modules/ai/ai.service.ts:183-214 | Carries the item's id and a valid label and confidence. |
| Classification.ClassifyMultipleContents | backend/src/modules/ai/ai.service.ts:183-214 | One result per item, in order, each the classification of its item. |
| Ingestion.Shown | backend/src/modules/ingestion/ingestion.service.ts:23 | A missing scrape error interpolates as `undefined`. |
| Ingestion.Record | backend/src/modules/ingestion/ingestion.service.ts:33-39 | The stored input has the URL, the scraped title, content and method, and the classifier's label. |
| Ingestion.Verdict | backend/src/modules/ingestion/ingestion.service.ts:28-31 | The classifier's label for the scraped page, always one of the twelve. |
| Ingestion.ScrapeFailureStops | backend/src/modules/ingestion/ingestion.service.ts:19-24 | A failed or empty scrape asks nothing, writes nothing, and fails with 500 and the scraper's error. |
| Ingestion.InvalidUrlFails | backend/src/modules/ingestion/ingestion.service.ts:17-48 | An invalid URL ends in the wrapped invalid-URL message with the table and browser untouched. |
| Ingestion.FailuresAreWrapped | backend/src/modules/ingestion/ingestion.service.ts:42-47 | Every failure has status 500 and a message starting with `Falha na ingestão da política: `. |
| Ingestion.SuccessStores | backend/src/modules/ingestion/ingestion.service.ts:26-41 | A successful scrape of a new URL asks once and stores the record as the new last row, without a method. The record is returned and can be found by its id. |
| Ingestion.IngestStores | backend/src/modules/ingestion/ingestion.service.ts:17-41 | The whole pipeline stores a labelled record for a successful scrape of a new URL, whatever the model answers. |
| Ingestion.DuplicateFails | backend/src/modules/ingestion/ingestion.service.ts:33-47 | A scraped URL already stored fails and writes nothing. |
| Ingestion.IngestKeepsConsistent | backend/src/modules/ingestion/ingestion.service.ts:33-39 | The table's invariants survive ingestion. |
| Ingestion.IngestionService.constructor | backend/src/modules/ingestion/ingestion.service.ts:11-15 | New services with a closed browser and an empty table. |
| Ingestion.IngestionService.IngestPolicyFromUrl | backend/src/modules/ingestion/ingestion.service.ts:17-48 | Result, browser state and table are those of Ingest. |
| Ingestion.IngestionService.Persist | backend/src/modules/ingestion/ingestion.service.ts:22-47 | Result and table are those of AfterScrape with the classifier's verdict. |
| PolicyStore.UrlIndex | backend/src/modules/policies/policies.repository.ts:29-31 | The first row with the URL, or the row count. |
| PolicyStore.IdIndex | backend/src/modules/policies/policies.repository.ts:82-91 | The first row with the id, or the row count. |
| PolicyStore.SaveSpec | backend/src/modules/policies/policies.repository.ts:18-32 | A duplicate URL fails with 500 and the table unchanged. Otherwise a new row is appended. |
| PolicyStore.SaveStores | backend/src/modules/policies/policies.repository.ts:18-28 | The saved record keeps title, content, URL and category, drops the method, gets a fresh id and is the new last row. |
| PolicyStore.SaveKeepsConsistent | backend/src/modules/policies/policies.repository.ts:18-32 | Unique ids, unique URLs and creation order are preserved. |
| PolicyStore.Find | backend/src/modules/policies/policies.repository.ts:82-91 | The row with the id, or None iff no row has it. |
| PolicyStore.FindEach | backend/src/modules/policies/policies.repository.ts:82-91 | With unique ids every row is found by its id. |
| PolicyStore.Patched | backend/src/modules/policies/policies.repository.ts:93-103 | Supplied fields are replaced and the others kept. The id and creation time are kept, and the update time is now. |
| PolicyStore.UpdateSpec | backend/src/modules/policies/policies.repository.ts:93-103 | A missing id, or a URL taken by another row, fails with 500 and the table unchanged. Otherwise only that row is replaced by its patched form. |
| PolicyStore.UpdateKeepsConsistent | backend/src/modules/policies/policies.repository.ts:93-103 | The table's invariants survive an update. |
| PolicyStore.DeleteSpec | backend/src/modules/policies/policies.repository.ts:105-114 | A missing id fails with the table unchanged. Otherwise `true`, with one row fewer. |
| PolicyStore.DeleteRemovesExactly | backend/src/modules/policies/policies.repository.ts:105-114 | After deleting, the id is gone and the rows are exactly the others. |
| PolicyStore.DeleteKeepsConsistent | backend/src/modules/policies/policies.repository.ts:105-114 | The table's invariants survive a delete. |
| PolicyStore.Filter | backend/src/modules/policies/policies.repository.ts:48-56 | Exactly the rows matching the term. An empty term matches all. |
| PolicyStore.FilterChronological | backend/src/modules/policies/policies.repository.ts:48-56 | Filtering keeps creation order. |
| PolicyStore.FilterAll | backend/src/modules/policies/policies.repository.ts:48-56 | An absent or empty term keeps every row. |
| PolicyStore.NewestIsOrdered | backend/src/modules/policies/policies.repository.ts:58-64 | The matches come newest first, and they are exactly the matching rows. |
| PolicyStore.CeilDiv | backend/src/modules/policies/policies.repository.ts:68 | The least c with c·b ≥ a. |
| PolicyStore.Window | backend/src/modules/policies/policies.repository.ts:58-64 | skip/take: at most `size` rows, taken in order from position `skip`. |
| PolicyStore.Search | backend/src/modules/policies/policies.repository.ts:43-80 | Page and size default to 1 and 10 and are echoed. The total counts all matches, a page holds at most the size, and total_pages is ceil(total/size). |
| PolicyStore.SearchPages | backend/src/modules/policies/policies.repository.ts:43-80 | Match i appears on page i/size+1 at position i mod size. |
| PolicyStore.SearchOrdered | backend/src/modules/policies/policies.repository.ts:43-80 | Every page is newest first and holds only matching rows. |
| PolicyStore.WindowOrdered | backend/src/modules/policies/policies.repository.ts:58-64 | A window of a newest-first list is newest first. |
| PolicyStore.SearchThreeByTwo | backend/tests/integration/policies.test.ts:361-371 | Three records with page size 2 give total 3 and 2 pages. |
| PolicyStore.PoliciesRepository.constructor | backend/src/modules/policies/policies.repository.ts:12-16 | An empty, consistent table. |
| PolicyStore.PoliciesRepository.Save | backend/src/modules/policies/policies.repository.ts:18-32 | Result and new table are SaveSpec's, and the invariants are kept. |
| PolicyStore.PoliciesRepository.FindById | backend/src/modules/policies/policies.repository.ts:82-91 | The result is Find. |
| PolicyStore.PoliciesRepository.FindAll | backend/src/modules/policies/policies.repository.ts:34-41 | The same rows, in no promised order. |
| PolicyStore.PoliciesRepository.Update | backend/src/modules/policies/policies.repository.ts:93-103 | Result and new table are UpdateSpec's. |
| PolicyStore.PoliciesRepository.Delete | backend/src/modules/policies/policies.repository.ts:105-114 | Result and new table are DeleteSpec's. |
| PolicyStore.PoliciesRepository.SearchRows | backend/src/modules/policies/policies.repository.ts:43-80 | The result is Search. |
| PoliciesService.GetById | backend/src/modules/policies/policies.service.ts:38-44 | A 404 `Política não encontrada` iff the id is absent, else the row with that id. |
| PoliciesService.ServiceUpdate | backend/src/modules/policies/policies.service.ts:46-52 | An absent id gives 404 before any write, with the table unchanged. |
| PoliciesService.ServiceDelete | backend/src/modules/policies/policies.service.ts:54-57 | An absent id gives 404 before any write, with the table unchanged. |
| PoliciesService.UpdateReplacesFields | backend/src/modules/policies/policies.service.ts:46-52 | On an existing id the returned record is the old one with the supplied fields replaced, and it is stored. |
| PoliciesService.DeleteThenMissing | backend/src/modules/policies/policies.service.ts:54-57 | Deleting an existing id returns true, and a later get gives 404. |
| PoliciesService.ServiceKeepsConsistent | backend/src/modules/policies/policies.service.ts:46-57 | Update and delete keep the table's invariants. |
| PoliciesService.PoliciesService.constructor | backend/src/modules/policies/policies.service.ts:10-15 | A service over an empty repository. |
| PoliciesService.PoliciesService.CreatePolicy | backend/src/modules/policies/policies.service.ts:17-19 | Forwards to save unchanged. |
| PoliciesService.PoliciesService.GetAllPolicies | backend/src/modules/policies/policies.service.ts:21-23 | The stored rows. |
| PoliciesService.PoliciesService.SearchPolicies | backend/src/modules/policies/policies.service.ts:25-36 | Forwards its arguments to search unchanged. |
| PoliciesService.PoliciesService.GetPolicyById | backend/src/modules/policies/policies.service.ts:38-44 | The result is GetById. |
| PoliciesService.PoliciesService.UpdatePolicy | backend/src/modules/policies/policies.service.ts:46-52 | Result and table are ServiceUpdate's. |
| PoliciesService.PoliciesService.DeletePolicy | backend/src/modules/policies/policies.service.ts:54-57 | Result and table are ServiceDelete's. |
| Zod.TitleIssues | backend/src/modules/policies/policies.schema.ts:28-31 | Valid iff the length is 1..500, with the required or too-long message otherwise. |
| Zod.UrlIssues | backend/src/modules/policies/policies.schema.ts:32 | Valid iff the string is a URL in the sense of Urls.IsUrl, else `URL inválida`. |
| Urls.SchemeAloneIsUrl | backend/src/modules/policies/policies.schema.ts:32 | `a:`, a scheme with an empty rest, is a URL, as the URL parser accepts it. |
| Urls.BlankAroundUrlIsIgnored | backend/src/modules/policies/policies.schema.ts:32 | A space before `http://x` is stripped, as the URL parser strips it. |
| Urls.HostlessHttpIsNotUrl | backend/src/modules/policies/policies.schema.ts:32 | `http://`, an http URL without a host, is refused, as the URL parser refuses it. |
| Zod.RequiredIssues | backend/src/modules/policies/policies.schema.ts:33-34 | Valid iff the string is non-empty. |
| Zod.MethodNamesAreMethods | backend/src/modules/policies/policies.schema.ts:35 | Exactly `axios` and `puppeteer` name methods. |
| Zod.MethodIssues | backend/src/modules/policies/policies.schema.ts:35 | An absent method or one of the two names is valid. |
| Zod.UuidIssues | backend/src/modules/policies/policies.schema.ts:50-52 | Valid iff the id is a UUID. |
| PolicySchema.CreateIssues | backend/src/modules/policies/policies.schema.ts:27-36 | No issue iff the create body is valid. |
| PolicySchema.CreateInput | backend/src/modules/policies/policies.schema.ts:27-36 | The parsed input carries the body's fields. |
| PolicySchema.AnyCategoryAccepted | backend/src/modules/policies/policies.schema.ts:34 | A category outside the twelve labels is accepted. |
| PolicySchema.LongTitleRefused | backend/src/modules/policies/policies.schema.ts:28-31 | A title over 500 characters is refused with the too-long issue first. |
| PolicySchema.UpdateIssues | backend/src/modules/policies/policies.schema.ts:38-48 | No issue iff every present field obeys its create rule. |
| PolicySchema.FullUpdateIsCreate | backend/src/modules/policies/policies.schema.ts:38-48 | Every valid create body is a valid update body. |
| PolicySchema.UpdatePatch | backend/src/modules/policies/policies.schema.ts:38-48 | The patch carries exactly the present fields. |
| PolicySchema.EmptyUpdateChangesNothing | backend/src/modules/policies/policies.schema.ts:38-48 | An empty body is valid and leaves every stored field as it was. |
| PolicySchema.IdIssues | backend/src/modules/policies/policies.schema.ts:50-52 | Valid iff a UUID, else the single `ID deve ser um UUID válido` issue. |
| PolicySchema.DownloadIssues | backend/src/modules/policies/policies.schema.ts:54-56 | Valid iff the format is `json`. |
| PolicySchema.ParseQuery | backend/src/modules/policies/policies.schema.ts:58-69 | Success iff each present page converts to an integer ≥ 1 and each present page_size to an integer in 1..100. The term passes through, and absent fields stay absent. |
| PolicySchema.QueryGivesValidPagination | backend/src/modules/policies/policies.schema.ts:84-89 | A search on a parsed query yields a pagination block that meets the response schema. |
| Constants.CategoriesArray | frontend/src/lib/constants.ts:18-20 | The same labels in the same order. |
| Constants.LabelsMatchClassifier | frontend/src/lib/constants.ts:1-14 | Twelve distinct labels with `OUTROS`, identical to the back end's list. |
| Constants.ColorsCoverLabels | frontend/src/lib/constants.ts:22-46 | The colour table has exactly one entry per label. |
| Constants.CategoryColorAsWritten | frontend/src/lib/constants.ts:48-52 | A label finds its colour, and an ordinary unlisted name finds the `OUTROS` colour. |
| Constants.CategoryColorFindsConstructor | frontend/src/lib/constants.ts:48-52 | "constructor" finds the inherited function, not a colour. |
| Constants.CategoryColor | frontend/src/lib/constants.ts:48-52 | A label's own colour, else the `OUTROS` colour. |
| ClientSchemas.CategoryIssues | frontend/src/lib/schemas.ts:12 | Valid iff the category is one of the twelve. |
| ClientSchemas.CategoryEnum | frontend/src/lib/constants.ts:18-20 | The enum's values are the labels. |
| ClientSchemas.PolicyIssues | frontend/src/lib/schemas.ts:4-16 | No issue iff the read policy is valid: UUID id, title, URL, content, label, method. |
| ClientSchemas.CreateIssues | frontend/src/lib/schemas.ts:18-27 | No issue iff the create body is valid. |
| ClientSchemas.ClientCreateAcceptedByServer | frontend/src/lib/schemas.ts:18-27 | Whatever the client accepts, the server's create schema accepts. |
| ClientSchemas.ServerAcceptsMore | frontend/src/lib/schemas.ts:25 | The server accepts a category that the client refuses. |
| ClientSchemas.UpdateIssues | frontend/src/lib/schemas.ts:29-39 | No issue iff every present field obeys its create rule. |
| ClientSchemas.FullUpdateIsCreate | frontend/src/lib/schemas.ts:29-39 | Every valid create body is a valid update body. |
| ClientSchemas.QueryIssues | frontend/src/lib/schemas.ts:41-45 | Valid iff a present page is an integer ≥ 1 and a present page_size an integer in 1..100. |
| ClientSchemas.DeleteResponseIssues | frontend/src/lib/schemas.ts:68-71 | Valid iff success is true and data is null. |
| UrlParams.Keys | frontend/src/lib/api.ts:45-50 | The parameter names in order. |
| UrlParams.WithQuery | frontend/src/app/page.tsx:64 | `path?query` when there are parameters, otherwise the fallback (`/` on the page, the bare `/policies` in the client), which is returned iff there are no parameters. |
| UrlParams.Serialize | frontend/src/lib/api.ts:52 | The query string is empty iff there are no parameters. |
| ApiClient.QueryParams | frontend/src/lib/api.ts:45-50 | `term`, `page`, `page_size` in that order, each exactly when truthy, each with its field's value. |
| ApiClient.Endpoint | frontend/src/lib/api.ts:52-53 | `/policies` iff there are no parameters, else `/policies?` and the query. |
| ApiClient.BareEndpoint | frontend/src/lib/api.ts:45-53 | The bare endpoint iff no filter is truthy. |
| ApiClient.SchemaFor | frontend/src/lib/api.ts:59-63 | The search schema iff the body has `pagination`. |
| ApiClient.ApiErrorMessage | frontend/src/lib/api.ts:33-36 | The message starts with `API Error `. |
| ApiClient.ApiCall | frontend/src/lib/api.ts:18-39 | Success iff the status is 2xx, returning the body. Otherwise an `Error` with `API Error <status>: <body>`. |
| ApiClient.Insert | frontend/src/lib/api.ts:114-118 | Keeps a list strictly sorted and adds exactly the new element. |
| ApiClient.DistinctSorted | frontend/src/lib/api.ts:114-118 | Strictly ascending, with exactly the input's categories. |
| ApiClient.SortedHasNoDuplicates | frontend/src/lib/api.ts:114-118 | A strictly sorted list has no duplicates. |
| ApiClient.SortedUnique | frontend/src/lib/api.ts:114-118 | Two strictly sorted lists with the same elements are equal, so the set's iteration order does not matter. |
| QueryClient.RetryAsWritten | frontend/src/lib/query-client.ts:9-15 | No retry when the message contains `4`. Otherwise retry iff fewer than three failures. |
| QueryClient.Retry | frontend/src/lib/query-client.ts:9-15 | No retry on a 4xx API error. Otherwise retry iff fewer than three failures. |
| QueryClient.ClientErrorExactly | frontend/src/lib/query-client.ts:11-13 | An API error message is a 4xx message iff its status is in 400..499. |
| QueryClient.RetryOnStatus | frontend/src/lib/query-client.ts:11-14 | The corrected rule retries exactly the non-4xx statuses, below three failures. |
| QueryClient.AsWrittenStopsClientErrors | frontend/src/lib/query-client.ts:11-13 | The written rule never retries a 4xx. |
| QueryClient.AsWrittenStopsGatewayTimeout | frontend/src/lib/query-client.ts:11-13 | A 504 is not retried as written, but is retried by the corrected rule. |
| QueryClient.KeysExtendTheirParents | frontend/src/lib/query-client.ts:24-34 | List keys extend `lists()` and `all`. Detail keys extend `details()` and `all`. The categories key extends `all`. |
| QueryClient.BranchesAreDisjoint | frontend/src/lib/query-client.ts:26-32 | Lists and details differ at index 1, so neither prefix matches the other's keys or the categories key. |
| QueryClient.KeysAreInjective | frontend/src/lib/query-client.ts:28-31 | Distinct filters or ids give distinct keys. |
| HomePage.WindowBounds | frontend/src/app/page.tsx:112-121 | 1 ≤ start ≤ end ≤ total. The size is min(5, total). The current page is inside the window when it is in range. |
| HomePage.PageWindow | frontend/src/app/page.tsx:112-121 | The step-by-step adjustment yields WindowStart and WindowEnd. |
| HomePage.Links | frontend/src/app/page.tsx:156-170 | One link per page from start to end, active exactly on the current page. |
| HomePage.RenderPagination | frontend/src/app/page.tsx:102-204 | No bar iff there is no pagination or total_pages ≤ 1. Otherwise Previous, the body and Next. |
| HomePage.BodyCoversAllPages | frontend/src/app/page.tsx:138-188 | The bar's numbers rise by one, or jump over an ellipsis. They run from 1 to total_pages with no page shown twice. |
| HomePage.CoversIncreasing | frontend/src/app/page.tsx:138-188 | Page numbers strictly increase along the bar. |
| HomePage.ActiveIsCurrent | frontend/src/app/page.tsx:156-170 | Only the current page is active, and it is shown active iff it is in range. |
| HomePage.PreviousAndNext | frontend/src/app/page.tsx:127-136 | Previous targets page-1 only when page > 1. Next targets page+1 only when page < total. |
| HomePage.Merge | frontend/src/app/page.tsx:57 | The spread: each patched field overrides, the rest are kept. |
| HomePage.HomeFilters.constructor | frontend/src/app/page.tsx:32-41 | Initial filters: the URL's page and term, with page size 9. |
| HomePage.PushedParams | frontend/src/app/page.tsx:60-62 | The parameters are `term` (its text) for a non-empty term, then `page` (its decimal text) above page 1, in that order. |
| HomePage.HomeFilters.UpdateFilters | frontend/src/app/page.tsx:56-66 | Filters are merged. Exactly one address is appended: `?` and the serialised PushedParams of the new filters, or `/` when there are none. |
| HomePage.HomeFilters.ChangePage | frontend/src/app/page.tsx:78-80 | Only the page changes, and the address of the new filters is appended. |
| HomePage.HomeFilters.OnDebouncedTerm | frontend/src/app/page.tsx:68-72 | A new term is stored with page 1, and the address pushed carries the term alone, or is `/` for an empty term. The same term changes nothing. |
| HomePage.DebounceStep | frontend/src/app/page.tsx:68-72 | A new term resets the page to 1. Page size and category are kept. |
| HomePage.DebounceSettles | frontend/src/app/page.tsx:68-72 | A second run of the effect with the same value changes nothing. |
| PolicyFilterPanel.SelectValue | frontend/src/components/policies/policy-filters.tsx:108 | `all` iff no filter is active, else the category. |
| PolicyFilterPanel.CategoryChange | frontend/src/components/policies/policy-filters.tsx:44-50 | Page 1, with search and limit kept. `all` clears the category, other choices are stored. Active iff the choice is neither `all` nor empty. |
| PolicyFilterPanel.ClearFilters | frontend/src/components/policies/policy-filters.tsx:52-57 | Only search and page 1 remain, and no filter is active. |
| PolicyFilterPanel.Refresh | frontend/src/components/policies/policy-filters.tsx:59-63 | The emitted filters equal the current ones. |
| PolicyFilterPanel.ClearIsIdempotent | frontend/src/components/policies/policy-filters.tsx:44-57 | Clearing twice is clearing once. Choosing `all` clears like the button, except that it keeps the limit. |
| PolicyFilterPanel.SelectShowsChoice | frontend/src/components/policies/policy-filters.tsx:44-50 | After choosing a non-empty category, the select of line 108 shows it. |
| PolicyBadge.BadgeColorAsWritten | frontend/src/components/policies/policy-card.tsx:32-42 | The six names find their classes, and an ordinary other name finds the muted class. |
| PolicyBadge.BadgeColorFindsConstructor | frontend/src/components/policies/policy-details.tsx:31-41 | "constructor" finds the inherited function instead of the muted class. |
| PolicyBadge.BadgeColor | frontend/src/components/policies/policy-card.tsx:32-42 | The six names' classes, and the muted class for anything else. |
| PolicyBadge.SocialMediaIsMuted | frontend/src/components/policies/policy-card.tsx:32-42 | `Social Media` looks like the fallback. |
| PolicyBadge.LabelsAreMuted | frontend/src/components/policies/policy-card.tsx:32-41 | Every one of the twelve labels gets the muted class. |
| PolicyBadge.FileName | frontend/src/components/policies/policy-details.tsx:65 | Ends in `.json`. |
| PolicyBadge.SanitizeIsSafe | frontend/src/components/policies/policy-details.tsx:65 | Only `a-z`, `0-9` and `_`. |
| PolicyBadge.SanitizeKeepsLength | frontend/src/components/policies/policy-details.tsx:65 | Same length as the title in UTF-16 units. |
| PolicyBadge.SanitizeFixesSafe | frontend/src/components/policies/policy-details.tsx:65 | A safe name is its own sanitised form. |
| PolicyBadge.SanitizeIsIdempotent | frontend/src/components/policies/policy-details.tsx:65 | Sanitising twice is sanitising once. |

## Left out

- Fetching is not modelled: the HTTP request, the browser's pages and request interception, the cookie-consent clicks, `delay`, `page.close` and logging. A fetch is an abstract `Fetch` outcome, and a browser launch is an optional exception.
- DOM and CSS-selector work is not modelled. A page is given as its `<title>` text, its headings, its candidate texts and its body text. The boilerplate regular expressions of the content cleaner are opaque `string -> string` functions.
- The OpenAI call, the API-key check and `JSON.parse` are not modelled. The reply is an abstract completion, and parsing is an abstract `string -> Option<ParsedReply>`.
- Prisma internals are not modelled, nor `Promise.all`. The table is an in-memory sequence. Ids are natural numbers rather than UUIDs, and timestamps come from a logical clock.
- The text of database errors is abstract. Only the duplicate-URL failure and the missing-row failure of update and delete are modelled. Other database errors, such as a lost connection, are not modelled.
- PolicyStore.Search: requires page ≥ 1 and page_size ≥ 1, because the query schema guarantees them before the repository runs. A negative skip is not modelled.
- PolicyStore.PoliciesRepository.FindAll: promises the same rows, not an order, because the query has no `orderBy`.
- PolicyStore.Patched: a supplied method is copied onto the row. Whether the database accepts a `method` column depends on its schema, which is not part of this model.
- Case-insensitive matching folds ASCII letters only.
- Lengths count Dafny characters, which are Unicode code points, while JavaScript's `length` counts UTF-16 units. Outside the file-name sanitiser, which models astral characters as two units, a character beyond U+FFFF counts 1 where JavaScript counts 2. This shifts the title's 1..500 check, the 4000-character cut of the classifier's input and the 50, 500 and 1000 thresholds of the content checks for text holding such characters.
- Zod.UrlIssues: accepts what Urls.IsUrl accepts, an outline of the URL parser that zod's `.url()` runs (`new URL`). It strips blanks at both ends, needs a scheme and a ':', and needs a non-empty host after a scheme such as http. It does not check hosts (forbidden code points, IPv4 and IPv6 forms, IDNA), ports, percent-escapes, userinfo, or tabs and newlines inside the URL, so for example `http://x:abc` and `http://@` are accepted here although `new URL` throws.
- Urls.IsHttpUrl: stands for the scraper's `isValidUrl`, whose file (`utils/check-url.ts`) is not part of this model. It is modelled as Urls.IsUrl with an http or https scheme in any case; what `isValidUrl` really accepts may differ.
- Urls.IsUuid: is the 8-4-4-4-12 hex-digit shape, in either case, as zod 3's `.uuid()` checks it. The zod version is not fixed by the files of this model; zod 4's `.uuid()` also restricts the version and variant digits, which is not modelled.
- One shared database: every repository in the source uses the single Prisma client of `DatabaseConnection.getInstance()`, so the ingestion service and the API service see the same rows. Here each constructed PoliciesRepository (and so each PoliciesService and IngestionService) owns a private in-memory table, so a policy stored through one service is not visible through another constructed separately.
- ApiClient.DistinctSorted: orders by code point, while JavaScript's default sort compares UTF-16 units. The two differ only for astral characters.
- `Number()`, `toString()` and URL encoding are parameters or unbounded integers. A number's truthiness is modelled as non-zero, so NaN is not modelled.
- HomePage.HomeFilters.constructor: takes the initial page as an integer. It does not model `parseInt` of the `page` parameter.
- HomePage.Merge: a patch field that is present but set to `undefined` is modelled as absent.
- The HTTP wiring is not modelled: routes, the controller and its un-awaited calls, the server and the test helper. The ingestion script is left out because its point is concurrency.
- Timers are not modelled: `useDebounce`, the refresh and copy resets. The debounce is modelled as the effect that runs once the value settles.
- The React Query hooks, the toasts, the JSX, the clipboard, the Blob download, the date formatting and the "recent" count are not modelled.
- The categories loading effect and the `isLoading` flag of the filter panel are not modelled; only its filter transitions are.

## Findings

| source | as written | input that shows it | evidently intended | confidence | as-written member | corrected member |
|---|---|---|---|---|---|---|
| frontend/src/lib/constants.ts:48-52 | `CATEGORY_COLORS[category] \|\| CATEGORY_COLORS.OUTROS` also finds `Object.prototype` members; latent, since `getCategoryColor` has no caller | category `"constructor"` yields the Object function, not a class string | unlisted names get the `OUTROS` colour | not executed | Constants.CategoryColorFindsConstructor | Constants.CategoryColor |
| backend/src/modules/ai/ai.service.ts:109-136 | `descriptions[category] \|\| 'Descrição não disponível'` also finds `Object.prototype` members; latent, since no caller passes a name outside the category list | category `"constructor"` yields the Object function | unknown names get `Descrição não disponível` | not executed | Classification.DescriptionAsWrittenFindsConstructor | Classification.Description |
| frontend/src/components/policies/policy-card.tsx:32-42 | `colors[category] \|\| 'bg-muted …'` also finds `Object.prototype` members (same in policy-details.tsx:31-41); latent for `"constructor"`, since the API's categories pass `z.enum`; the reachable effect is that every real category gets the muted class (PolicyBadge.LabelsAreMuted) | category `"constructor"` yields the Object function as a class name | other names get the muted class | not executed | PolicyBadge.BadgeColorFindsConstructor | PolicyBadge.BadgeColor |
| frontend/src/lib/query-client.ts:11-13 | no retry when the error message contains the character `4` anywhere | a 504 response, message `API Error 504: `, is never retried | no retry on 4xx client errors only | not executed | QueryClient.AsWrittenStopsGatewayTimeout | QueryClient.RetryOnStatus |
