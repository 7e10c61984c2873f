/** backend/src/modules/ingestion/ingestion.service.ts: scrape a URL, classify what
    was scraped, store the result. The scraper's network, the language model and
    the JSON reader are inputs, as in the modules this one calls. */
module Ingestion {
  import opened Wrappers
  import opened Strings
  import opened PolicyTypes
  import opened Scraping
  import opened Classification
  import opened PolicyStore
  import opened PoliciesService

  const IngestError := "Falha na ingestão da política: "
  const ScrapeError := "Falha no scraping: "

  /** A template literal shows an absent error as `undefined`. */
  function Shown(error: Option<string>): (text: string)
    ensures error.Some? ==> text == error.value
    ensures error.None? ==> text == "undefined"
  {
    match error
    case Some(e) => e
    case None => "undefined"
  }

  /** A document handed to the classifier: its content and title. */
  datatype Question = Question(content: string, title: Option<string>)

  /** What one ingestion returns or throws, the documents it handed to the
      classifier, and the browser handle and table it leaves. */
  datatype IngestReport = IngestReport(
    outcome: Result<Policy, AppError>, asked: seq<Question>, browser: BrowserState, table: Table)

  /** The record handed to `createPolicy` for a scraped page. */
  function Record(url: string, data: PolicyInput, tag: string): (input: PolicyInput)
    ensures input.sourceUrl == url && input.category == tag
    ensures input.title == data.title && input.content == data.content && input.capture == data.capture
  {
    PolicyInput(url, data.title, data.content, tag, data.capture)
  }

  /** `ingestPolicyFromUrl`: the scrape, then the rest of the pipeline. */
  function Ingest(url: string, st: BrowserState, t: Table, net: Net, removers: seq<string -> string>,
                  complete: string -> Completion, parse: string -> Option<ParsedReply>): (r: IngestReport)
    ensures r.browser == Scrape(url, None, st, net, removers).state
  {
    var scraped := Scrape(url, None, st, net, removers);
    AfterScrape(url, scraped.result, scraped.state, t, Verdict(scraped.result, complete, parse))
  }

  /** The label `classifyPolicyContent` gives the scraped page; only consulted
      when the scrape produced a record. */
  function Verdict(res: ScrapeResult, complete: string -> Completion, parse: string -> Option<ParsedReply>): (tag: string)
    ensures tag in Categories
    ensures res.data.Some? ==> tag == Classify(res.data.value.content, Some(res.data.value.title), complete, parse).category
  {
    if res.data.Some? then Classify(res.data.value.content, Some(res.data.value.title), complete, parse).category
    else Other
  }

  /** What follows the scrape: a failed or empty result is thrown; otherwise the
      page is handed to the classifier, which answers `tag`, and the record is
      stored. */
  function AfterScrape(url: string, res: ScrapeResult, browser: BrowserState, t: Table, tag: string): (r: IngestReport)
    ensures r.browser == browser
  {
    if !res.success || res.data.None? then
      IngestReport(Failure(AppError(IngestError + ScrapeError + Shown(res.error), 500)), [], browser, t)
    else
      var data := res.data.value;
      var w := SaveSpec(t, Record(url, data, tag));
      var asked := [Question(data.content, Some(data.title))];
      match w.outcome
      case Success(p) => IngestReport(Success(p), asked, browser, w.table)
      case Failure(e) => IngestReport(Failure(AppError(IngestError + e.message, 500)), asked, browser, w.table)
  }

  /** A failed or empty scrape asks the language model nothing, writes nothing and
      fails with 500 and the scraper's error inside the ingestion message. */
  lemma ScrapeFailureStops(url: string, res: ScrapeResult, browser: BrowserState, t: Table, tag: string)
    requires !res.success || res.data.None?
    ensures var r := AfterScrape(url, res, browser, t, tag);
      r.asked == [] && r.table == t
      && r.outcome == Failure(AppError(IngestError + ScrapeError + Shown(res.error), 500))
  {
  }

  /** An invalid URL ends in the wrapped invalid-URL message, with nothing else
      touched. */
  lemma InvalidUrlFails(url: string, st: BrowserState, t: Table, net: Net, removers: seq<string -> string>,
                        complete: string -> Completion, parse: string -> Option<ParsedReply>)
    requires !Urls.IsHttpUrl(url)
    ensures Ingest(url, st, t, net, removers, complete, parse)
         == IngestReport(Failure(AppError(IngestError + ScrapeError + InvalidUrlMessage, 500)), [], st, t)
  {
  }

  lemma PrefixOf(a: string, b: string)
    ensures |a + b| >= |a| && (a + b)[..|a|] == a
  {
  }

  /** Every failure is one 500 error whose message is the ingestion prefix
      followed by the inner message. */
  lemma FailuresAreWrapped(url: string, res: ScrapeResult, browser: BrowserState, t: Table, tag: string)
    ensures var r := AfterScrape(url, res, browser, t, tag);
      r.outcome.Failure? ==>
        r.outcome.error.status == 500
        && |r.outcome.error.message| >= |IngestError|
        && r.outcome.error.message[..|IngestError|] == IngestError
  {
    if !res.success || res.data.None? {
      PrefixOf(IngestError, ScrapeError + Shown(res.error));
      assert IngestError + ScrapeError + Shown(res.error) == IngestError + (ScrapeError + Shown(res.error));
    } else {
      var data := res.data.value;
      var w := SaveSpec(t, Record(url, data, tag));
      if w.outcome.Failure? {
        PrefixOf(IngestError, w.outcome.error.message);
      }
    }
  }

  /** A successful scrape of a URL not yet stored always ends in a stored record,
      whatever the language model answers: the record carries the URL, the
      scraped title and content, the classifier's label (one of the twelve), no
      capture method, and is the new last row of the table. */
  lemma SuccessStores(url: string, res: ScrapeResult, browser: BrowserState, t: Table, tag: string)
    requires Consistent(t) && UrlIndex(t.rows, url) == |t.rows|
    requires res.success && res.data.Some?
    ensures var data := res.data.value;
      var r := AfterScrape(url, res, browser, t, tag);
      r.outcome.Success?
      && r.asked == [Question(data.content, Some(data.title))]
      && r.outcome.value.sourceUrl == url && r.outcome.value.title == data.title
      && r.outcome.value.content == data.content && r.outcome.value.capture == None
      && r.outcome.value.category == tag
      && r.table.rows == t.rows + [r.outcome.value]
      && GetById(r.table.rows, r.outcome.value.id) == Success(r.outcome.value)
  {
    var data := res.data.value;
    SaveStores(t, Record(url, data, tag));
  }

  /** The whole pipeline: a successful scrape of a new URL is stored with a label
      of the twelve, whatever the language model answers. */
  lemma IngestStores(url: string, st: BrowserState, t: Table, net: Net, removers: seq<string -> string>,
                     complete: string -> Completion, parse: string -> Option<ParsedReply>)
    requires Consistent(t) && UrlIndex(t.rows, url) == |t.rows|
    requires var res := Scrape(url, None, st, net, removers).result; res.success && res.data.Some?
    ensures var r := Ingest(url, st, t, net, removers, complete, parse);
      r.outcome.Success? && r.outcome.value.sourceUrl == url && r.outcome.value.category in Categories
      && GetById(r.table.rows, r.outcome.value.id) == Success(r.outcome.value)
  {
    var scraped := Scrape(url, None, st, net, removers);
    SuccessStores(url, scraped.result, scraped.state, t, Verdict(scraped.result, complete, parse));
  }

  /** A successful scrape of a URL already stored writes nothing and fails. */
  lemma DuplicateFails(url: string, res: ScrapeResult, browser: BrowserState, t: Table, tag: string)
    requires UrlIndex(t.rows, url) < |t.rows|
    requires res.success && res.data.Some?
    ensures var r := AfterScrape(url, res, browser, t, tag);
      r.outcome.Failure? && r.table == t
  {
  }

  lemma IngestKeepsConsistent(url: string, res: ScrapeResult, browser: BrowserState, t: Table, tag: string)
    requires Consistent(t)
    ensures Consistent(AfterScrape(url, res, browser, t, tag).table)
  {
    if res.success && res.data.Some? {
      var data := res.data.value;
      SaveKeepsConsistent(t, Record(url, data, tag));
    }
  }

  class IngestionService {
    const scraping: ScrapingService
    const policies: PoliciesService

    ghost predicate Valid()
      reads this, policies, policies.repository
    {
      policies.Valid()
    }

    constructor(removers: seq<string -> string>)
      ensures Valid() && fresh(scraping) && fresh(policies) && fresh(policies.repository)
      ensures scraping.State() == BrowserState(None, 0) && scraping.removers == removers
      ensures policies.repository.rows == []
    {
      scraping := new ScrapingService(removers);
      policies := new PoliciesService();
    }

    method IngestPolicyFromUrl(url: string, net: Net, complete: string -> Completion,
                               parse: string -> Option<ParsedReply>) returns (r: Result<Policy, AppError>)
      requires Valid()
      modifies scraping, policies.repository
      ensures Valid()
      ensures var report := Ingest(url, old(scraping.State()), old(policies.repository.Contents()), net,
                                   scraping.removers, complete, parse);
        r == report.outcome && scraping.State() == report.browser
        && policies.repository.Contents() == report.table
    {
      var res := scraping.ScrapePolicyFromUrl(url, None, net);
      r := Persist(url, res, complete, parse);
    }

    /** The part after the scrape, acting on the policies table only. */
    method Persist(url: string, res: ScrapeResult, complete: string -> Completion,
                   parse: string -> Option<ParsedReply>) returns (r: Result<Policy, AppError>)
      requires Valid()
      modifies policies.repository
      ensures Valid()
      ensures var report := AfterScrape(url, res, BrowserState(None, 0), old(policies.repository.Contents()),
                                        Verdict(res, complete, parse));
        r == report.outcome && policies.repository.Contents() == report.table
    {
      if !res.success || res.data.None? {
        return Failure(AppError(IngestError + ScrapeError + Shown(res.error), 500));
      }
      var data := res.data.value;
      var tag := Classify(data.content, Some(data.title), complete, parse).category;
      var created := policies.CreatePolicy(Record(url, data, tag));
      if created.Failure? {
        return Failure(AppError(IngestError + created.error.message, 500));
      }
      r := created;
    }
  }
}
