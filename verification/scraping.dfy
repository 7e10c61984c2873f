/** The control side of backend/src/modules/scraping/scraping.service.ts: which
    capture path runs for a URL, how failures and thrown errors become results,
    the batch over several URLs, and the lazily launched browser held in the
    service's `browser` field. The network and the browser are inputs (`Net`):
    each says what one path would load or throw. */
module Scraping {
  import opened Wrappers
  import opened Strings
  import opened Urls
  import opened ScrapingText
  import opened PolicyTypes

  /** `IScrapingResult` */
  datatype ScrapeResult = ScrapeResult(success: bool, data: Option<PolicyInput>, error: Option<string>)

  const InvalidUrlMessage := "URL inválida fornecida"
  const InvalidUrlResult := ScrapeResult(false, None, Some(InvalidUrlMessage))

  /** The URLs scraped when the batch is given none. */
  const PredefinedUrls: seq<string> := [
    "https://policies.google.com/privacy",
    "https://www.facebook.com/privacy/policy",
    "https://www.microsoft.com/privacy/privacystatement",
    "https://www.apple.com/privacy/privacy-policy",
    "https://www.amazon.com/gp/help/customer/display.html?nodeId=468496"
  ]

  /** What one capture path gets: the loaded page, or the error it throws. */
  datatype Fetch = Loaded(page: Page) | FetchFailed(reason: Thrown)

  /** The world one `scrapePolicyFromURL` call meets: the plain fetch's outcome,
      what launching the browser and opening a tab throw (if anything), and the
      browser fetch's outcome. */
  datatype Net = Net(axios: Fetch, launch: Option<Thrown>, newPage: Option<Thrown>, browser: Fetch)

  /** The service's browser field and the number of browsers launched so far; a
      launched browser is identified by that count at its launch. */
  datatype BrowserState = BrowserState(browser: Option<nat>, launched: nat)

  /** `extractPolicyData`, once the selectors have produced `page`. */
  function ExtractPolicyData(page: Page, url: string, capture: Method, removers: seq<string -> string>)
    : (p: PolicyInput)
    ensures p.sourceUrl == url && p.category == "" && p.capture == Some(capture)
    ensures p.title == "" <==> RawTitle(page) == ""
    ensures '!' !in p.content && '?' !in p.content
  {
    CleanedHasNoBangOrQuestion(MainText(page), removers);
    PolicyInput(url, CleanTitle(RawTitle(page)), CleanedText(MainText(page), removers), "", Some(capture))
  }

  /** `scrapeWithAxios`: it catches everything the fetch throws. */
  function AxiosResult(url: string, fetch: Fetch, removers: seq<string -> string>): (r: ScrapeResult)
    ensures r.success <==> fetch.Loaded?
    ensures Wellformed(r, url, Axios)
  {
    match fetch
    case Loaded(page) => ScrapeResult(true, Some(ExtractPolicyData(page, url, Axios, removers)), None)
    case FetchFailed(e) => ScrapeResult(false, None, Some("Axios falhou: " + Describe(e)))
  }

  /** A success carries no error and the record of `url` made by `capture`; a
      failure carries a message and no record. */
  predicate Wellformed(r: ScrapeResult, url: string, capture: Method) {
    if r.success then
      r.error == None && r.data.Some? && r.data.value.sourceUrl == url && r.data.value.capture == Some(capture)
    else
      r.data == None && r.error.Some?
  }

  /** `getBrowser`: the held browser, else a newly launched one, else the launch
      error (the field stays empty). */
  function OpenBrowser(st: BrowserState, launch: Option<Thrown>): (r: Result<BrowserState, Thrown>)
    ensures st.browser.Some? ==> r == Success(st)
    ensures r.Success? ==> r.value.browser.Some? && r.value.launched <= st.launched + 1
    ensures r.Success? && st.browser.None? ==> r.value.launched == st.launched + 1
  {
    if st.browser.Some? then Success(st)
    else if launch.Some? then Failure(launch.value)
    else Success(BrowserState(Some(st.launched), st.launched + 1))
  }

  /** How a call ends: with a result, or by throwing past its own `catch`. */
  datatype Run = Returned(result: ScrapeResult, state: BrowserState) | Threw(reason: Thrown, state: BrowserState)

  /** `scrapeWithPuppeteer`: opening the browser and the tab happen before its
      `try`, so what they throw escapes; what the page load throws is caught. */
  function PuppeteerRun(url: string, st: BrowserState, net: Net, removers: seq<string -> string>)
    : (run: Run)
    ensures run.state.browser.Some? || run.state == st
    ensures run.Returned? ==> (run.result.success <==> net.browser.Loaded?)
    ensures run.Returned? ==> Wellformed(run.result, url, Puppeteer)
  {
    match OpenBrowser(st, net.launch)
    case Failure(e) => Threw(e, st)
    case Success(held) =>
      if net.newPage.Some? then Threw(net.newPage.value, held)
      else
        match net.browser
        case Loaded(page) =>
          Returned(ScrapeResult(true, Some(ExtractPolicyData(page, url, Puppeteer, removers)), None), held)
        case FetchFailed(e) =>
          Returned(ScrapeResult(false, None, Some("Puppeteer falhou: " + Describe(e))), held)
  }

  function CaughtMessage(url: string, e: Thrown): string {
    "Erro ao fazer scraping da URL " + url + ": " + Describe(e)
  }

  /** The outer `catch` of `scrapePolicyFromURL`. */
  function Caught(url: string, run: Run): (r: ScrapeResult)
    ensures run.Threw? ==> r == ScrapeResult(false, None, Some(CaughtMessage(url, run.reason)))
    ensures run.Returned? ==> r == run.result
  {
    match run
    case Returned(result, _) => result
    case Threw(e, _) => ScrapeResult(false, None, Some(CaughtMessage(url, e)))
  }

  /** One scrape: its result, the paths tried in order, and the browser state after. */
  datatype Report = Report(result: ScrapeResult, attempted: seq<Method>, state: BrowserState)

  /** `scrapePolicyFromURL`. */
  function Scrape(url: string, preferred: Option<Method>, st: BrowserState, net: Net,
                  removers: seq<string -> string>): (r: Report)
    // An invalid URL is answered at once and nothing is fetched.
    ensures !IsHttpUrl(url) ==> r == Report(InvalidUrlResult, [], st)
  {
    if !IsHttpUrl(url) then Report(InvalidUrlResult, [], st)
    else if preferred == Some(Axios) then Report(AxiosResult(url, net.axios, removers), [Axios], st)
    else if preferred == Some(Puppeteer) then
      var run := PuppeteerRun(url, st, net, removers);
      Report(Caught(url, run), [Puppeteer], run.state)
    else
      var simple := AxiosResult(url, net.axios, removers);
      if simple.success then Report(simple, [Axios], st)
      else
        var run := PuppeteerRun(url, st, net, removers);
        Report(Caught(url, run), [Axios, Puppeteer], run.state)
  }

  /** Which paths `scrapePolicyFromURL` tries: a preferred method alone; otherwise
      the plain fetch first, and the browser only after the plain fetch failed. */
  lemma ScrapeSelectsPath(url: string, preferred: Option<Method>, st: BrowserState, net: Net,
                          removers: seq<string -> string>)
    requires IsHttpUrl(url)
    ensures preferred.Some? ==> Scrape(url, preferred, st, net, removers).attempted == [preferred.value]
    ensures preferred.None? ==>
      Scrape(url, preferred, st, net, removers).attempted == (if AxiosResult(url, net.axios, removers).success then [Axios] else [Axios, Puppeteer])
  {
    if preferred.Some? && preferred != Some(Axios) {
      assert preferred.value == Puppeteer;
    }
  }

  /** `scrapePolicyFromURL` never throws: a success is the record of the URL made
      by the last path tried, and what opening the browser throws becomes a
      failure naming the URL. */
  lemma ScrapeResultShape(url: string, preferred: Option<Method>, st: BrowserState, net: Net,
                          removers: seq<string -> string>)
    ensures var r := Scrape(url, preferred, st, net, removers);
      r.attempted == [] ==> r.result == InvalidUrlResult
    ensures var r := Scrape(url, preferred, st, net, removers);
      r.attempted != [] ==> Wellformed(r.result, url, r.attempted[|r.attempted| - 1])
    ensures var r := Scrape(url, preferred, st, net, removers);
      !r.result.success ==> r.result.data == None && r.result.error.Some?
    ensures var r := Scrape(url, preferred, st, net, removers);
      Puppeteer in r.attempted && PuppeteerRun(url, st, net, removers).Threw? ==>
        r.result.error == Some(CaughtMessage(url, PuppeteerRun(url, st, net, removers).reason))
  {
  }

  /** Only the browser path touches the browser field, an open browser is reused,
      and one scrape launches at most one browser. */
  lemma ScrapeBrowserUse(url: string, preferred: Option<Method>, st: BrowserState, net: Net,
                         removers: seq<string -> string>)
    ensures var r := Scrape(url, preferred, st, net, removers);
      Puppeteer !in r.attempted || st.browser.Some? ==> r.state == st
    ensures var r := Scrape(url, preferred, st, net, removers);
      r.state.launched <= st.launched + 1 && (r.state.launched == st.launched + 1 ==> r.state.browser.Some?)
  {
  }

  /** One pass of the batch loop: its own validity check, then the scrape. */
  function Step(url: string, st: BrowserState, net: Net, removers: seq<string -> string>): Report {
    if !IsHttpUrl(url) then Report(InvalidUrlResult, [], st)
    else Scrape(url, None, st, net, removers)
  }

  /** The loop's own check answers exactly as `scrapePolicyFromURL` would. */
  lemma StepIsScrape(url: string, st: BrowserState, net: Net, removers: seq<string -> string>)
    ensures Step(url, st, net, removers) == Scrape(url, None, st, net, removers)
  {
  }

  datatype BatchReport = BatchReport(results: seq<ScrapeResult>, state: BrowserState)

  /** `scrapeMultipleUrls` over a list, the `k`-th scrape meeting `netAt(k)`. */
  function Batch(urls: seq<string>, st: BrowserState, netAt: nat -> Net, removers: seq<string -> string>)
    : (b: BatchReport)
    ensures |b.results| == |urls|
    decreases |urls|
  {
    if urls == [] then BatchReport([], st)
    else
      var before := Batch(urls[..|urls| - 1], st, netAt, removers);
      var step := Step(urls[|urls| - 1], before.state, netAt(|urls| - 1), removers);
      BatchReport(before.results + [step.result], step.state)
  }

  /** `urls || this.predefinedUrls`: an absent list means the five predefined URLs
      (an empty list is kept, being truthy). */
  function UrlsToScrape(urls: Option<seq<string>>): (list: seq<string>)
    ensures urls.None? ==> |list| == 5
  {
    if urls.Some? then urls.value else PredefinedUrls
  }

  /** One more URL runs one more step from the state the others left. */
  lemma BatchSnoc(urls: seq<string>, st: BrowserState, netAt: nat -> Net, removers: seq<string -> string>)
    requires urls != []
    ensures var before := Batch(urls[..|urls| - 1], st, netAt, removers);
      var step := Step(urls[|urls| - 1], before.state, netAt(|urls| - 1), removers);
      Batch(urls, st, netAt, removers) == BatchReport(before.results + [step.result], step.state)
  {
  }

  /** The batch is the scrapes of the URLs in order, each starting from the
      browser state the earlier ones left. */
  lemma {:induction false} BatchInOrder(urls: seq<string>, st: BrowserState, netAt: nat -> Net,
                                        removers: seq<string -> string>, i: nat)
    requires i < |urls|
    ensures Batch(urls, st, netAt, removers).results[i]
      == Step(urls[i], Batch(urls[..i], st, netAt, removers).state, netAt(i), removers).result
    decreases |urls|
  {
    var n := |urls|;
    var init := urls[..n - 1];
    BatchSnoc(urls, st, netAt, removers);
    if i < n - 1 {
      BatchInOrder(init, st, netAt, removers, i);
      assert init[..i] == urls[..i];
      assert init[i] == urls[i];
    } else {
      assert urls[..i] == init;
    }
  }

  /** Every invalid URL of the batch gets the invalid-URL failure, and every
      success is the record of its own URL. */
  lemma BatchPerUrl(urls: seq<string>, st: BrowserState, netAt: nat -> Net,
                    removers: seq<string -> string>, i: nat)
    requires i < |urls|
    ensures !IsHttpUrl(urls[i]) ==> Batch(urls, st, netAt, removers).results[i] == InvalidUrlResult
    ensures Batch(urls, st, netAt, removers).results[i].success ==>
      Batch(urls, st, netAt, removers).results[i].data.Some?
      && Batch(urls, st, netAt, removers).results[i].data.value.sourceUrl == urls[i]
  {
    BatchInOrder(urls, st, netAt, removers, i);
    var before := Batch(urls[..i], st, netAt, removers).state;
    StepIsScrape(urls[i], before, netAt(i), removers);
    ScrapeResultShape(urls[i], None, before, netAt(i), removers);
  }

  /** A batch launches at most one browser, and none when one is already open. */
  lemma {:induction false} BatchLaunchesOnce(urls: seq<string>, st: BrowserState, netAt: nat -> Net,
                                             removers: seq<string -> string>)
    ensures Batch(urls, st, netAt, removers).state.launched <= st.launched + 1
    ensures st.browser.Some? ==> Batch(urls, st, netAt, removers).state == st
    ensures Batch(urls, st, netAt, removers).state.launched == st.launched + 1 ==>
      Batch(urls, st, netAt, removers).state.browser.Some?
    decreases |urls|
  {
    if urls != [] {
      var before := Batch(urls[..|urls| - 1], st, netAt, removers);
      BatchLaunchesOnce(urls[..|urls| - 1], st, netAt, removers);
      StepIsScrape(urls[|urls| - 1], before.state, netAt(|urls| - 1), removers);
      ScrapeBrowserUse(urls[|urls| - 1], None, before.state, netAt(|urls| - 1), removers);
    }
  }

  /** The service: the browser handle it holds between calls and the boilerplate
      patterns its text cleanup applies. */
  class ScrapingService {
    var browser: Option<nat>
    var launched: nat
    const removers: seq<string -> string>

    function State(): BrowserState
      reads this
    {
      BrowserState(browser, launched)
    }

    constructor(removers: seq<string -> string>)
      ensures browser == None && launched == 0 && this.removers == removers
    {
      browser := None;
      launched := 0;
      this.removers := removers;
    }

    /** `getBrowser`: launches only when no browser is held. */
    method GetBrowser(launch: Option<Thrown>) returns (r: Result<nat, Thrown>)
      modifies this
      ensures old(browser).Some? ==> r == Success(old(browser).value) && State() == old(State())
      ensures old(browser).None? && launch.Some? ==> r == Failure(launch.value) && State() == old(State())
      ensures old(browser).None? && launch.None? ==>
        r == Success(old(launched)) && browser == Some(old(launched)) && launched == old(launched) + 1
    {
      if browser.None? {
        if launch.Some? {
          return Failure(launch.value);
        }
        browser := Some(launched);
        launched := launched + 1;
      }
      r := Success(browser.value);
    }

    /** `closeBrowser`: drops the held browser, so the next use launches anew. */
    method CloseBrowser()
      modifies this
      ensures browser == None && launched == old(launched)
    {
      browser := None;
    }

    /** `scrapeWithPuppeteer` */
    method ScrapeWithPuppeteer(url: string, net: Net) returns (run: Run)
      modifies this
      ensures run == PuppeteerRun(url, old(State()), net, removers) && State() == run.state
    {
      var handle := GetBrowser(net.launch);
      if handle.Failure? {
        return Threw(handle.error, State());
      }
      if net.newPage.Some? {
        return Threw(net.newPage.value, State());
      }
      match net.browser {
        case Loaded(page) =>
          var data := ExtractPolicyData(page, url, Puppeteer, removers);
          run := Returned(ScrapeResult(true, Some(data), None), State());
        case FetchFailed(e) =>
          run := Returned(ScrapeResult(false, None, Some("Puppeteer falhou: " + Describe(e))), State());
      }
    }

    /** `scrapePolicyFromURL` */
    method ScrapePolicyFromUrl(url: string, preferred: Option<Method>, net: Net) returns (r: ScrapeResult)
      modifies this
      ensures r == Scrape(url, preferred, old(State()), net, removers).result
      ensures State() == Scrape(url, preferred, old(State()), net, removers).state
    {
      if !IsHttpUrl(url) {
        return InvalidUrlResult;
      }
      if preferred == Some(Axios) {
        return AxiosResult(url, net.axios, removers);
      }
      if preferred == Some(Puppeteer) {
        var run := ScrapeWithPuppeteer(url, net);
        return Caught(url, run);
      }
      var simple := AxiosResult(url, net.axios, removers);
      if simple.success {
        return simple;
      }
      var run := ScrapeWithPuppeteer(url, net);
      r := Caught(url, run);
    }

    /** One pass of the batch loop: the invalid-URL answer, or the scrape. */
    method ScrapeBatchItem(url: string, net: Net) returns (r: ScrapeResult)
      modifies this
      ensures r == Step(url, old(State()), net, removers).result
      ensures State() == Step(url, old(State()), net, removers).state
    {
      if !IsHttpUrl(url) {
        return InvalidUrlResult;
      }
      StepIsScrape(url, State(), net, removers);
      r := ScrapePolicyFromUrl(url, None, net);
    }

    /** `scrapeMultipleUrls` */
    method ScrapeMultipleUrls(urls: Option<seq<string>>, netAt: nat -> Net) returns (results: seq<ScrapeResult>)
      modifies this
      ensures results == Batch(UrlsToScrape(urls), old(State()), netAt, removers).results
      ensures State() == Batch(UrlsToScrape(urls), old(State()), netAt, removers).state
    {
      var list := if urls.Some? then urls.value else PredefinedUrls;
      ghost var start := State();
      results := [];
      for k := 0 to |list|
        invariant Batch(list[..k], start, netAt, removers) == BatchReport(results, State())
      {
        assert list[..k + 1][..k] == list[..k];
        BatchSnoc(list[..k + 1], start, netAt, removers);
        var result := ScrapeBatchItem(list[k], netAt(k));
        results := results + [result];
      }
      assert list[..|list|] == list;
    }

    /** `scrapePredefinedUrls`: the batch over the five predefined URLs. */
    method ScrapePredefinedUrls(netAt: nat -> Net) returns (results: seq<ScrapeResult>)
      modifies this
      ensures |results| == 5
      ensures results == Batch(PredefinedUrls, old(State()), netAt, removers).results
      ensures State() == Batch(PredefinedUrls, old(State()), netAt, removers).state
    {
      results := ScrapeMultipleUrls(None, netAt);
    }
  }
}
