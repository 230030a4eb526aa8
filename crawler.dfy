/**
 * The search orchestrator (src/crawler.py): ordered proxy failover for the
 * search request, category-gated result building, and per-repository
 * enrichment. HTML parsing and link absolutisation are not modelled: a
 * response carries the links the item selector located, and an enrichment
 * page carries the matches of its four selectors.
 */
module Crawler {
  import opened Wrappers
  import opened Schemas
  import opened Proxy

  /** The three language values of a repository page; `None` is a JSON null. */
  datatype LanguageStats = LanguageStats(css: Option<string>, javaScript: Option<string>, html: Option<string>)

  datatype Extra = Extra(owner: Option<string>, languageStats: LanguageStats)

  /**
   * One output entry. `Plain(u)` is `{"url": u}` with no `extra` key;
   * `Enriched(u, None)` is `{"url": u, "extra": null}`;
   * `Enriched(u, Some(e))` is `{"url": u, "extra": e}`.
   */
  datatype Item = Plain(url: string) | Enriched(url: string, extra: Option<Extra>)

  /**
   * What fetching one repository page ended with: a transport error
   * (`RequestError`), or a page with its status and the matches of the
   * owner, CSS, HTML and JavaScript selectors, in document order.
   */
  datatype FetchOutcome =
    | FetchFailed
    | Page(status: int, ownerMatches: seq<string>, cssMatches: seq<string>,
           htmlMatches: seq<string>, jsMatches: seq<string>)

  /** The statuses `raise_for_status` lets through. */
  predicate IsSuccess(status: int)
  {
    200 <= status <= 299
  }

  predicate Fetched(outcome: FetchOutcome)
  {
    outcome.Page? && IsSuccess(outcome.status)
  }

  /** `xs[0] if xs else None`. */
  function FirstMatch(matches: seq<string>): (r: Option<string>)
    ensures r.None? <==> |matches| == 0
    ensures r.Some? ==> r.value in matches && r.value == matches[0]
  {
    if matches == [] then None else Some(matches[0])
  }

  /** `v` is the first of `matches`, or `None` exactly when there is none. */
  ghost predicate IsFirstMatch(v: Option<string>, matches: seq<string>)
  {
    (v.None? <==> matches == []) && (v.Some? ==> v.value == matches[0])
  }

  /** `get_repository_extra_data`: never fails; a failed fetch or bad status gives the null-extra sentinel. */
  function GetRepositoryExtraData(url: string, outcome: FetchOutcome): (r: Item)
    ensures r.Enriched? && r.url == url
    ensures r.extra.None? <==> !Fetched(outcome)
  {
    if !Fetched(outcome) then Enriched(url, None)
    else
      var stats := LanguageStats(FirstMatch(outcome.cssMatches), FirstMatch(outcome.jsMatches),
                                 FirstMatch(outcome.htmlMatches));
      Enriched(url, Some(Extra(FirstMatch(outcome.ownerMatches), stats)))
  }

  /** On a fetched page each field is its selector's first match, or null when the selector found nothing. */
  lemma ExtraFieldsAreFirstMatches(url: string, outcome: FetchOutcome)
    requires Fetched(outcome)
    ensures GetRepositoryExtraData(url, outcome).extra.Some?
    ensures var e := GetRepositoryExtraData(url, outcome).extra.value;
            IsFirstMatch(e.owner, outcome.ownerMatches)
            && IsFirstMatch(e.languageStats.css, outcome.cssMatches)
            && IsFirstMatch(e.languageStats.javaScript, outcome.jsMatches)
            && IsFirstMatch(e.languageStats.html, outcome.htmlMatches)
  {
  }

  /** A 404 page, or a transport error, gives exactly `{"url": url, "extra": null}`. */
  lemma FailedFetchIsSentinel(url: string)
    ensures GetRepositoryExtraData(url, Page(404, ["octocat"], ["1.5%"], [], [])) == Enriched(url, None)
    ensures GetRepositoryExtraData(url, FetchFailed) == Enriched(url, None)
  {
  }

  /** A fetched page on which no selector matches gives every field null, but an `extra` object all the same. */
  lemma NoMatchesGiveNullFields(url: string)
    ensures GetRepositoryExtraData(url, Page(200, [], [], [], []))
            == Enriched(url, Some(Extra(None, LanguageStats(None, None, None))))
  {
  }

  /** The query parameters of the search request: `q` and `type`. */
  datatype Query = Query(q: string, searchType: string)

  /** `" ".join(words)`. */
  function JoinWords(words: seq<string>): (r: string)
    ensures words == [] ==> r == ""
    ensures |words| == 1 ==> r == words[0]
    ensures |words| == 2 ==> r == words[0] + " " + words[1]
  {
    if words == [] then ""
    else if |words| == 1 then words[0]
    else words[0] + " " + JoinWords(words[1..])
  }

  /** The `q` and `type` parameters of the search request; `type` encodes the category recoverably. */
  function QueryOf(params: SearchParams): (r: Query)
    ensures SearchTypeOf(r.searchType) == Some(params.searchType)
    ensures |params.keywords| == 1 ==> r.q == params.keywords[0]
  {
    ValueRoundTrip(params.searchType);
    Query(JoinWords(params.keywords), params.searchType.Value())
  }

  /** Joining two non-empty word lists puts exactly one space between their joins. */
  lemma {:induction false} JoinWordsAppend(a: seq<string>, b: seq<string>)
    requires a != [] && b != []
    ensures JoinWords(a + b) == JoinWords(a) + " " + JoinWords(b)
  {
    if |a| == 1 {
      assert (a + b)[1..] == b;
    } else {
      assert (a + b)[1..] == a[1..] + b;
      JoinWordsAppend(a[1..], b);
    }
  }

  /**
   * What one search request through a proxy ended with: a transport error
   * (`RequestError`: connection failure, timeout, proxy failure), or a
   * response with its status and the item links located on the page, in
   * page order.
   */
  datatype SearchOutcome = Transport | Response(status: int, links: seq<string>)

  predicate Wins(outcome: SearchOutcome)
  {
    outcome.Response? && outcome.status == 200
  }

  /** The position of the first ranked proxy whose search response has status 200, or `|ranked|` if none. */
  function FirstWinner(ranked: seq<string>, query: Query, search: (string, Query) -> SearchOutcome): (k: nat)
    ensures k <= |ranked|
    ensures forall j :: 0 <= j < k ==> !Wins(search(ranked[j], query))
    ensures k < |ranked| ==> Wins(search(ranked[k], query))
  {
    if ranked == [] then 0
    else if Wins(search(ranked[0], query)) then 0
    else 1 + FirstWinner(ranked[1..], query, search)
  }

  /** `[{"url": u} for u in links]`. */
  function PlainItems(links: seq<string>): (r: seq<Item>)
    ensures |r| == |links|
    ensures forall i :: 0 <= i < |links| ==> r[i].Plain? && r[i].url == links[i]
  {
    if links == [] then [] else [Plain(links[0])] + PlainItems(links[1..])
  }

  /** The gathered enrichments through the winning proxy: entry `i` belongs to link `i`, whatever the completion order. */
  function EnrichAll(links: seq<string>, proxy: string, fetch: (string, string) -> FetchOutcome): (r: seq<Item>)
    ensures |r| == |links|
    ensures forall i :: 0 <= i < |links| ==> r[i] == GetRepositoryExtraData(links[i], fetch(proxy, links[i]))
  {
    if links == [] then []
    else [GetRepositoryExtraData(links[0], fetch(proxy, links[0]))] + EnrichAll(links[1..], proxy, fetch)
  }

  /** The items built from the winning page: enriched for repositories, URL-only otherwise. */
  function PageItems(searchType: SearchType, links: seq<string>, proxy: string,
                     fetch: (string, string) -> FetchOutcome): (r: seq<Item>)
    ensures |r| == |links|
    ensures forall i :: 0 <= i < |links| ==> r[i].url == links[i]
    ensures forall i :: 0 <= i < |links| ==> (r[i].Plain? <==> searchType != Repositories)
  {
    if searchType == Repositories then EnrichAll(links, proxy, fetch) else PlainItems(links)
  }

  /** What the failover loop returns for a ranked list. */
  function Failover(ranked: seq<string>, searchType: SearchType, query: Query,
                    search: (string, Query) -> SearchOutcome, fetch: (string, string) -> FetchOutcome): (r: seq<Item>)
    ensures var k := FirstWinner(ranked, query, search);
            (k == |ranked| ==> r == [])
            && (k < |ranked| ==> |r| == |search(ranked[k], query).links|)
  {
    var k := FirstWinner(ranked, query, search);
    if k == |ranked| then [] else PageItems(searchType, search(ranked[k], query).links, ranked[k], fetch)
  }

  /** The proxies the failover loop sends a search request through, in order: up to and including the winner. */
  function Tried(ranked: seq<string>, query: Query, search: (string, Query) -> SearchOutcome): (r: seq<string>)
    ensures |r| <= |ranked| && r == ranked[..|r|]
    ensures ranked != [] ==> r != []
  {
    var k := FirstWinner(ranked, query, search);
    if k == |ranked| then ranked else ranked[..k + 1]
  }

  /**
   * `get_search_results`: normalises and ranks the pool, returns `[]` at once
   * when no proxy is live, and otherwise runs the failover loop over the
   * ranked proxies. `tried` lists the proxies a search request was sent
   * through, in the order sent.
   */
  method GetSearchResults(params: SearchParams, probe: string -> ProbeOutcome,
                          search: (string, Query) -> SearchOutcome,
                          fetch: (string, string) -> FetchOutcome)
    returns (result: seq<Item>, tried: seq<string>)
    ensures var ranked := RankedProxies(FormatProxy(params.proxies), probe);
            result == Failover(ranked, params.searchType, QueryOf(params), search, fetch)
            && tried == Tried(ranked, QueryOf(params), search)
    ensures RankedProxies(FormatProxy(params.proxies), probe) == [] ==> result == [] && tried == []
  {
    var proxies := FormatProxy(params.proxies);
    var best := ProxyFilter(proxies, probe);
    if best == [] {
      return [], [];
    }
    result, tried := SearchInRankOrder(best, params.searchType, QueryOf(params), search, fetch);
  }

  /**
   * The `for proxy in best_proxies` loop: one search request per proxy, in
   * rank order; a transport error or a non-200 response moves on, and the
   * first status-200 response builds the result and ends the loop.
   */
  method SearchInRankOrder(best: seq<string>, searchType: SearchType, query: Query,
                           search: (string, Query) -> SearchOutcome,
                           fetch: (string, string) -> FetchOutcome)
    returns (result: seq<Item>, tried: seq<string>)
    ensures result == Failover(best, searchType, query, search, fetch)
    ensures tried == Tried(best, query, search)
  {
    result := [];
    tried := [];
    var i := 0;
    while i < |best|
      invariant 0 <= i <= |best|
      invariant forall j :: 0 <= j < i ==> !Wins(search(best[j], query))
      invariant tried == best[..i]
      invariant result == []
    {
      var proxy := best[i];
      tried := tried + [proxy];
      assert tried == best[..i + 1];
      match search(proxy, query) {
        case Transport =>
          // RequestError: move on to the next proxy
        case Response(status, links) =>
          if status == 200 {
            if searchType == Repositories {
              result := EnrichAll(links, proxy, fetch);
            } else {
              result := PlainItems(links);
            }
            break;
          }
      }
      i := i + 1;
    }
  }

  /** The proxies tried are a prefix of the ranking; all but the last failed, and the last is the winner unless all failed. */
  lemma TriedIsOrderedPrefix(ranked: seq<string>, query: Query, search: (string, Query) -> SearchOutcome)
    ensures var tried := Tried(ranked, query, search);
            tried == ranked[..|tried|]
            && (ranked != [] ==> tried != [])
            && (forall j :: 0 <= j < |tried| - 1 ==> !Wins(search(tried[j], query)))
            && (|tried| < |ranked| ==> tried != [] && Wins(search(tried[|tried| - 1], query)))
  {
  }

  /** A transport error or a non-200 response leaves the result to the remaining proxies. */
  lemma {:induction false} NonWinnerMovesOn(ranked: seq<string>, searchType: SearchType, query: Query,
                                            search: (string, Query) -> SearchOutcome,
                                            fetch: (string, string) -> FetchOutcome)
    requires ranked != [] && !Wins(search(ranked[0], query))
    ensures Failover(ranked, searchType, query, search, fetch)
            == Failover(ranked[1..], searchType, query, search, fetch)
    ensures Tried(ranked, query, search) == [ranked[0]] + Tried(ranked[1..], query, search)
  {
    var k := FirstWinner(ranked[1..], query, search);
    assert FirstWinner(ranked, query, search) == k + 1;
    if k < |ranked[1..]| {
      assert ranked[k + 1] == ranked[1..][k];
      assert ranked[..k + 2] == [ranked[0]] + ranked[1..][..k + 1];
    } else {
      assert ranked == [ranked[0]] + ranked[1..];
    }
  }

  /** The first status-200 response wins: its page gives the result and nothing after it is tried. */
  lemma WinnerStops(ranked: seq<string>, searchType: SearchType, query: Query,
                    search: (string, Query) -> SearchOutcome, fetch: (string, string) -> FetchOutcome)
    requires ranked != [] && Wins(search(ranked[0], query))
    ensures Failover(ranked, searchType, query, search, fetch)
            == PageItems(searchType, search(ranked[0], query).links, ranked[0], fetch)
    ensures Tried(ranked, query, search) == [ranked[0]]
  {
  }

  /** With no status-200 response anywhere, every proxy is tried and the result is `[]`. */
  lemma NoWinnerGivesEmpty(ranked: seq<string>, searchType: SearchType, query: Query,
                           search: (string, Query) -> SearchOutcome, fetch: (string, string) -> FetchOutcome)
    requires forall j :: 0 <= j < |ranked| ==> !Wins(search(ranked[j], query))
    ensures Failover(ranked, searchType, query, search, fetch) == []
    ensures Tried(ranked, query, search) == ranked
  {
  }

  lemma {:induction false} FirstWinnerDependsOnTried(ranked: seq<string>, query: Query,
                                                     s1: (string, Query) -> SearchOutcome,
                                                     s2: (string, Query) -> SearchOutcome)
    requires forall j :: 0 <= j < |Tried(ranked, query, s1)| ==> s1(ranked[j], query) == s2(ranked[j], query)
    ensures FirstWinner(ranked, query, s1) == FirstWinner(ranked, query, s2)
  {
    if ranked != [] {
      assert |Tried(ranked, query, s1)| > 0;
      if !Wins(s1(ranked[0], query)) {
        var rest := ranked[1..];
        var k := FirstWinner(rest, query, s1);
        assert FirstWinner(ranked, query, s1) == k + 1;
        assert |Tried(rest, query, s1)| + 1 == |Tried(ranked, query, s1)|;
        forall j | 0 <= j < |Tried(rest, query, s1)| ensures s1(rest[j], query) == s2(rest[j], query) {
          assert rest[j] == ranked[j + 1];
        }
        FirstWinnerDependsOnTried(rest, query, s1, s2);
      }
    }
  }

  /** Proxies after the winner are never consulted: outcomes that agree on the tried proxies give the same search. */
  lemma LaterProxiesNeverConsulted(ranked: seq<string>, searchType: SearchType, query: Query,
                                   s1: (string, Query) -> SearchOutcome, s2: (string, Query) -> SearchOutcome,
                                   fetch: (string, string) -> FetchOutcome)
    requires forall j :: 0 <= j < |Tried(ranked, query, s1)| ==> s1(ranked[j], query) == s2(ranked[j], query)
    ensures Failover(ranked, searchType, query, s1, fetch) == Failover(ranked, searchType, query, s2, fetch)
    ensures Tried(ranked, query, s1) == Tried(ranked, query, s2)
  {
    FirstWinnerDependsOnTried(ranked, query, s1, s2);
  }

  /** For Issues and Wikis, one URL-only item per located link, in page order. */
  lemma NonRepositoryItemsAreUrlOnly(searchType: SearchType, links: seq<string>, proxy: string,
                                     fetch: (string, string) -> FetchOutcome)
    requires searchType != Repositories
    ensures var r := PageItems(searchType, links, proxy, fetch);
            |r| == |links| && forall i :: 0 <= i < |links| ==> r[i] == Plain(links[i])
  {
  }

  /**
   * For Repositories, item `i` is the enrichment of link `i` through the
   * winning proxy; a failed fetch nulls only its own item's `extra`.
   */
  lemma RepositoryItemsArePositional(links: seq<string>, proxy: string,
                                     fetch: (string, string) -> FetchOutcome, k: nat)
    requires k < |links| && !Fetched(fetch(proxy, links[k]))
    ensures var r := PageItems(Repositories, links, proxy, fetch);
            |r| == |links|
            && r[k] == Enriched(links[k], None)
            && forall i :: 0 <= i < |links| ==> r[i].Enriched? && r[i].url == links[i]
                                                 && (r[i].extra.None? <==> !Fetched(fetch(proxy, links[i])))
  {
  }

  /** An empty or all-dead pool gives `[]` with no search request sent. */
  lemma DeadPoolSendsNoSearch(params: SearchParams, probe: string -> ProbeOutcome,
                              search: (string, Query) -> SearchOutcome, fetch: (string, string) -> FetchOutcome)
    requires forall i :: 0 <= i < |params.proxies| ==> !IsAlive(probe(Normalize(params.proxies[i])))
    ensures var ranked := RankedProxies(FormatProxy(params.proxies), probe);
            ranked == []
            && Failover(ranked, params.searchType, QueryOf(params), search, fetch) == []
            && Tried(ranked, QueryOf(params), search) == []
  {
    AllDeadRanksEmpty(FormatProxy(params.proxies), probe);
  }

  /** Proxy #1 fails at transport level, proxy #2 answers 200 with two links: two entries, both proxies tried once. */
  lemma FailoverScenario()
    ensures var ranked := ["http://10.0.0.1:8080", "http://10.0.0.2:8080"];
            var query := Query("openstack nova css", "Wikis");
            var search := (p: string, q: Query) =>
              if p == "http://10.0.0.1:8080" then Transport
              else Response(200, ["https://github.com/a/b/wiki/Home", "https://github.com/c/d/wiki/Home"]);
            var fetch := (p: string, u: string) => FetchFailed;
            Failover(ranked, Wikis, query, search, fetch)
              == [Plain("https://github.com/a/b/wiki/Home"), Plain("https://github.com/c/d/wiki/Home")]
            && Tried(ranked, query, search) == ranked
  {
    var ranked := ["http://10.0.0.1:8080", "http://10.0.0.2:8080"];
    var query := Query("openstack nova css", "Wikis");
    var links := ["https://github.com/a/b/wiki/Home", "https://github.com/c/d/wiki/Home"];
    var search := (p: string, q: Query) =>
      if p == "http://10.0.0.1:8080" then Transport else Response(200, links);
    var fetch := (p: string, u: string) => FetchFailed;
    assert ranked[0] != ranked[1] by {
      assert ranked[0][14] != ranked[1][14];
    }
    NonWinnerMovesOn(ranked, Wikis, query, search, fetch);
    assert ranked[1..] == ["http://10.0.0.2:8080"];
    WinnerStops(ranked[1..], Wikis, query, search, fetch);
    var items := PlainItems(links);
    assert items[0] == Plain(links[0]) && items[1] == Plain(links[1]);
  }
}
