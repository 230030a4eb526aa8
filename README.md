# Proxied GitHub search crawler — verified Dafny model

This project models the decision logic of a crawler that searches GitHub
through a pool of public proxies. It covers three parts:

- **Proxy normalisation and ranking** (`src/proxy.py`). `format_proxy` prefixes
  `http://` to every endpoint that lacks it. `check_proxy` turns one liveness
  probe into a latency measurement only when the probe answered with status 200.
  `proxy_filter` gathers one probe result per proxy, drops the dead ones,
  sorts the survivors in place by latency with Python's stable `list.sort`, and
  returns the proxy strings.
- **Search failover** (`get_search_results` in `src/crawler.py`). An empty
  ranking returns `[]` at once. Otherwise the ranked proxies are tried in order,
  one search request each. A transport error or a non-200 response moves on to
  the next proxy. The first status-200 response builds the result and ends the
  loop. For Repositories every located link is enriched, position by position;
  for Issues and Wikis every link becomes a URL-only item.
- **Enrichment** (`get_repository_extra_data`). A failed fetch or a status
  outside 200–299 gives `{"url": u, "extra": null}`. Otherwise the owner and
  the CSS, JavaScript and HTML values are each the first match of their
  selector, or null when the selector matched nothing.

The network, the clock and the HTML parser are inputs, known only by outcome:

- `probe: string -> ProbeOutcome` is what a liveness probe through a proxy ended with.
  `ProbeResponse(status, elapsed)` carries the measured seconds.
- `search: (string, Query) -> SearchOutcome` is what a search request through a proxy
  ended with: `Transport` (an `httpx.RequestError`) or `Response(status, links)`,
  where `links` are the absolute item links the item selector located.
- `fetch: (string, string) -> FetchOutcome` is what fetching a repository page through
  the winning proxy ended with: `FetchFailed` or `Page(status, owner, css, html, js matches)`.

Output shapes stay distinct. `Plain(u)` is `{"url": u}` with no `extra` key.
`Enriched(u, None)` is `{"url": u, "extra": null}`. `Enriched(u, Some(e))` is
the full record.

Modules, one file each: `Wrappers` (Option), `Schemas` (the category enum and
the request record), `LatencySort` (the stable sort), `Proxy`, `Crawler`.

Two facts about the code shape the model:

- `SearchParams` declares `keywords: list[str]` with no length bound
  (src/schemas.py:13). The model therefore accepts an empty keyword list,
  which joins to `""`.
- The search page is parsed (src/crawler.py:39-41) before its status is
  checked (src/crawler.py:43). A parser error is not a `RequestError`, so it
  would escape the loop. Parsing is outside this model (see "Left out").

`GetSearchResults` returns, beside the items, `tried`: the proxies a search
request went through, in the order sent. The source does not return this list.
It is the model's way to state "no request is sent when no proxy is live" and
"later proxies are never tried". The `for` loop of `get_search_results` is the
method `SearchInRankOrder`; `GetSearchResults` runs the format, rank and
early-exit steps and then calls it.

## Model

| member | source | states |
|---|---|---|
| `Proxy.Normalize` | src/proxy.py:12 | every normalised endpoint starts with `http://` |
| `Proxy.NormalizeKeepsHttp` | src/proxy.py:12 | an endpoint that already starts with `http://` is returned unchanged |
| `Proxy.NormalizePrefixesOthers` | src/proxy.py:12 | any other endpoint becomes `"http://" + endpoint` |
| `Proxy.NormalizeDoublePrefixesHttps` | src/proxy.py:12 | every `https://` endpoint is not recognised and becomes `http://https://` followed by the rest |
| `Proxy.NormalizeMayCollide` | src/proxy.py:10-13 | two distinct inputs can normalise to the same string, and both copies are kept |
| `Proxy.FormatProxy` | src/proxy.py:10-13 | one output per input, same length and order, output `i` is the normalisation of input `i` |
| `Proxy.FormatProxyIdempotent` | src/proxy.py:10-13 | formatting an already formatted list changes nothing |
| `Proxy.NormalizeBare` | src/proxy.py:12 | an endpoint whose first character is not `h` is always given the `http://` prefix |
| `Proxy.FormatProxyAddsScheme` | tests/test_proxy.py:8-11 | bare endpoints such as `127.0.0.1:8080` get the `http://` prefix, in order |
| `Proxy.FormatProxyKeepsHttpEntries` | tests/test_proxy.py:15-18 | endpoints that already start with `http://` are kept unchanged |
| `Proxy.FormatProxyEmpty` | tests/test_proxy.py:22-25 | an empty pool formats to `[]` |
| `Proxy.CheckProxy` | src/proxy.py:16-37 | a measurement exists exactly when the probe answered with status 200; it carries the proxy and the elapsed time |
| `Proxy.CheckAll` | src/proxy.py:42-43 | the gathered probe results: one per proxy, in argument order |
| `Proxy.Live` | src/proxy.py:44 | keeps exactly the measurements, in order, and drops every `None` |
| `Proxy.ProxiesOf` | src/proxy.py:46 | the proxy strings of the measurements, position by position |
| `Proxy.AliveProxies` | src/proxy.py:42-44 | reference for what ranking keeps: the subsequence of the pool whose probe answered 200 |
| `Proxy.LiveProjection` | src/proxy.py:42-46 | dropping the dead results and then the latencies leaves exactly the live subsequence of the pool |
| `Proxy.RankedIsPermutationOfAlive` | src/proxy.py:42-46 | the ranked list is a permutation of the live subsequence, so it is no longer than the pool and holds exactly the live proxies |
| `Proxy.RankedIsStablySorted` | src/proxy.py:45 | the ranked measurements are in non-decreasing latency order, equal latencies in pool order |
| `Proxy.RankedFastestFirst` | src/proxy.py:45 | when any proxy is live, the first ranked measurement has the least latency of all live ones |
| `Proxy.AllDeadRanksEmpty` | src/proxy.py:40-48 | an empty or all-dead pool ranks to `[]` |
| `Proxy.RankedMeasurements` | src/proxy.py:42-45 | the ranked measurements are no more than the pool; each comes from a pool member whose probe answered 200, with that probe's latency |
| `Proxy.RankedProxies` | src/proxy.py:42-46 | the ranked proxy list is no longer than the pool and lists only live pool members |
| `Proxy.SortedLiveAreProbed` | src/proxy.py:42-45 | sorting the gathered live measurements neither adds entries nor invents a proxy or a latency |
| `Proxy.ProxyFilter` | src/proxy.py:40-48 | the method's result is the stable latency ranking of the live measurements with latencies dropped, a permutation of the live subsequence |
| `LatencySort.WithLatency` | src/proxy.py:45 | the tie group of one latency value is a subsequence whose members all have that latency |
| `LatencySort.WithLatencyMembers` | src/proxy.py:45 | the tie group of `k` holds exactly the measurements of the sequence whose latency is `k` |
| `LatencySort.SwapKeepsTies` | src/proxy.py:45 | swapping two neighbours of different latency keeps every tie group |
| `LatencySort.TiesArePermutation` | src/proxy.py:44-46 | equal tie groups imply a permutation |
| `LatencySort.TiesDetermineSorted` | src/proxy.py:45 | two latency-sorted sequences with the same tie groups are equal, so a stable sort has one possible result |
| `LatencySort.Insert` | src/proxy.py:45 | insertion adds exactly one element to the multiset |
| `LatencySort.SortByLatency` | src/proxy.py:45 | the reference sort is a permutation of its input |
| `LatencySort.InsertSorted` | src/proxy.py:45 | inserting into a sorted sequence keeps it sorted |
| `LatencySort.InsertTies` | src/proxy.py:45 | inserting keeps the tie groups of the element followed by the sequence |
| `LatencySort.SortByLatencyIsStable` | src/proxy.py:45 | the reference sort is a stable sort by latency |
| `LatencySort.SortInPlace` | src/proxy.py:45 | the array ends as the stable sort of its old contents, equal to the reference sort |
| `LatencySort.SinkLeft` | src/proxy.py:45 | one insertion step extends the sorted prefix by one, keeps every tie group, and leaves the elements after position `i` untouched |
| `Schemas.SearchTypeOf` | src/schemas.py:6-9 | looking up a category by its value gives the member with that value, and nothing for any other string |
| `Schemas.ValueRoundTrip` | src/schemas.py:6-9 | every category's value looks that category up again, so the three values are distinct |
| `Crawler.FirstMatch` | src/crawler.py:83-87 | `xs[0] if xs else None`: null exactly for no match, otherwise the first match |
| `Crawler.GetRepositoryExtraData` | src/crawler.py:61-92 | never fails; the url is preserved; `extra` is null exactly when the fetch failed or the status is outside 200–299 |
| `Crawler.ExtraFieldsAreFirstMatches` | src/crawler.py:80-90 | on a fetched page, owner, CSS, JavaScript and HTML are each the first selector match, or null exactly when there is no match |
| `Crawler.FailedFetchIsSentinel` | src/crawler.py:64-69 | a 404 page or a transport error gives exactly `{"url": url, "extra": null}` |
| `Crawler.NoMatchesGiveNullFields` | tests/test_crawler.py:118-135 | a fetched page with no matches gives an `extra` object whose fields are all null |
| `Crawler.JoinWords` | src/crawler.py:34 | `" ".join`: `[]` joins to `""`, one word to itself, two words with one space between |
| `Crawler.JoinWordsAppend` | src/crawler.py:34 | joining two non-empty lists puts exactly one space between their joins |
| `Crawler.QueryOf` | src/crawler.py:33-36 | the `type` parameter looks the request's category up again; a single keyword is sent as `q` unchanged |
| `Crawler.FirstWinner` | src/crawler.py:23-56 | the position of the first ranked proxy whose response has status 200: every earlier one did not answer 200, and `|ranked|` when none did |
| `Crawler.PlainItems` | src/crawler.py:50-51 | one URL-only item per link, same order |
| `Crawler.EnrichAll` | src/crawler.py:47-49 | item `i` is the enrichment of link `i` through the winning proxy, whatever the completion order |
| `Crawler.PageItems` | src/crawler.py:47-51 | one item per located link, item `i` carrying link `i`; items are URL-only exactly when the category is not Repositories |
| `Crawler.Failover` | src/crawler.py:23-58 | with no status-200 response the result is `[]`; otherwise it has one item per link of the first winning page |
| `Crawler.Tried` | src/crawler.py:23-53 | the tried proxies are a prefix of the ranking, and a non-empty ranking tries at least one proxy |
| `Crawler.GetSearchResults` | src/crawler.py:12-58 | the result and the proxies tried are those of the failover over the ranked, normalised pool; an empty ranking gives `[]` with no request sent |
| `Crawler.SearchInRankOrder` | src/crawler.py:23-56 | the loop returns the failover result and tries exactly the proxies up to and including the first winner |
| `Crawler.TriedIsOrderedPrefix` | src/crawler.py:23-53 | the tried proxies are a prefix of the ranking; all but the last failed, and the last won unless every proxy failed |
| `Crawler.NonWinnerMovesOn` | src/crawler.py:43-56 | a transport error or a non-200 response on the first proxy leaves the result to the remaining proxies |
| `Crawler.WinnerStops` | src/crawler.py:43-53 | a status-200 response on the first proxy gives its page's items, and no other proxy is tried |
| `Crawler.NoWinnerGivesEmpty` | src/crawler.py:14-58 | with no status-200 response, every proxy is tried and the result is `[]` |
| `Crawler.FirstWinnerDependsOnTried` | src/crawler.py:23-53 | the winner's position depends only on the outcomes of the proxies tried |
| `Crawler.LaterProxiesNeverConsulted` | src/crawler.py:23-53 | outcomes that agree on the tried proxies give the same result and the same tried list |
| `Crawler.NonRepositoryItemsAreUrlOnly` | src/crawler.py:50-51 | for Issues and Wikis the result is one `{url}` item per link, same length and order, no `extra` key |
| `Crawler.RepositoryItemsArePositional` | src/crawler.py:47-49 | for Repositories item `i` carries link `i`; a failed fetch nulls only its own item's `extra` |
| `Crawler.DeadPoolSendsNoSearch` | src/crawler.py:16-21 | an empty or all-dead pool gives `[]` and no search request |
| `Crawler.FailoverScenario` | src/crawler.py:23-56 | proxy 1 fails at transport level and proxy 2 answers 200 with two links: two URL-only entries, each proxy tried once |

## Left out

- `src/main.py` (reading and writing the JSON documents, `exit(1)`, process entry): file I/O.
- Pydantic validation in `src/schemas.py`: a foreign library. Only the category enum and the request record are modelled.
- The values in `src/config.py` (URLs, timeouts, the connection limit, the XPath strings): opaque constants. The selectors become lists of matches.
- httpx clients, proxy wiring, timeouts and `max_connections`: network plumbing. Only the outcome of each call is modelled.
- `time.time()`: the latency is an input `real` carried by the probe outcome, not a measured float.
- Real concurrency of `asyncio.gather`: both fan-outs are order-preserving sequential maps.
- HTML parsing and link absolutisation: lxml behaviour. A search response carries its located links, and a repository page carries its selector matches.
- Parser exceptions and any exception other than `RequestError` and `HTTPStatusError`: these escape the loop in the source. Because the search page is parsed before its status check, an unparsable non-200 body would end the whole search. The model has no such path.
- The search request itself: the query (`q` joined with spaces, `type` the category literal) is passed to `search`, but what GitHub does with it is not modelled.
- Network outcomes are functions of what a request targets. Two probes of the same proxy string give the same outcome, and so do two fetches of the same URL through the same proxy. The real network may answer repeated identical requests differently.
- Logging via loguru.
