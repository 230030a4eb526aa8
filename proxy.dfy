/**
 * Proxy normalisation, liveness checking and ranking (src/proxy.py).
 * The liveness probe's network round trip and its clock are not modelled:
 * what a probe through a proxy ends with is the input `probe`.
 */
module Proxy {
  import opened Wrappers
  import opened LatencySort

  /** The only scheme `format_proxy` recognises; the test is case-sensitive. */
  const Scheme: string := "http://"

  predicate StartsWith(s: string, prefix: string)
  {
    |prefix| <= |s| && s[..|prefix|] == prefix
  }

  /** Normalises one proxy endpoint: kept when it already carries `http://`, prefixed otherwise. */
  function Normalize(proxy: string): (r: string)
    ensures StartsWith(r, Scheme)
  {
    if StartsWith(proxy, Scheme) then proxy else Scheme + proxy
  }

  /** `format_proxy`: normalises every endpoint, one output per input, in input order. */
  function FormatProxy(proxies: seq<string>): (r: seq<string>)
    ensures |r| == |proxies|
    ensures forall i :: 0 <= i < |proxies| ==> r[i] == Normalize(proxies[i])
  {
    if proxies == [] then [] else [Normalize(proxies[0])] + FormatProxy(proxies[1..])
  }

  lemma NormalizeKeepsHttp(proxy: string)
    requires StartsWith(proxy, Scheme)
    ensures Normalize(proxy) == proxy
  {
  }

  lemma NormalizePrefixesOthers(proxy: string)
    requires !StartsWith(proxy, Scheme)
    ensures Normalize(proxy) == Scheme + proxy
  {
  }

  lemma MismatchIsNotHttp(s: string, i: nat)
    requires i < |Scheme| <= |s| && s[i] != Scheme[i]
    ensures !StartsWith(s, Scheme)
  {
    assert s[..|Scheme|][i] == s[i];
  }

  lemma PrefixedIsHttp(rest: string)
    ensures StartsWith(Scheme + rest, Scheme)
  {
    assert (Scheme + rest)[..|Scheme|] == Scheme;
  }

  lemma FormatProxyPair(a: string, b: string)
    ensures FormatProxy([a, b]) == [Normalize(a), Normalize(b)]
  {
    var r := FormatProxy([a, b]);
    assert r[0] == Normalize(a) && r[1] == Normalize(b);
  }

  /** An `https://` endpoint is not recognised and gets a second scheme in front. */
  lemma NormalizeDoublePrefixesHttps(rest: string)
    ensures Normalize("https://" + rest) == "http://https://" + rest
  {
    MismatchIsNotHttp("https://" + rest, 4);
    assert Scheme + ("https://" + rest) == "http://https://" + rest;
  }

  /** Normalisation can merge two distinct endpoints; nothing is deduplicated afterwards. */
  lemma NormalizeMayCollide()
    ensures Normalize("1.2.3.4:80") == Normalize("http://1.2.3.4:80")
    ensures FormatProxy(["1.2.3.4:80", "http://1.2.3.4:80"]) == ["http://1.2.3.4:80", "http://1.2.3.4:80"]
  {
    MismatchIsNotHttp("1.2.3.4:80", 0);
    assert Scheme + "1.2.3.4:80" == "http://1.2.3.4:80";
    PrefixedIsHttp("1.2.3.4:80");
    FormatProxyPair("1.2.3.4:80", "http://1.2.3.4:80");
  }

  /** `format_proxy` applied twice changes nothing more. */
  lemma {:induction false} FormatProxyIdempotent(proxies: seq<string>)
    ensures FormatProxy(FormatProxy(proxies)) == FormatProxy(proxies)
  {
    var once := FormatProxy(proxies);
    var twice := FormatProxy(once);
    forall i | 0 <= i < |once| ensures twice[i] == once[i] {
      NormalizeKeepsHttp(once[i]);
    }
    assert |twice| == |once|;
  }

  /** An endpoint whose first character is not `h` always gets the scheme. */
  lemma NormalizeBare(proxy: string)
    requires |proxy| > 0 && proxy[0] != 'h'
    ensures Normalize(proxy) == Scheme + proxy
  {
    if |proxy| >= |Scheme| {
      MismatchIsNotHttp(proxy, 0);
    }
  }

  /** The two bare endpoints of the formatting example, one at a time. */
  lemma NormalizeBareExamples()
    ensures Normalize("127.0.0.1:8080") == "http://127.0.0.1:8080"
    ensures Normalize("example.com:3128") == "http://example.com:3128"
  {
    assert Normalize("127.0.0.1:8080") == "http://127.0.0.1:8080" by {
      NormalizeBare("127.0.0.1:8080");
      assert Scheme + "127.0.0.1:8080" == "http://127.0.0.1:8080";
    }
    assert Normalize("example.com:3128") == "http://example.com:3128" by {
      NormalizeBare("example.com:3128");
      assert Scheme + "example.com:3128" == "http://example.com:3128";
    }
  }

  /** Bare endpoints get the scheme in front. */
  lemma FormatProxyAddsScheme()
    ensures FormatProxy(["127.0.0.1:8080", "example.com:3128"])
            == ["http://127.0.0.1:8080", "http://example.com:3128"]
  {
    NormalizeBareExamples();
    FormatProxyPair("127.0.0.1:8080", "example.com:3128");
  }

  /** Endpoints that already carry `http://` are kept as they are. */
  lemma FormatProxyKeepsHttpEntries()
    ensures FormatProxy(["http://1.2.3.4:80", "http://proxy.local:8080"])
            == ["http://1.2.3.4:80", "http://proxy.local:8080"]
  {
    PrefixedIsHttp("1.2.3.4:80");
    PrefixedIsHttp("proxy.local:8080");
    assert Scheme + "1.2.3.4:80" == "http://1.2.3.4:80";
    assert Scheme + "proxy.local:8080" == "http://proxy.local:8080";
    FormatProxyPair("http://1.2.3.4:80", "http://proxy.local:8080");
  }

  lemma FormatProxyEmpty()
    ensures FormatProxy([]) == []
  {
  }

  /**
   * What one liveness probe through a proxy ended with: an exception of any
   * kind (transport error, timeout, unusable proxy), or a response with its
   * status code and the seconds elapsed since the probe started.
   */
  datatype ProbeOutcome = ProbeFailed | ProbeResponse(status: int, elapsed: real)

  predicate IsAlive(outcome: ProbeOutcome)
  {
    outcome.ProbeResponse? && outcome.status == 200
  }

  /** `check_proxy`: a measurement exactly when the probe answered with status 200, nothing otherwise. */
  function CheckProxy(proxy: string, outcome: ProbeOutcome): (r: Option<Measurement>)
    ensures r.Some? <==> IsAlive(outcome)
    ensures r.Some? ==> r.value.proxy == proxy && r.value.latency == outcome.elapsed
  {
    match outcome
    case ProbeResponse(status, elapsed) =>
      if status == 200 then Some(Measurement(proxy, elapsed)) else None
    case ProbeFailed => None
  }

  /** The gathered probe results, one per proxy and in argument order, whatever the completion order. */
  function CheckAll(proxies: seq<string>, probe: string -> ProbeOutcome): (r: seq<Option<Measurement>>)
    ensures |r| == |proxies|
    ensures forall i :: 0 <= i < |proxies| ==> r[i] == CheckProxy(proxies[i], probe(proxies[i]))
  {
    if proxies == [] then [] else [CheckProxy(proxies[0], probe(proxies[0]))] + CheckAll(proxies[1..], probe)
  }

  /** The measurements among `results`, in order, with every `None` dropped. */
  function Live(results: seq<Option<Measurement>>): (r: seq<Measurement>)
    ensures |r| <= |results|
    ensures forall m :: m in r <==> Some(m) in results
  {
    if results == [] then []
    else
      assert results == [results[0]] + results[1..];
      (if results[0].Some? then [results[0].value] else []) + Live(results[1..])
  }

  /** The proxy strings of `ms`, latencies dropped. */
  function ProxiesOf(ms: seq<Measurement>): (r: seq<string>)
    ensures |r| == |ms|
    ensures forall i :: 0 <= i < |ms| ==> r[i] == ms[i].proxy
  {
    if ms == [] then [] else [ms[0].proxy] + ProxiesOf(ms[1..])
  }

  /** The subsequence of `proxies` whose probe answered 200: the reference for what ranking keeps. */
  function AliveProxies(proxies: seq<string>, probe: string -> ProbeOutcome): (r: seq<string>)
    ensures |r| <= |proxies|
    ensures forall p :: p in r <==> p in proxies && IsAlive(probe(p))
  {
    if proxies == [] then []
    else
      assert proxies == [proxies[0]] + proxies[1..];
      (if IsAlive(probe(proxies[0])) then [proxies[0]] else []) + AliveProxies(proxies[1..], probe)
  }

  /** Every measurement that survives ranking comes from a live probe of a pool member, with that probe's latency. */
  lemma SortedLiveAreProbed(proxies: seq<string>, probe: string -> ProbeOutcome)
    ensures var live := Live(CheckAll(proxies, probe));
            |SortByLatency(live)| <= |proxies|
            && forall m :: m in SortByLatency(live) ==>
                 m.proxy in proxies && IsAlive(probe(m.proxy)) && m.latency == probe(m.proxy).elapsed
  {
    var results := CheckAll(proxies, probe);
    var live := Live(results);
    var sorted := SortByLatency(live);
    assert |sorted| == |multiset(sorted)| == |multiset(live)| == |live|;
    forall m | m in sorted
      ensures m.proxy in proxies && IsAlive(probe(m.proxy)) && m.latency == probe(m.proxy).elapsed
    {
      assert m in multiset(sorted);
      assert m in live;
      var i :| 0 <= i < |results| && results[i] == Some(m);
    }
  }

  /** The live measurements, stably sorted by latency. */
  function RankedMeasurements(proxies: seq<string>, probe: string -> ProbeOutcome): (r: seq<Measurement>)
    ensures |r| <= |proxies|
    ensures forall m :: m in r ==> m.proxy in proxies && IsAlive(probe(m.proxy)) && m.latency == probe(m.proxy).elapsed
  {
    SortedLiveAreProbed(proxies, probe);
    SortByLatency(Live(CheckAll(proxies, probe)))
  }

  /** The ranked proxy list `proxy_filter` returns. */
  function RankedProxies(proxies: seq<string>, probe: string -> ProbeOutcome): (r: seq<string>)
    ensures |r| <= |proxies|
    ensures forall p :: p in r ==> p in proxies && IsAlive(probe(p))
  {
    var ms := RankedMeasurements(proxies, probe);
    var r := ProxiesOf(ms);
    assert forall i :: 0 <= i < |r| ==> r[i] == ms[i].proxy && ms[i] in ms;
    r
  }

  lemma ProxiesOfAppend(a: seq<Measurement>, b: seq<Measurement>)
    ensures ProxiesOf(a + b) == ProxiesOf(a) + ProxiesOf(b)
  {
  }

  /** Dropping the dead probes and then the latencies leaves exactly the live subsequence of the pool. */
  lemma {:induction false} LiveProjection(proxies: seq<string>, probe: string -> ProbeOutcome)
    ensures ProxiesOf(Live(CheckAll(proxies, probe))) == AliveProxies(proxies, probe)
  {
    if proxies != [] {
      var results := CheckAll(proxies, probe);
      assert results[1..] == CheckAll(proxies[1..], probe);
      LiveProjection(proxies[1..], probe);
      var head := if results[0].Some? then [results[0].value] else [];
      ProxiesOfAppend(head, Live(results[1..]));
    }
  }

  lemma {:induction false} ProxiesOfInsert(m: Measurement, s: seq<Measurement>)
    ensures multiset(ProxiesOf(Insert(m, s))) == multiset{m.proxy} + multiset(ProxiesOf(s))
  {
    if s != [] && s[0].latency < m.latency {
      var r := Insert(m, s[1..]);
      ProxiesOfInsert(m, s[1..]);
      assert Insert(m, s) == [s[0]] + r;
      assert ProxiesOf([s[0]] + r) == [s[0].proxy] + ProxiesOf(r);
      assert ProxiesOf(s) == [s[0].proxy] + ProxiesOf(s[1..]);
      calc {
        multiset(ProxiesOf(Insert(m, s)));
        multiset{s[0].proxy} + multiset(ProxiesOf(r));
        multiset{s[0].proxy} + (multiset{m.proxy} + multiset(ProxiesOf(s[1..])));
        multiset{m.proxy} + multiset(ProxiesOf(s));
      }
    } else {
      assert Insert(m, s) == [m] + s;
      assert ProxiesOf([m] + s) == [m.proxy] + ProxiesOf(s);
    }
  }

  lemma {:induction false} ProxiesOfSort(s: seq<Measurement>)
    ensures multiset(ProxiesOf(SortByLatency(s))) == multiset(ProxiesOf(s))
  {
    if s != [] {
      var rest := SortByLatency(s[1..]);
      ProxiesOfSort(s[1..]);
      ProxiesOfInsert(s[0], rest);
      assert multiset(ProxiesOf(s)) == multiset{s[0].proxy} + multiset(ProxiesOf(s[1..])) by {
        assert ProxiesOf(s) == [s[0].proxy] + ProxiesOf(s[1..]);
      }
    }
  }

  /** The ranked list is a permutation of the live subsequence: same proxies, same multiplicities. */
  lemma RankedIsPermutationOfAlive(proxies: seq<string>, probe: string -> ProbeOutcome)
    ensures multiset(RankedProxies(proxies, probe)) == multiset(AliveProxies(proxies, probe))
    ensures |RankedProxies(proxies, probe)| <= |proxies|
    ensures forall p :: p in RankedProxies(proxies, probe) <==> p in proxies && IsAlive(probe(p))
  {
    ProxiesOfSort(Live(CheckAll(proxies, probe)));
    LiveProjection(proxies, probe);
    var ranked, alive := RankedProxies(proxies, probe), AliveProxies(proxies, probe);
    assert |ranked| == |multiset(ranked)| == |multiset(alive)| == |alive|;
    forall p ensures p in ranked <==> p in alive {
      assert p in ranked <==> p in multiset(ranked);
      assert p in alive <==> p in multiset(alive);
    }
  }

  /** The ranked list is in non-decreasing latency order, and equal latencies keep their pool order. */
  lemma RankedIsStablySorted(proxies: seq<string>, probe: string -> ProbeOutcome)
    ensures StableSortOf(RankedMeasurements(proxies, probe), Live(CheckAll(proxies, probe)))
  {
    SortByLatencyIsStable(Live(CheckAll(proxies, probe)));
  }

  /** The first ranked proxy is a fastest live one. */
  lemma RankedFastestFirst(proxies: seq<string>, probe: string -> ProbeOutcome, m: Measurement)
    requires m in Live(CheckAll(proxies, probe))
    ensures RankedMeasurements(proxies, probe) != []
    ensures RankedMeasurements(proxies, probe)[0].latency <= m.latency
  {
    var ranked := RankedMeasurements(proxies, probe);
    SortByLatencyIsStable(Live(CheckAll(proxies, probe)));
    assert m in multiset(ranked);
    var i :| 0 <= i < |ranked| && ranked[i] == m;
    assert ranked[0].latency <= ranked[i].latency;
  }

  lemma {:induction false} AllDeadNoneAlive(proxies: seq<string>, probe: string -> ProbeOutcome)
    requires forall i :: 0 <= i < |proxies| ==> !IsAlive(probe(proxies[i]))
    ensures AliveProxies(proxies, probe) == []
  {
    if proxies != [] {
      AllDeadNoneAlive(proxies[1..], probe);
    }
  }

  /** An empty or all-dead pool ranks to the empty list. */
  lemma AllDeadRanksEmpty(proxies: seq<string>, probe: string -> ProbeOutcome)
    requires forall i :: 0 <= i < |proxies| ==> !IsAlive(probe(proxies[i]))
    ensures RankedProxies(proxies, probe) == []
  {
    RankedIsPermutationOfAlive(proxies, probe);
    AllDeadNoneAlive(proxies, probe);
    assert |RankedProxies(proxies, probe)| == |multiset(RankedProxies(proxies, probe))| == 0;
  }

  /**
   * `proxy_filter`: probes every proxy, keeps the live measurements, sorts
   * them in place by latency and returns their proxy strings.
   */
  method ProxyFilter(proxies: seq<string>, probe: string -> ProbeOutcome) returns (best: seq<string>)
    ensures best == RankedProxies(proxies, probe)
    ensures multiset(best) == multiset(AliveProxies(proxies, probe))
    ensures forall p :: p in best <==> p in proxies && IsAlive(probe(p))
  {
    var results := CheckAll(proxies, probe);
    var live := Live(results);
    var buffer := new Measurement[|live|](i requires 0 <= i < |live| => live[i]);
    assert buffer[..] == live;
    SortInPlace(buffer);
    best := ProxiesOf(buffer[..]);
    RankedIsPermutationOfAlive(proxies, probe);
  }
}
