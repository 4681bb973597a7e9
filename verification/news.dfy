/** `getNews` itself (lib/actions/finnhub.actions.ts, lines 51-155): the API
    key check, the per-symbol prefetch, the round-robin pick over the cleaned
    watch list, and the general feed as the fallback. The provider is a
    parameter: `companyNews(sym)` is the response to the company-news request
    for `sym`, `generalNews` the response to the general-news request.
 */
module News {
  import opened Js
  import opened Articles
  import opened Ordering
  import opened RoundRobin
  import opened SelectionFacts
  import opened Symbols

  /** A request `getNews` sends to the provider. */
  datatype Request = CompanyNews(symbol: string) | GeneralNews

  /** What `fetchJSON` yields for one request: the article list of a 2xx
      response, or the status of any other response, which it throws. */
  datatype Fetched = Delivered(items: seq<RawArticle>) | HttpError(status: int)

  /** What `getNews` returns, or the one error it throws: the `catch` block
      turns every failure into `Error('Failed to fetch news')`. */
  datatype Result = Ok(articles: seq<Article>) | FailedToFetchNews

  /** The requests one call sends, in order, and what it returns. */
  datatype Outcome = Outcome(requests: seq<Request>, result: Result)

  // ---------------------------------------------------------------------------
  // per-symbol queues

  /** `raw.map(normalize).filter(Boolean)` sorted newest first: the queue of
      one symbol. */
  function PrepareQueue(raw: seq<RawArticle>): (q: seq<Article>)
    ensures SortedNewestFirst(q) && AllValid(q)
    ensures multiset(q) == multiset(Present(NormalizeAll(raw)))
  {
    var present := Present(NormalizeAll(raw));
    PresentNormalizedValid(raw);
    PermutationKeepsValid(present, SortNewestFirst(present));
    SortNewestFirst(present)
  }

  /** An article is in the queue of a response exactly when it is the
      normalisation of one of the response's articles. */
  lemma PrepareQueueMembers(raw: seq<RawArticle>, a: Article)
    ensures a in PrepareQueue(raw) <==> exists j :: 0 <= j < |raw| && Normalize(raw[j]) == Some(a)
  {
    var q := PrepareQueue(raw);
    assert a in q <==> a in multiset(q);
    assert a in multiset(q) <==> a in Present(NormalizeAll(raw));
    if Some(a) in NormalizeAll(raw) {
      var j :| 0 <= j < |raw| && NormalizeAll(raw)[j] == Some(a);
    }
  }

  /** Every article of the response has a NaN timestamp. */
  predicate AllNaN(raw: seq<RawArticle>) {
    forall j :: 0 <= j < |raw| ==> raw[j].datetime == Some(NaN)
  }

  /** A queue is empty exactly when every article of the response has a NaN
      timestamp, the one thing `normalize` rejects. */
  lemma PrepareQueueEmptyIff(raw: seq<RawArticle>)
    ensures PrepareQueue(raw) == [] <==> AllNaN(raw)
  {
    var q := PrepareQueue(raw);
    if q == [] {
      forall j | 0 <= j < |raw| ensures raw[j].datetime == Some(NaN) {
        if Normalize(raw[j]).Some? {
          PrepareQueueMembers(raw, Normalize(raw[j]).value);
        }
      }
    } else {
      PrepareQueueMembers(raw, q[0]);
    }
  }

  // ---------------------------------------------------------------------------
  // prefetch

  /** Every company-news request for `symbols` succeeds. */
  predicate AllDelivered(symbols: seq<string>, companyNews: string -> Fetched) {
    forall i :: 0 <= i < |symbols| ==> companyNews(symbols[i]).Delivered?
  }

  /** The requests sent and, when none failed, the `perSymbolNews` map. */
  datatype Prefetched = Prefetched(requests: seq<Request>, queues: Option<map<string, seq<Article>>>)

  /** The prefetch loop, from `symbols` on with the map `acc` built so far:
      one request per symbol, in order; the first failure ends the call. A
      symbol that occurs twice is fetched twice and its entry set again. */
  function Prefetch(symbols: seq<string>, companyNews: string -> Fetched, acc: map<string, seq<Article>>): (r: Prefetched)
    ensures |r.requests| <= |symbols|
    decreases |symbols|
  {
    if |symbols| == 0 then Prefetched([], Some(acc))
    else
      var sym := symbols[0];
      match companyNews(sym)
      case HttpError(_) => Prefetched([CompanyNews(sym)], None)
      case Delivered(raw) =>
        var rest := Prefetch(symbols[1..], companyNews, acc[sym := PrepareQueue(raw)]);
        Prefetched([CompanyNews(sym)] + rest.requests, rest.queues)
  }

  lemma AllDeliveredCons(symbols: seq<string>, companyNews: string -> Fetched)
    requires |symbols| > 0
    ensures AllDelivered(symbols, companyNews) <==>
              companyNews(symbols[0]).Delivered? && AllDelivered(symbols[1..], companyNews)
  {
    assert forall i :: 1 <= i < |symbols| ==> symbols[i] == symbols[1..][i - 1];
  }

  /** The prefetch completes exactly when every request succeeds, and then
      it has sent one request per symbol. */
  lemma {:induction false} PrefetchCompletesIff(symbols: seq<string>, companyNews: string -> Fetched, acc: map<string, seq<Article>>)
    ensures var r := Prefetch(symbols, companyNews, acc);
      && (r.queues.Some? <==> AllDelivered(symbols, companyNews))
      && (r.queues.Some? ==> |r.requests| == |symbols|)
    decreases |symbols|
  {
    if |symbols| > 0 {
      AllDeliveredCons(symbols, companyNews);
      if companyNews(symbols[0]).Delivered? {
        var next := acc[symbols[0] := PrepareQueue(companyNews(symbols[0]).items)];
        PrefetchCompletesIff(symbols[1..], companyNews, next);
      }
    }
  }

  /** When some request fails, the last request sent is the first that
      failed: every symbol before it was delivered. */
  lemma {:induction false} PrefetchStopsAtFailure(symbols: seq<string>, companyNews: string -> Fetched, acc: map<string, seq<Article>>)
    requires !AllDelivered(symbols, companyNews)
    ensures var k := |Prefetch(symbols, companyNews, acc).requests|;
      && 0 < k <= |symbols|
      && companyNews(symbols[k - 1]).HttpError?
      && AllDelivered(symbols[..k - 1], companyNews)
    decreases |symbols|
  {
    AllDeliveredCons(symbols, companyNews);
    if companyNews(symbols[0]).Delivered? {
      PrefetchStopsAfterDelivered(symbols, companyNews, acc);
    } else {
      assert Prefetch(symbols, companyNews, acc) == Prefetched([CompanyNews(symbols[0])], None);
      assert AllDelivered(symbols[..0], companyNews);
    }
  }

  /** The step of `PrefetchStopsAtFailure` where the first symbol is delivered
      and the failure comes later. */
  lemma {:induction false} PrefetchStopsAfterDelivered(symbols: seq<string>, companyNews: string -> Fetched, acc: map<string, seq<Article>>)
    requires |symbols| > 0 && companyNews(symbols[0]).Delivered?
    requires !AllDelivered(symbols[1..], companyNews)
    ensures var k := |Prefetch(symbols, companyNews, acc).requests|;
      && 0 < k <= |symbols|
      && companyNews(symbols[k - 1]).HttpError?
      && AllDelivered(symbols[..k - 1], companyNews)
    decreases |symbols|, 0
  {
    var next := acc[symbols[0] := PrepareQueue(companyNews(symbols[0]).items)];
    var rest := Prefetch(symbols[1..], companyNews, next);
    assert |Prefetch(symbols, companyNews, acc).requests| == 1 + |rest.requests|;
    PrefetchStopsAtFailure(symbols[1..], companyNews, next);
    var k := |rest.requests|;
    assert symbols[k] == symbols[1..][k - 1];
    var before := symbols[..k];
    assert before[1..] == symbols[1..][..k - 1];
    AllDeliveredCons(before, companyNews);
  }

  /** One company-news request per symbol, in order. */
  function CompanyRequests(symbols: seq<string>): (r: seq<Request>)
    ensures |r| == |symbols|
    ensures forall i :: 0 <= i < |r| ==> r[i] == CompanyNews(symbols[i])
  {
    if |symbols| == 0 then [] else [CompanyNews(symbols[0])] + CompanyRequests(symbols[1..])
  }

  lemma CompanyRequestsPrefix(symbols: seq<string>, k: nat)
    requires k < |symbols|
    ensures CompanyRequests(symbols[..k + 1]) == [CompanyNews(symbols[0])] + CompanyRequests(symbols[1..][..k])
  {
    var reached := symbols[..k + 1];
    assert reached[0] == symbols[0];
    assert reached[1..] == symbols[1..][..k];
  }

  /** The requests of the prefetch are the company-news requests of the
      symbols it reached, in order. */
  lemma {:induction false} PrefetchRequests(symbols: seq<string>, companyNews: string -> Fetched, acc: map<string, seq<Article>>)
    ensures var requests := Prefetch(symbols, companyNews, acc).requests;
      requests == CompanyRequests(symbols[..|requests|])
    decreases |symbols|
  {
    if |symbols| > 0 {
      if companyNews(symbols[0]).Delivered? {
        var next := acc[symbols[0] := PrepareQueue(companyNews(symbols[0]).items)];
        PrefetchRequests(symbols[1..], companyNews, next);
        CompanyRequestsPrefix(symbols, |Prefetch(symbols[1..], companyNews, next).requests|);
      } else {
        CompanyRequestsPrefix(symbols, 0);
      }
    }
  }

  /** A complete prefetch has an entry for each symbol and for each entry of
      `acc`, and for nothing else. */
  lemma {:induction false} PrefetchKeys(symbols: seq<string>, companyNews: string -> Fetched, acc: map<string, seq<Article>>, s: string)
    requires AllDelivered(symbols, companyNews)
    ensures Prefetch(symbols, companyNews, acc).queues.Some?
    ensures s in Prefetch(symbols, companyNews, acc).queues.value <==> s in acc || s in symbols
    decreases |symbols|
  {
    if |symbols| > 0 {
      AllDeliveredCons(symbols, companyNews);
      var next := acc[symbols[0] := PrepareQueue(companyNews(symbols[0]).items)];
      PrefetchKeys(symbols[1..], companyNews, next, s);
      assert s in symbols <==> s == symbols[0] || s in symbols[1..];
    }
  }

  /** A complete prefetch keeps the entries of `acc` whose symbol it does
      not fetch. */
  lemma {:induction false} PrefetchKeepsOthers(symbols: seq<string>, companyNews: string -> Fetched, acc: map<string, seq<Article>>, s: string)
    requires AllDelivered(symbols, companyNews)
    requires s in acc && s !in symbols
    ensures Prefetch(symbols, companyNews, acc).queues.Some?
    ensures s in Prefetch(symbols, companyNews, acc).queues.value
    ensures Prefetch(symbols, companyNews, acc).queues.value[s] == acc[s]
    decreases |symbols|
  {
    if |symbols| > 0 {
      AllDeliveredCons(symbols, companyNews);
      var next := acc[symbols[0] := PrepareQueue(companyNews(symbols[0]).items)];
      assert s !in symbols[1..];
      PrefetchKeepsOthers(symbols[1..], companyNews, next, s);
    }
  }

  /** After a complete prefetch, each symbol's entry is the queue of its
      response: a symbol fetched twice gets the same queue again. */
  lemma {:induction false} PrefetchValue(symbols: seq<string>, companyNews: string -> Fetched, acc: map<string, seq<Article>>, s: string)
    requires AllDelivered(symbols, companyNews)
    requires s in symbols
    ensures Prefetch(symbols, companyNews, acc).queues.Some?
    ensures s in Prefetch(symbols, companyNews, acc).queues.value
    ensures Prefetch(symbols, companyNews, acc).queues.value[s] == PrepareQueue(companyNews(s).items)
    decreases |symbols|
  {
    AllDeliveredCons(symbols, companyNews);
    var next := acc[symbols[0] := PrepareQueue(companyNews(symbols[0]).items)];
    if s in symbols[1..] {
      PrefetchValue(symbols[1..], companyNews, next, s);
    } else {
      PrefetchKeepsOthers(symbols[1..], companyNews, next, s);
    }
  }

  /** The `perSymbolNews` map of a complete prefetch, written directly: each
      symbol to the queue of its response. */
  function ExpectedQueues(symbols: seq<string>, companyNews: string -> Fetched): (m: map<string, seq<Article>>)
    requires AllDelivered(symbols, companyNews)
    ensures m.Keys == set s | s in symbols
  {
    map s | s in symbols :: PrepareQueue(companyNews(s).items)
  }

  /** A complete prefetch from the empty map builds exactly that map. */
  lemma PrefetchBuildsExpectedQueues(symbols: seq<string>, companyNews: string -> Fetched)
    requires AllDelivered(symbols, companyNews)
    ensures Prefetch(symbols, companyNews, map[]).queues == Some(ExpectedQueues(symbols, companyNews))
  {
    PrefetchKeys(symbols, companyNews, map[], "");
    var m := Prefetch(symbols, companyNews, map[]).queues.value;
    var e := ExpectedQueues(symbols, companyNews);
    forall s ensures s in m <==> s in e {
      PrefetchKeys(symbols, companyNews, map[], s);
    }
    forall s | s in m ensures m[s] == e[s] {
      PrefetchKeys(symbols, companyNews, map[], s);
      PrefetchValue(symbols, companyNews, map[], s);
    }
    assert m == e;
  }

  // ---------------------------------------------------------------------------
  // general feed

  /** `.filter(isValidArticle)` */
  function FilterValid(s: seq<Article>): (r: seq<Article>)
    ensures AllValid(r)
    ensures IsSubsequence(r, s)
  {
    if |s| == 0 then []
    else if IsValidArticle(s[0]) then [s[0]] + FilterValid(s[1..])
    else FilterValid(s[1..])
  }

  /** The filter keeps a list of valid articles as it is. */
  lemma {:induction false} FilterValidKeepsValid(s: seq<Article>)
    requires AllValid(s)
    ensures FilterValid(s) == s
  {
    if |s| > 0 {
      assert AllValid(s[1..]);
      FilterValidKeepsValid(s[1..]);
      assert s == [s[0]] + s[1..];
    }
  }

  /** The filter works article by article: the filtered concatenation is the
      concatenation of the filtered parts, so order is kept. */
  lemma {:induction false} FilterValidAppend(a: seq<Article>, b: seq<Article>)
    ensures FilterValid(a + b) == FilterValid(a) + FilterValid(b)
    decreases |a|
  {
    if |a| == 0 {
      assert a + b == b;
      assert FilterValid(a) + FilterValid(b) == FilterValid(b);
    } else {
      var head := if IsValidArticle(a[0]) then [a[0]] else [];
      var ab := a + b;
      assert ab[0] == a[0];
      assert ab[1..] == a[1..] + b;
      FilterValidAppend(a[1..], b);
      calc {
        FilterValid(ab);
        head + FilterValid(a[1..] + b);
        head + (FilterValid(a[1..]) + FilterValid(b));
        (head + FilterValid(a[1..])) + FilterValid(b);
      }
    }
  }

  /** One article is kept exactly when it is valid. */
  lemma FilterValidSingle(x: Article)
    ensures FilterValid([x]) == if IsValidArticle(x) then [x] else []
  {
    assert [x][1..] == [];
  }

  /** The deduplicated general feed: the first article of each key, in feed
      order, and nothing that is not in the feed. */
  function GeneralPool(raw: seq<RawArticle>): (r: seq<Article>)
    ensures DistinctKeys(r) && AllValid(r)
    ensures r == Dedupe(NormalizeAll(raw))
    ensures IsSubsequence(r, Present(NormalizeAll(raw)))
    ensures forall a :: a in r ==> FirstWithKey(NormalizeAll(raw), UniqueKey(a)) == Some(a)
    ensures forall a :: Some(a) in NormalizeAll(raw) ==> UniqueKey(a) in KeysOf(r)
  {
    var d := Dedupe(NormalizeAll(raw));
    DedupeNormalizedValid(raw);
    FilterValidKeepsValid(d);
    FilterValid(d)
  }

  /** `dedupe(generalRaw.map(normalize)).filter(isValidArticle)` sorted and
      cut to `MAX_ARTICLES`: the newest articles of the deduplicated general
      feed, all of them when there are few enough. */
  function GeneralArticles(raw: seq<RawArticle>): (r: seq<Article>)
    ensures |r| == Cap(GeneralPool(raw)) && |r| <= MaxArticles
    ensures SortedNewestFirst(r) && DistinctKeys(r) && AllValid(r)
    ensures multiset(r) <= multiset(GeneralPool(raw))
    ensures forall a, b :: a in r && b in multiset(GeneralPool(raw)) - multiset(r) ==> Time(b) <= Time(a)
    ensures |GeneralPool(raw)| <= MaxArticles ==> multiset(r) == multiset(GeneralPool(raw))
  {
    Newest(GeneralPool(raw))
  }

  /** `a` is the normalisation of an article of the response `raw`. */
  predicate FromFeed(a: Article, raw: seq<RawArticle>) {
    exists j :: 0 <= j < |raw| && Normalize(raw[j]) == Some(a)
  }

  /** Every article of the general result comes from the feed, and is the
      first article of the feed with its key. */
  lemma GeneralArticlesProvenance(raw: seq<RawArticle>, a: Article)
    requires a in GeneralArticles(raw)
    ensures FromFeed(a, raw)
    ensures FirstWithKey(NormalizeAll(raw), UniqueKey(a)) == Some(a)
  {
    var pool := GeneralPool(raw);
    assert a in multiset(GeneralArticles(raw));
    assert a in pool;
    SubsequenceMembers(pool, Present(NormalizeAll(raw)));
    assert Some(a) in NormalizeAll(raw);
    var j :| 0 <= j < |raw| && NormalizeAll(raw)[j] == Some(a);
  }

  /** The fallback: one more request, for the general feed. */
  function GeneralFallback(requests: seq<Request>, generalNews: Fetched): (o: Outcome)
    ensures o.requests == requests + [GeneralNews]
    ensures o.result.FailedToFetchNews? <==> generalNews.HttpError?
    ensures generalNews.Delivered? ==> o.result == Ok(GeneralArticles(generalNews.items))
  {
    match generalNews
    case HttpError(_) => Outcome(requests + [GeneralNews], FailedToFetchNews)
    case Delivered(raw) => Outcome(requests + [GeneralNews], Ok(GeneralArticles(raw)))
  }

  // ---------------------------------------------------------------------------
  // getNews

  /** Everything after the key check and the cleaning, for a non-empty
      cleaned watch list: prefetch, round robin, and the fallback when the
      round robin picks nothing. */
  function SymbolPath(clean: seq<string>, companyNews: string -> Fetched, generalNews: Fetched): (o: Outcome)
    requires |clean| > 0
    ensures o.result.Ok? ==>
              && |o.result.articles| <= MaxArticles
              && SortedNewestFirst(o.result.articles)
              && DistinctKeys(o.result.articles)
              && AllValid(o.result.articles)
  {
    var pre := Prefetch(clean, companyNews, map[]);
    match pre.queues
    case None => Outcome(pre.requests, FailedToFetchNews)
    case Some(queues) =>
      var picked := Select(clean, queues);
      if |picked| > 0 then Outcome(pre.requests, Ok(Newest(picked)))
      else GeneralFallback(pre.requests, generalNews)
  }

  /** `getNews(symbols)` with the API key `apiKey`. */
  function GetNews(symbols: Option<seq<string>>, apiKey: string, companyNews: string -> Fetched, generalNews: Fetched): (o: Outcome)
    ensures apiKey == "" ==> o == Outcome([], FailedToFetchNews)
    ensures o.result.Ok? ==>
              && |o.result.articles| <= MaxArticles
              && SortedNewestFirst(o.result.articles)
              && DistinctKeys(o.result.articles)
              && AllValid(o.result.articles)
  {
    if apiKey == "" then Outcome([], FailedToFetchNews)
    else
      var clean := CleanSymbols(symbols);
      if |clean| == 0 then GeneralFallback([], generalNews)
      else SymbolPath(clean, companyNews, generalNews)
  }

  /** The round-robin pick of a complete prefetch. */
  function Picked(clean: seq<string>, companyNews: string -> Fetched): (picked: seq<Article>)
    requires |clean| > 0 && AllDelivered(clean, companyNews)
    ensures |picked| <= MaxArticles && DistinctKeys(picked) && AllValid(picked)
  {
    Select(clean, ExpectedQueues(clean, companyNews))
  }

  /** A failed company-news request ends the call with the error, after the
      requests sent so far. */
  lemma SymbolPathFails(clean: seq<string>, companyNews: string -> Fetched, generalNews: Fetched)
    requires |clean| > 0 && !AllDelivered(clean, companyNews)
    ensures SymbolPath(clean, companyNews, generalNews)
            == Outcome(Prefetch(clean, companyNews, map[]).requests, FailedToFetchNews)
  {
    PrefetchCompletesIff(clean, companyNews, map[]);
  }

  /** When every company-news request succeeds, the result is the sorted
      pick, or the general feed when the pick is empty. */
  lemma SymbolPathDelivered(clean: seq<string>, companyNews: string -> Fetched, generalNews: Fetched)
    requires |clean| > 0 && AllDelivered(clean, companyNews)
    ensures var requests := Prefetch(clean, companyNews, map[]).requests;
      SymbolPath(clean, companyNews, generalNews)
        == if |Picked(clean, companyNews)| > 0
           then Outcome(requests, Ok(Newest(Picked(clean, companyNews))))
           else GeneralFallback(requests, generalNews)
  {
    PrefetchBuildsExpectedQueues(clean, companyNews);
  }

  /** The prefetch asks for company news only. */
  lemma PrefetchAsksCompanyNews(clean: seq<string>, companyNews: string -> Fetched)
    ensures GeneralNews !in Prefetch(clean, companyNews, map[]).requests
  {
    var requests := Prefetch(clean, companyNews, map[]).requests;
    PrefetchRequests(clean, companyNews, map[]);
    assert forall i :: 0 <= i < |requests| ==> requests[i].CompanyNews?;
  }

  /** The general feed is requested exactly when the key is set and either
      no symbol survives cleaning or every symbol's request succeeded and the
      round robin picked nothing. */
  lemma GeneralRequestedIff(symbols: Option<seq<string>>, apiKey: string, companyNews: string -> Fetched, generalNews: Fetched)
    ensures var clean := CleanSymbols(symbols);
      GeneralNews in GetNews(symbols, apiKey, companyNews, generalNews).requests <==>
        && apiKey != ""
        && (clean == [] || (AllDelivered(clean, companyNews) && Picked(clean, companyNews) == []))
  {
    var clean := CleanSymbols(symbols);
    if apiKey != "" && |clean| > 0 {
      PrefetchAsksCompanyNews(clean, companyNews);
      var requests := Prefetch(clean, companyNews, map[]).requests;
      if AllDelivered(clean, companyNews) {
        SymbolPathDelivered(clean, companyNews, generalNews);
        assert GeneralNews in requests + [GeneralNews];
      } else {
        SymbolPathFails(clean, companyNews, generalNews);
      }
    } else if apiKey != "" {
      assert GeneralNews in [] + [GeneralNews];
    }
  }

  /** `getNews` throws exactly when the key is missing, a company-news
      request fails, or the general feed is requested and fails. */
  lemma FailsIff(symbols: Option<seq<string>>, apiKey: string, companyNews: string -> Fetched, generalNews: Fetched)
    ensures var clean := CleanSymbols(symbols);
      var o := GetNews(symbols, apiKey, companyNews, generalNews);
      o.result.FailedToFetchNews? <==>
        || apiKey == ""
        || (clean != [] && !AllDelivered(clean, companyNews))
        || (GeneralNews in o.requests && generalNews.HttpError?)
  {
    GeneralRequestedIff(symbols, apiKey, companyNews, generalNews);
    var clean := CleanSymbols(symbols);
    if apiKey != "" && |clean| > 0 {
      if AllDelivered(clean, companyNews) {
        SymbolPathDelivered(clean, companyNews, generalNews);
      } else {
        SymbolPathFails(clean, companyNews, generalNews);
      }
    }
  }

  /** With every company-news request delivered, `getNews` asks for each
      cleaned symbol's news once, in order, and then at most for the general
      feed. */
  lemma RequestsWhenDelivered(symbols: Option<seq<string>>, apiKey: string, companyNews: string -> Fetched, generalNews: Fetched)
    requires apiKey != ""
    requires AllDelivered(CleanSymbols(symbols), companyNews)
    ensures var clean := CleanSymbols(symbols);
      var requests := GetNews(symbols, apiKey, companyNews, generalNews).requests;
      requests == CompanyRequests(clean) || requests == CompanyRequests(clean) + [GeneralNews]
  {
    var clean := CleanSymbols(symbols);
    if |clean| > 0 {
      PrefetchCompletesIff(clean, companyNews, map[]);
      PrefetchRequests(clean, companyNews, map[]);
      assert clean[..|clean|] == clean;
      SymbolPathDelivered(clean, companyNews, generalNews);
    } else {
      assert CompanyRequests(clean) == [];
    }
  }

  /** When a company-news request fails, `getNews` has asked for the cleaned
      symbols in order up to and including the first one that fails, and for
      nothing else. */
  lemma RequestsWhenFailed(symbols: Option<seq<string>>, apiKey: string, companyNews: string -> Fetched, generalNews: Fetched)
    requires apiKey != ""
    requires !AllDelivered(CleanSymbols(symbols), companyNews)
    ensures var clean := CleanSymbols(symbols);
      var requests := GetNews(symbols, apiKey, companyNews, generalNews).requests;
      var k := |requests|;
      && 0 < k <= |clean|
      && requests == CompanyRequests(clean[..k])
      && companyNews(clean[k - 1]).HttpError?
      && AllDelivered(clean[..k - 1], companyNews)
  {
    var clean := CleanSymbols(symbols);
    SymbolPathFails(clean, companyNews, generalNews);
    PrefetchStopsAtFailure(clean, companyNews, map[]);
    PrefetchRequests(clean, companyNews, map[]);
  }

  /** On the symbol path the result is the round-robin pick, sorted newest
      first: the same articles, none lost, none added. */
  lemma SymbolPathReturnsPicked(symbols: Option<seq<string>>, apiKey: string, companyNews: string -> Fetched, generalNews: Fetched)
    requires apiKey != "" && |CleanSymbols(symbols)| > 0
    requires AllDelivered(CleanSymbols(symbols), companyNews)
    requires |Picked(CleanSymbols(symbols), companyNews)| > 0
    ensures var o := GetNews(symbols, apiKey, companyNews, generalNews);
      && o.result.Ok?
      && multiset(o.result.articles) == multiset(Picked(CleanSymbols(symbols), companyNews))
  {
    SymbolPathDelivered(CleanSymbols(symbols), companyNews, generalNews);
  }

  /** `a` is the normalisation of an article in the response for one of
      the symbols `clean`. */
  predicate FromResponses(a: Article, clean: seq<string>, companyNews: string -> Fetched) {
    exists i, j :: 0 <= i < |clean| && companyNews(clean[i]).Delivered?
                   && 0 <= j < |companyNews(clean[i]).items|
                   && Normalize(companyNews(clean[i]).items[j]) == Some(a)
  }

  /** Every article the round robin picks comes from the response for one
      of the cleaned symbols. */
  lemma PickedProvenance(clean: seq<string>, companyNews: string -> Fetched, a: Article)
    requires |clean| > 0 && AllDelivered(clean, companyNews)
    requires a in Picked(clean, companyNews)
    ensures FromResponses(a, clean, companyNews)
  {
    var queues := ExpectedQueues(clean, companyNews);
    assert Queued(a, queues);
    var s :| s in queues && a in queues[s];
    var i :| 0 <= i < |clean| && clean[i] == s;
    PrepareQueueMembers(companyNews(s).items, a);
  }

  /** Every article the symbol path returns is the normalisation of an
      article in the response for one of the cleaned symbols. */
  lemma SymbolPathProvenance(symbols: Option<seq<string>>, apiKey: string, companyNews: string -> Fetched, generalNews: Fetched)
    requires apiKey != "" && |CleanSymbols(symbols)| > 0
    requires AllDelivered(CleanSymbols(symbols), companyNews)
    requires |Picked(CleanSymbols(symbols), companyNews)| > 0
    ensures var o := GetNews(symbols, apiKey, companyNews, generalNews);
      && o.result.Ok?
      && forall a :: a in o.result.articles ==> FromResponses(a, CleanSymbols(symbols), companyNews)
  {
    var clean := CleanSymbols(symbols);
    var o := GetNews(symbols, apiKey, companyNews, generalNews);
    SymbolPathReturnsPicked(symbols, apiKey, companyNews, generalNews);
    forall a | a in o.result.articles ensures FromResponses(a, clean, companyNews) {
      assert a in multiset(o.result.articles);
      PickedProvenance(clean, companyNews, a);
    }
  }

  /** A symbol's turn can pick nothing exactly when every article of its
      response has a NaN timestamp. */
  lemma BarrenIffAllNaN(clean: seq<string>, companyNews: string -> Fetched, i: nat)
    requires AllDelivered(clean, companyNews) && i < |clean|
    ensures Barren(ExpectedQueues(clean, companyNews), clean[i]) <==> AllNaN(companyNews(clean[i]).items)
  {
    var q := PrepareQueue(companyNews(clean[i]).items);
    assert QueueOf(ExpectedQueues(clean, companyNews), clean[i]) == q;
    if q != [] {
      assert Eligible(q[0], {});
    }
    PrepareQueueEmptyIff(companyNews(clean[i]).items);
  }

  /** The round robin picks nothing exactly when, for each of the first
      `MAX_ARTICLES` cleaned symbols, every article of its response has a NaN
      timestamp; the responses for later symbols play no part. */
  lemma PickedEmptyIff(clean: seq<string>, companyNews: string -> Fetched)
    requires |clean| > 0 && AllDelivered(clean, companyNews)
    ensures Picked(clean, companyNews) == [] <==>
              forall i :: 0 <= i < |clean| && i < MaxArticles ==> AllNaN(companyNews(clean[i]).items)
  {
    SelectEmptyIff(clean, ExpectedQueues(clean, companyNews));
    forall i | 0 <= i < |clean|
      ensures Barren(ExpectedQueues(clean, companyNews), clean[i]) <==> AllNaN(companyNews(clean[i]).items)
    {
      BarrenIffAllNaN(clean, companyNews, i);
    }
  }

  /** Two providers that answer the same for the first `MAX_ARTICLES`
      cleaned symbols lead to the same pick, whatever they answer for the
      rest. */
  lemma PickedOnlyReadsTurns(clean: seq<string>, f1: string -> Fetched, f2: string -> Fetched)
    requires |clean| > 0 && AllDelivered(clean, f1) && AllDelivered(clean, f2)
    requires forall i :: 0 <= i < |clean| && i < MaxArticles ==> f1(clean[i]) == f2(clean[i])
    ensures Picked(clean, f1) == Picked(clean, f2)
  {
    SelectOnlyReadsTurns(clean, ExpectedQueues(clean, f1), ExpectedQueues(clean, f2));
  }

  /** When the general feed is used and delivered, the result is its newest
      `MAX_ARTICLES` distinct articles; when the feed has no more than that,
      every key of the feed is in the result. */
  lemma GeneralPathResult(symbols: Option<seq<string>>, apiKey: string, companyNews: string -> Fetched, generalNews: Fetched)
    requires GeneralNews in GetNews(symbols, apiKey, companyNews, generalNews).requests
    requires generalNews.Delivered?
    ensures var o := GetNews(symbols, apiKey, companyNews, generalNews);
      && o.result == Ok(GeneralArticles(generalNews.items))
      && (|GeneralPool(generalNews.items)| <= MaxArticles ==>
            forall a :: Some(a) in NormalizeAll(generalNews.items) ==> UniqueKey(a) in KeysOf(o.result.articles))
  {
    GeneralRequestedIff(symbols, apiKey, companyNews, generalNews);
    var clean := CleanSymbols(symbols);
    if |clean| > 0 {
      SymbolPathDelivered(clean, companyNews, generalNews);
    }
    GeneralFeedComplete(generalNews.items);
  }

  /** A general feed of at most `MAX_ARTICLES` distinct articles is passed
      on whole: every key it carries is in the result. */
  lemma GeneralFeedComplete(raw: seq<RawArticle>)
    ensures |GeneralPool(raw)| <= MaxArticles ==>
              forall a :: Some(a) in NormalizeAll(raw) ==> UniqueKey(a) in KeysOf(GeneralArticles(raw))
  {
    var pool := GeneralPool(raw);
    var r := GeneralArticles(raw);
    if |pool| <= MaxArticles {
      forall a | Some(a) in NormalizeAll(raw) ensures UniqueKey(a) in KeysOf(r) {
        assert UniqueKey(a) in KeysOf(pool);
        var b :| b in pool && UniqueKey(b) == UniqueKey(a);
        assert b in multiset(pool);
        assert b in multiset(r);
      }
    }
  }

  /** Every article the general path returns is the normalisation of an
      article of the general feed, the first one with its key. */
  lemma GeneralPathProvenance(symbols: Option<seq<string>>, apiKey: string, companyNews: string -> Fetched, generalNews: Fetched)
    requires GeneralNews in GetNews(symbols, apiKey, companyNews, generalNews).requests
    requires generalNews.Delivered?
    ensures var o := GetNews(symbols, apiKey, companyNews, generalNews);
      && o.result.Ok?
      && forall a :: a in o.result.articles ==>
           FromFeed(a, generalNews.items) && FirstWithKey(NormalizeAll(generalNews.items), UniqueKey(a)) == Some(a)
  {
    GeneralPathResult(symbols, apiKey, companyNews, generalNews);
    forall a | a in GeneralArticles(generalNews.items)
      ensures FromFeed(a, generalNews.items) && FirstWithKey(NormalizeAll(generalNews.items), UniqueKey(a)) == Some(a)
    {
      GeneralArticlesProvenance(generalNews.items, a);
    }
  }
}
