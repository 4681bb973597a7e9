# News selection of `getNews`

This project is a Dafny model of `getNews` in `lib/actions/finnhub.actions.ts`, the server action that builds a user's market-news list. The model proves properties about it. The action works in these steps:

- It fails straight away when the API key is missing.
- It cleans the watch-list symbols: each is trimmed and upper-cased, and the empty ones are dropped.
- It fetches each symbol's company news. It normalises every article, keeping the valid ones, and sorts each symbol's queue newest first.
- For `MAX_ARTICLES` (6) rounds it takes turns over the symbols. In each round it shifts the current symbol's queue until it finds a valid article whose dedup key has not been seen yet.
- It returns the picked articles, newest first.
- When the watch list is empty after cleaning, or nothing was picked, it fetches the general feed instead. It normalises and deduplicates that feed and returns its six newest articles.
- Every failure is caught and rethrown as one generic error.

In the model, the provider is a set of parameters:

- `companyNews(sym)` is the response to the company-news request for `sym`.
- `generalNews` is the response to the general-feed request.
- Each response is either an article list or an HTTP error.

The outcome records the requests sent, in order, together with the result or the error.

Modules:

- `Js` (`js.dfy`) covers the JavaScript values and built-ins the code relies on:
  - optional fields and numbers that may be NaN;
  - `trim`, ASCII `toUpperCase`;
  - `String(n)` for integers.
- `Articles` (`articles.dfy`) covers raw and normalised articles, `isValidArticle`, `normalize`, `uniqueKey` and `dedupe`.
- `Ordering` (`ordering.dfy`) covers the stable newest-first sort and the slice to six articles.
- `RoundRobin` (`round_robin.dfy`) and `SelectionFacts` (`selection_facts.dfy`) cover the round-robin loop over the per-symbol queues.
- `Symbols` (`symbols.dfy`) covers symbol cleaning.
- `News` (`news.dfy`) covers the prefetch, the general fallback and `getNews` itself.

Where the code behaves in a way a reader might not expect, the model follows the code:

- **Failures are not isolated per symbol.** The company-news fetch in the loop has no `try` of its own. One failed symbol therefore makes the whole call throw `Failed to fetch news`; it does not fall back to the other symbols or to the general feed.
- **Articles without an id, url or headline are kept.** `normalize` gives a missing id the value `0`, which is a number. The id test in `isValidArticle` therefore always passes, so such articles are not dropped. A normalised article is valid exactly when its timestamp is not NaN. A missing timestamp becomes `0` and is valid too.
- **The missing-key error is caught like every other error.** It is thrown inside the `try`, so the caller sees `Failed to fetch news`, not the missing-key message.
- **A symbol listed twice is fetched twice.** Its one map entry is set twice, so both occurrences share that entry's queue, and the symbol takes two turns from it.

## Model

| member | source | states |
|---|---|---|
| Articles.IsValidArticle | lib/actions/finnhub.actions.ts:32-40 | On a normalised article, validity holds exactly when the timestamp is a number other than NaN. The id is always a number, so the key condition never rejects anything. |
| Articles.Normalize | lib/actions/finnhub.actions.ts:65-78 | An article comes out exactly when the raw timestamp is not NaN, and it is valid. Each of id, headline, url, datetime, source, summary, category and related is copied when present and becomes `''` or `0` when missing. `image` is passed through as it is. |
| Articles.NormalizeRoundTrip | lib/actions/finnhub.actions.ts:65-78 | Normalising the raw form of a valid normalised article gives it back. A raw article with every field present survives normalisation unchanged. |
| Articles.NormalizeAll | lib/actions/finnhub.actions.ts:107 | Mapping `normalize` over a response keeps its length, and entry `i` is the normalisation of article `i`. |
| Articles.Present | lib/actions/finnhub.actions.ts:107 | Filtering out `undefined` keeps exactly the articles that were present, and never adds entries. |
| Articles.PresentAppend | lib/actions/finnhub.actions.ts:107 | Filtering a concatenation gives the concatenation of the filtered parts, so order and duplicates are kept. |
| Articles.PresentSingle | lib/actions/finnhub.actions.ts:107 | A single entry is kept exactly when it is present. With `Articles.PresentAppend` this fixes the filter's output entry by entry. |
| Articles.PresentNormalizedValid | lib/actions/finnhub.actions.ts:107 | Every article that survives `map(normalize).filter(Boolean)` is valid. |
| Articles.UniqueKey | lib/actions/finnhub.actions.ts:42-49 | The key is never empty. Its partners are `Articles.PositiveIdsKeyApart` for when two keys agree and `Articles.PositiveIdKeyParsesBack` for reading a key back. |
| Articles.PositiveIdsKeyApart | lib/actions/finnhub.actions.ts:44 | Two articles with positive ids share a key exactly when their ids are equal, whatever their other fields. |
| Articles.PositiveIdKeyParsesBack | lib/actions/finnhub.actions.ts:44 | The key of a positive id is all digits and reads back as that id. |
| Articles.DedupeFrom | lib/actions/finnhub.actions.ts:80-91 | Run with keys already seen, the loop of `dedupe` returns a subsequence of the present articles. Its keys are pairwise distinct and none was seen before. Each article returned is the first in the list with its key. Every present key was either seen before or appears in the output. |
| Articles.DedupeFromAppend | lib/actions/finnhub.actions.ts:80-91 | The loop of `dedupe` goes through the list in order. Deduplicating a concatenation gives the first part's output followed by the second part's, and the second part is deduplicated against every key the first part kept. So the output keeps the order of first appearance. |
| Articles.DedupeFromSingle | lib/actions/finnhub.actions.ts:80-91 | A single entry is kept exactly when it is an article whose key has not been seen. With `Articles.DedupeFromAppend` this fixes the output of `dedupe` entry by entry. |
| Articles.Dedupe | lib/actions/finnhub.actions.ts:80-91 | `dedupe` drops the `undefined` entries and returns a subsequence with pairwise distinct keys. Each article kept is the first with its key, and every key of the input appears in the output. |
| Articles.SubsequenceMembers | lib/actions/finnhub.actions.ts:80-91 | Everything in a subsequence is in the sequence, so `dedupe` passes on only articles that were in its input. |
| Articles.DedupeNormalizedValid | lib/actions/finnhub.actions.ts:145 | `dedupe` over normalised articles returns only valid articles, so the later `filter(isValidArticle)` removes nothing. |
| Js.Trim | lib/actions/finnhub.actions.ts:97 | `trim` returns the slice of the input between its leading and trailing whitespace. It starts and ends with a non-whitespace character, and everything cut away is whitespace. |
| Js.ToUpper | lib/actions/finnhub.actions.ts:97 | `toUpperCase` keeps the length, maps each character on its own, and leaves no lower-case ASCII letter. |
| Js.ParseNatToString | lib/actions/finnhub.actions.ts:44 | `String(n)` of a natural number reads back as `n`. |
| Js.NatToStringInjective | lib/actions/finnhub.actions.ts:44 | Distinct natural numbers have distinct decimal strings. |
| Symbols.CleanSymbol | lib/actions/finnhub.actions.ts:97 | A cleaned symbol is never longer than the input. It is empty exactly when the input is all whitespace; otherwise it has no whitespace at either end and no lower-case ASCII letter. |
| Symbols.CleanSymbols | lib/actions/finnhub.actions.ts:96-97 | A missing watch list cleans to no symbols. A present one cleans to a list no longer than it, of clean symbols only. Its partner `Symbols.CleanAllMembers` says which symbols those are. |
| Symbols.CleanAll | lib/actions/finnhub.actions.ts:96-97 | The cleaned list is never longer than the input, and every entry in it is clean. |
| Symbols.CleanAllMembers | lib/actions/finnhub.actions.ts:96-97 | A string is in the cleaned list exactly when it is the non-empty cleaning of some input symbol. |
| Symbols.CleanAllAppend | lib/actions/finnhub.actions.ts:96-97 | Cleaning a concatenation gives the concatenation of the cleaned parts, so order and duplicates are kept. |
| Symbols.CleanAllSingle | lib/actions/finnhub.actions.ts:96-97 | A single symbol is kept, cleaned, exactly when it is not all whitespace. |
| Symbols.CleanAllEmptyIff | lib/actions/finnhub.actions.ts:96-99 | The cleaned list is empty exactly when every symbol is all whitespace. |
| Symbols.CleanSymbolIdempotent | lib/actions/finnhub.actions.ts:97 | Cleaning a cleaned symbol changes nothing. |
| Symbols.CleanAllIdempotent | lib/actions/finnhub.actions.ts:96-97 | Cleaning a cleaned list changes nothing. |
| Ordering.Insert | lib/actions/finnhub.actions.ts:109 | Inserting into a newest-first list gives a newest-first list that is the old one plus the new article, as a multiset. |
| Ordering.SortNewestFirst | lib/actions/finnhub.actions.ts:109 | The comparator sort yields a newest-first permutation of its input. |
| Ordering.SortStable | lib/actions/finnhub.actions.ts:109 | The sort is stable: for every timestamp, the articles with that timestamp keep their relative order. |
| Ordering.SortKeepsDistinctKeys | lib/actions/finnhub.actions.ts:134 | Sorting a list with distinct keys keeps the keys distinct. |
| Ordering.Newest | lib/actions/finnhub.actions.ts:134-135 | Sort-then-slice returns `min(n, 6)` articles, newest first. They are a sub-multiset of the input and none is older than an article left out. All articles are returned when there are at most six. Distinct keys and validity are kept. |
| RoundRobin.TurnIndexIsRemainder | lib/actions/finnhub.actions.ts:117 | The symbol index of round `r` is `r % n`. |
| RoundRobin.Scan | lib/actions/finnhub.actions.ts:120-128 | The inner `while` never grows the queue. A chosen article is eligible: it is valid and its key has not been seen. Choosing nothing uses the queue up. Its partner `RoundRobin.ScanSpec` places the choice in the queue. |
| RoundRobin.ScanSpec | lib/actions/finnhub.actions.ts:120-128 | The inner `while` leaves a suffix of the queue. Either it exhausts the queue without meeting an eligible article, or it chooses the first eligible article and removes it together with every ineligible article before it. |
| RoundRobin.Round | lib/actions/finnhub.actions.ts:116-130 | A round keeps everything picked before and picks at most one article. |
| RoundRobin.RoundShortensQueues | lib/actions/finnhub.actions.ts:118-123 | A round leaves each queue as a suffix of itself, so shifted articles are gone for good. |
| RoundRobin.RoundTouchesOnlyItsSymbol | lib/actions/finnhub.actions.ts:117-118 | Round `r` changes only the queue of `cleanSymbols[r % n]`. |
| RoundRobin.RoundPicksNothing | lib/actions/finnhub.actions.ts:121-129 | A round that picks nothing empties its symbol's queue, which held no eligible article, and leaves `seen` alone. |
| RoundRobin.RoundPicks | lib/actions/finnhub.actions.ts:124-129 | An article a round picks was eligible, was in its symbol's queue, and has its key added to `seen`. |
| RoundRobin.RoundConsistent | lib/actions/finnhub.actions.ts:113-129 | A round keeps `seen` equal to the keys of `picked`, those keys pairwise distinct, and `picked` valid. |
| RoundRobin.RunRounds | lib/actions/finnhub.actions.ts:116-130 | The remaining rounds keep what was picked and add at most one article per round. |
| RoundRobin.RunRoundsShortenQueues | lib/actions/finnhub.actions.ts:116-130 | Over all rounds, each queue only loses articles from its front. |
| RoundRobin.RunRoundsProvenance | lib/actions/finnhub.actions.ts:116-130 | Every article picked in the loop was in one of the queues before the loop. |
| RoundRobin.RunRoundsConsistent | lib/actions/finnhub.actions.ts:113-130 | The loop as a whole keeps `seen`, `picked` and their distinct keys consistent. |
| RoundRobin.Select | lib/actions/finnhub.actions.ts:113-130 | `picked` has at most six valid articles with pairwise distinct keys, each taken from one of the queues. |
| RoundRobin.RoundOnFertileQueue | lib/actions/finnhub.actions.ts:121-129 | A round whose queue holds an eligible article picks one. |
| RoundRobin.RoundOnBarrenQueue | lib/actions/finnhub.actions.ts:121-129 | From the start state, a round over a queue without valid articles picks nothing and changes no queue's barrenness. |
| SelectionFacts.RunRoundsOverBarren | lib/actions/finnhub.actions.ts:116-130 | Starting from a state with nothing picked and nothing seen, when no remaining round's queue holds a valid article, nothing is picked. |
| SelectionFacts.RunRoundsReachFertile | lib/actions/finnhub.actions.ts:116-130 | Starting from a state with nothing picked and nothing seen, when some remaining round's symbol has a valid article in its queue, something is picked. |
| SelectionFacts.SelectEmptyIff | lib/actions/finnhub.actions.ts:113-132 | Nothing is picked exactly when none of the first `min(6, n)` symbols has a valid article in its queue. |
| SelectionFacts.RunRoundsCongruent | lib/actions/finnhub.actions.ts:116-130 | Two loop states with the same `seen`, the same `picked`, and the same queues for the symbols with a turn pick the same articles. |
| SelectionFacts.SelectOnlyReadsTurns | lib/actions/finnhub.actions.ts:117 | Symbols after the sixth never get a turn: their queues do not affect the pick. |
| News.PrepareQueue | lib/actions/finnhub.actions.ts:106-110 | A symbol's queue is valid, newest first, and a permutation of the normalised articles of its response. |
| News.PrepareQueueMembers | lib/actions/finnhub.actions.ts:107 | An article is in a queue exactly when it is the normalisation of an article of the response. |
| News.PrepareQueueEmptyIff | lib/actions/finnhub.actions.ts:107 | A queue is empty exactly when every article of the response has a NaN timestamp. |
| News.Prefetch | lib/actions/finnhub.actions.ts:101-111 | The prefetch sends at most one request per symbol. Its partners are `News.PrefetchCompletesIff`, `News.PrefetchStopsAtFailure` and `News.PrefetchBuildsExpectedQueues`. |
| News.PrefetchCompletesIff | lib/actions/finnhub.actions.ts:102-111 | The prefetch builds its map exactly when every company-news request succeeds, and then it has sent one request per symbol. |
| News.PrefetchStopsAtFailure | lib/actions/finnhub.actions.ts:102-111 | When a request fails, it is the last one sent, and every symbol before it was delivered. |
| News.PrefetchRequests | lib/actions/finnhub.actions.ts:102-106 | The prefetch sends company-news requests for the symbols it reaches, in order. |
| News.PrefetchKeys | lib/actions/finnhub.actions.ts:101-110 | A complete prefetch has an entry for each symbol and for nothing else. |
| News.PrefetchValue | lib/actions/finnhub.actions.ts:106-110 | Each symbol's entry is the queue of its response, also when the symbol is listed twice. |
| News.PrefetchKeepsOthers | lib/actions/finnhub.actions.ts:110 | Setting a symbol's entry leaves the entries of other symbols alone. |
| News.PrefetchBuildsExpectedQueues | lib/actions/finnhub.actions.ts:99-111 | A complete prefetch builds exactly the map from each symbol to the queue of its response. |
| News.FilterValid | lib/actions/finnhub.actions.ts:145 | `filter(isValidArticle)` returns a subsequence made only of valid articles. |
| News.FilterValidAppend | lib/actions/finnhub.actions.ts:145 | Filtering a concatenation gives the concatenation of the filtered parts, so order is kept. |
| News.FilterValidSingle | lib/actions/finnhub.actions.ts:145 | A single article is kept exactly when it is valid. With `News.FilterValidAppend` this fixes the filter's output article by article. |
| News.FilterValidKeepsValid | lib/actions/finnhub.actions.ts:145 | The filter leaves a list of valid articles as it is. |
| News.GeneralPool | lib/actions/finnhub.actions.ts:145 | The deduplicated general feed is `dedupe` of the normalised feed, so `Articles.DedupeFromAppend` fixes its order. It is a subsequence of the present normalised articles. Its keys are distinct and its articles valid. Each article in it is the first of the feed with its key, and every key of the normalised feed is in it. |
| News.GeneralArticles | lib/actions/finnhub.actions.ts:145-149 | The general result has exactly `min(6, n)` articles for a deduplicated feed of `n`. They are newest first, with distinct keys and all valid. They are the newest of the deduplicated feed, and all of it when it has at most six. |
| News.GeneralArticlesProvenance | lib/actions/finnhub.actions.ts:145-149 | Every article of the general result is the normalisation of an article of the feed, and the first of the feed with its key. |
| News.GeneralFallback | lib/actions/finnhub.actions.ts:140-149 | The fallback sends exactly one more request, for the general feed. It fails exactly when that request fails, and otherwise returns the general result. |
| News.SymbolPath | lib/actions/finnhub.actions.ts:99-138 | A successful result of the symbol path has at most six articles, newest first, with distinct keys and all valid. |
| News.GetNews | lib/actions/finnhub.actions.ts:51-155 | A missing key fails before any request. Any successful result has at most six articles, newest first, with distinct keys and all valid. |
| News.SymbolPathFails | lib/actions/finnhub.actions.ts:99-153 | A failed company-news request ends the call with the generic error; nothing more is requested. |
| News.SymbolPathDelivered | lib/actions/finnhub.actions.ts:113-138 | When every company-news request succeeds, the result is the sorted pick, or the general fallback when nothing was picked. |
| News.GeneralRequestedIff | lib/actions/finnhub.actions.ts:53-144 | The general feed is requested exactly when the key is set and either no symbol survives cleaning, or every symbol was delivered and the round robin picked nothing. |
| News.FailsIff | lib/actions/finnhub.actions.ts:51-155 | `getNews` throws exactly when the key is missing, a company-news request fails, or the general feed is requested and fails. |
| News.RequestsWhenDelivered | lib/actions/finnhub.actions.ts:99-144 | With every symbol delivered, the requests are one company-news request per cleaned symbol in order, then possibly the general feed. |
| News.RequestsWhenFailed | lib/actions/finnhub.actions.ts:99-153 | After a failure, the requests are the cleaned symbols in order, up to and including the first failing one. |
| News.SymbolPathReturnsPicked | lib/actions/finnhub.actions.ts:132-135 | On the symbol path, the result is a permutation of the pick: nothing is lost or added. |
| News.PickedProvenance | lib/actions/finnhub.actions.ts:106-130 | Each picked article is the normalisation of an article in some cleaned symbol's response. |
| News.SymbolPathProvenance | lib/actions/finnhub.actions.ts:99-136 | Each article the symbol path returns comes from some cleaned symbol's response. |
| News.BarrenIffAllNaN | lib/actions/finnhub.actions.ts:107-128 | Before anything is picked, a symbol's queue offers nothing exactly when every article of its response has a NaN timestamp. |
| News.PickedEmptyIff | lib/actions/finnhub.actions.ts:113-132 | The pick is empty, and the general feed is used, exactly when each of the first `min(6, n)` cleaned symbols' responses has only NaN timestamps. |
| News.PickedOnlyReadsTurns | lib/actions/finnhub.actions.ts:116-118 | Responses for symbols after the sixth cannot change the pick. |
| News.GeneralPathResult | lib/actions/finnhub.actions.ts:140-149 | When the general feed is requested and delivered, the result is its newest six distinct articles. A feed of at most six keeps every key. |
| News.GeneralPathProvenance | lib/actions/finnhub.actions.ts:140-149 | When the general feed is requested and delivered, the call succeeds and every article it returns is the normalisation of a feed article, the first with its key. |
| News.GeneralFeedComplete | lib/actions/finnhub.actions.ts:145-149 | A deduplicated general feed of at most six articles is returned whole, key by key. |

## Left out

- HTTP I/O is not modelled. `fetchJSON`, the request URLs, `encodeURIComponent` and the `revalidate` caching options (lines 18-28, 103-106, 141-144) are replaced by the response parameters. A request is identified by its kind and symbol.
- The date window (`new Date`, `setDate`, `toISOString`, lines 30, 57-62) depends on the wall clock and only feeds the query string.
- The `console.error` logging in the `catch` block is not modelled; the block is modelled only as the generic error outcome.
- A response that is not a JSON array (a provider error object with status 200) is outside the model; every delivered response is an article list.
- Only integer and NaN numbers are modelled. Fractional numbers, infinities, `String` in exponent notation, and JSON values whose type differs from the declared field types are outside the model.
- `trim` strips the full ECMAScript whitespace set, but `toUpperCase` maps only the ASCII letters. Non-ASCII case mapping is left out.
- A symbol fetched twice is assumed to receive the same response twice, because responses are a function of the symbol.
- Ordering.Time: it maps a NaN timestamp to 0, whereas the JavaScript comparator would return NaN. Only valid articles are ever sorted, so the difference never arises.
- Articles.UniqueKey: its `?? '0'` and `?? 'unknown'` branches are not modelled, because no normalised article has a nullish timestamp or source.
