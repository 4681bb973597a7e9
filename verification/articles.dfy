/** Articles as the news provider sends them and as `getNews` passes them on:
    normalisation, the validity test, the dedup key and `dedupe`
    (lib/actions/finnhub.actions.ts, `isValidArticle`, `uniqueKey` and the
    `normalize` / `dedupe` helpers inside `getNews`).
 */
module Articles {
  import opened Js

  /** A raw provider article: every field may be absent. */
  datatype RawArticle = RawArticle(
    id: Option<Number>,
    headline: Option<string>,
    summary: Option<string>,
    source: Option<string>,
    url: Option<string>,
    datetime: Option<Number>,
    category: Option<string>,
    related: Option<string>,
    image: Option<string>)

  /** A normalised article: every field but `image` is filled in. */
  datatype Article = Article(
    id: Number,
    headline: string,
    summary: string,
    source: string,
    url: string,
    datetime: Number,
    category: string,
    related: string,
    image: Option<string>)

  /** `MAX_ARTICLES`: the number of selection rounds and the length bound of the result. */
  const MaxArticles: nat := 6

  // ---------------------------------------------------------------------------
  // validity

  /** `typeof a.id === 'number'`: NaN is a number too, so every normalised
      article passes. */
  predicate HasId(a: Article) {
    match a.id
    case Int(_) => true
    case NaN => true
  }

  /** `hasId || !!a.url || !!a.headline` */
  predicate HasKey(a: Article) {
    HasId(a) || a.url != "" || a.headline != ""
  }

  /** `typeof a.datetime === 'number' && !isNaN(a.datetime)` */
  predicate HasDatetime(a: Article) {
    a.datetime.Int?
  }

  /** `isValidArticle` on a normalised article. Because the id is always
      a number, the key condition never rejects anything and validity comes
      down to the timestamp alone. */
  predicate IsValidArticle(a: Article)
    ensures IsValidArticle(a) <==> a.datetime.Int?
  {
    HasKey(a) && HasDatetime(a)
  }

  predicate AllValid(s: seq<Article>) {
    forall i :: 0 <= i < |s| ==> IsValidArticle(s[i])
  }

  // ---------------------------------------------------------------------------
  // normalize

  /** `normalize`: fills every missing field with `''` or `0`, keeps `image`
      as it is, and yields an article exactly when the result is valid. A
      missing timestamp becomes 0, a number, so the only raw article it
      rejects is one whose timestamp is NaN. */
  function Normalize(raw: RawArticle): (r: Option<Article>)
    ensures r.None? <==> raw.datetime == Some(NaN)
    ensures r.Some? ==> IsValidArticle(r.value)
    ensures r.Some? ==> r.value.id == (if raw.id.Some? then raw.id.value else Int(0))
    ensures r.Some? ==> (raw.headline.Some? ==> r.value.headline == raw.headline.value)
                        && (raw.headline.None? ==> r.value.headline == "")
    ensures r.Some? ==> (raw.url.Some? ==> r.value.url == raw.url.value)
                        && (raw.url.None? ==> r.value.url == "")
    ensures r.Some? ==> (raw.source.Some? ==> r.value.source == raw.source.value)
                        && (raw.source.None? ==> r.value.source == "")
    ensures r.Some? ==> (raw.summary.Some? ==> r.value.summary == raw.summary.value)
                        && (raw.summary.None? ==> r.value.summary == "")
    ensures r.Some? ==> (raw.category.Some? ==> r.value.category == raw.category.value)
                        && (raw.category.None? ==> r.value.category == "")
    ensures r.Some? ==> (raw.related.Some? ==> r.value.related == raw.related.value)
                        && (raw.related.None? ==> r.value.related == "")
    ensures r.Some? ==> (raw.datetime.Some? ==> r.value.datetime == raw.datetime.value)
                        && (raw.datetime.None? ==> r.value.datetime == Int(0))
    ensures r.Some? ==> r.value.image == raw.image
  {
    var a := Article(
      raw.id.GetOr(Int(0)),
      raw.headline.GetOr(""),
      raw.summary.GetOr(""),
      raw.source.GetOr(""),
      raw.url.GetOr(""),
      raw.datetime.GetOr(Int(0)),
      raw.category.GetOr(""),
      raw.related.GetOr(""),
      raw.image);
    if IsValidArticle(a) then Some(a) else None
  }

  /** The raw article that carries every field of `a`. */
  function ToRaw(a: Article): RawArticle {
    RawArticle(Some(a.id), Some(a.headline), Some(a.summary), Some(a.source), Some(a.url),
               Some(a.datetime), Some(a.category), Some(a.related), a.image)
  }

  /** Normalising changes nothing about an article that is already normal and
      valid, and a raw article whose fields are all present loses nothing. */
  lemma NormalizeRoundTrip(a: Article, raw: RawArticle)
    ensures IsValidArticle(a) ==> Normalize(ToRaw(a)) == Some(a)
    ensures Normalize(raw).Some? && raw.id.Some? && raw.headline.Some? && raw.summary.Some?
            && raw.source.Some? && raw.url.Some? && raw.datetime.Some? && raw.category.Some?
            && raw.related.Some?
            ==> ToRaw(Normalize(raw).value) == raw
  {
  }

  /** `raw.map(normalize)` */
  function NormalizeAll(raw: seq<RawArticle>): (r: seq<Option<Article>>)
    ensures |r| == |raw|
    ensures forall i :: 0 <= i < |raw| ==> r[i] == Normalize(raw[i])
  {
    if |raw| == 0 then [] else [Normalize(raw[0])] + NormalizeAll(raw[1..])
  }

  /** `.filter(Boolean)`: the articles of `list`, in order, without the
      `undefined` entries. */
  function Present(list: seq<Option<Article>>): (r: seq<Article>)
    ensures |r| <= |list|
    ensures forall a :: a in r <==> Some(a) in list
  {
    if |list| == 0 then []
    else match list[0]
      case None => Present(list[1..])
      case Some(a) => [a] + Present(list[1..])
  }

  /** Filtering works entry by entry: the filtered concatenation is the
      concatenation of the filtered parts, so order and multiplicity are kept. */
  lemma {:induction false} PresentAppend(a: seq<Option<Article>>, b: seq<Option<Article>>)
    ensures Present(a + b) == Present(a) + Present(b)
    decreases |a|
  {
    if |a| == 0 {
      assert a + b == b;
      assert Present(a) + Present(b) == Present(b);
    } else {
      var head := if a[0].Some? then [a[0].value] else [];
      var ab := a + b;
      assert ab[0] == a[0];
      assert ab[1..] == a[1..] + b;
      PresentAppend(a[1..], b);
      calc {
        Present(ab);
        head + Present(a[1..] + b);
        head + (Present(a[1..]) + Present(b));
        (head + Present(a[1..])) + Present(b);
      }
    }
  }

  /** One entry is kept exactly when it is an article. */
  lemma PresentSingle(x: Option<Article>)
    ensures Present([x]) == if x.Some? then [x.value] else []
  {
    assert [x][1..] == [];
  }

  /** The normalised articles of a fetched list are all valid. */
  lemma PresentNormalizedValid(raw: seq<RawArticle>)
    ensures AllValid(Present(NormalizeAll(raw)))
  {
    var r := Present(NormalizeAll(raw));
    forall i | 0 <= i < |r|
      ensures IsValidArticle(r[i])
    {
      assert Some(r[i]) in NormalizeAll(raw);
    }
  }

  // ---------------------------------------------------------------------------
  // uniqueKey

  predicate HasPositiveId(a: Article) {
    a.id.Int? && a.id.n > 0
  }

  /** `uniqueKey` (the fallback branch reads `datetime ?? '0'` and
      `source ?? 'unknown'`, but neither field of a normalised article is
      nullish). */
  function UniqueKey(a: Article): (k: string)
    ensures |k| > 0
  {
    if HasPositiveId(a) then NatToString(a.id.n)
    else if a.url != "" then a.url
    else if a.headline != "" then a.headline
    else NumberToString(a.datetime) + "-" + a.source
  }

  /** The precedence of `uniqueKey`: a positive id as its decimal string,
      else the url, else the headline, else the timestamp and the source
      joined by a dash; never the empty string. */
  lemma UniqueKeyPrecedence(a: Article)
    ensures |UniqueKey(a)| > 0
    ensures HasPositiveId(a) ==> UniqueKey(a) == NatToString(a.id.n)
    ensures !HasPositiveId(a) && a.url != "" ==> UniqueKey(a) == a.url
    ensures !HasPositiveId(a) && a.url == "" && a.headline != "" ==> UniqueKey(a) == a.headline
    ensures !HasPositiveId(a) && a.url == "" && a.headline == ""
            ==> UniqueKey(a) == NumberToString(a.datetime) + "-" + a.source
  {
  }

  /** Two articles with different positive ids never share a key, whatever
      their other fields. */
  lemma PositiveIdsKeyApart(a: Article, b: Article)
    requires HasPositiveId(a) && HasPositiveId(b)
    ensures UniqueKey(a) == UniqueKey(b) <==> a.id == b.id
  {
    NatToStringInjective(a.id.n, b.id.n);
  }

  /** The key of an article with a positive id reads back as that id. */
  lemma PositiveIdKeyParsesBack(a: Article)
    requires HasPositiveId(a)
    ensures forall i :: 0 <= i < |UniqueKey(a)| ==> IsDigit(UniqueKey(a)[i])
    ensures ParseDecimal(UniqueKey(a)) == a.id.n
  {
    ParseNatToString(a.id.n);
  }

  // ---------------------------------------------------------------------------
  // dedupe

  /** No two articles of `s` share a dedup key. */
  predicate DistinctKeys(s: seq<Article>) {
    forall i, j :: 0 <= i < j < |s| ==> UniqueKey(s[i]) != UniqueKey(s[j])
  }

  function KeysOf(s: seq<Article>): set<string> {
    set a | a in s :: UniqueKey(a)
  }

  /** `a` is `b` with some elements left out, the rest in their order. */
  predicate IsSubsequence<T(==)>(a: seq<T>, b: seq<T>)
    decreases |b|
  {
    |a| == 0 || (|b| > 0 && ((a[0] == b[0] && IsSubsequence(a[1..], b[1..])) || IsSubsequence(a, b[1..])))
  }

  /** Everything in a subsequence is in the sequence. */
  lemma {:induction false} SubsequenceMembers<T>(a: seq<T>, b: seq<T>)
    requires IsSubsequence(a, b)
    ensures forall x :: x in a ==> x in b
    decreases |b|
  {
    if |a| > 0 {
      if a[0] == b[0] && IsSubsequence(a[1..], b[1..]) {
        SubsequenceMembers(a[1..], b[1..]);
        assert forall x :: x in a ==> x == a[0] || x in a[1..];
      } else {
        SubsequenceMembers(a, b[1..]);
      }
      assert forall x :: x in b[1..] ==> x in b;
    }
  }

  /** The first article of `list` whose key is `k`, if any. */
  function FirstWithKey(list: seq<Option<Article>>, k: string): Option<Article> {
    if |list| == 0 then None
    else if list[0].Some? && UniqueKey(list[0].value) == k then list[0]
    else FirstWithKey(list[1..], k)
  }

  /** The loop of `dedupe`, entered with the key set `seen` already collected. */
  function DedupeFrom(list: seq<Option<Article>>, seen: set<string>): (r: seq<Article>)
    ensures DistinctKeys(r)
    ensures forall a :: a in r ==> UniqueKey(a) !in seen
    ensures IsSubsequence(r, Present(list))
    ensures forall a :: a in r ==> FirstWithKey(list, UniqueKey(a)) == Some(a)
    ensures forall i :: 0 <= i < |list| && list[i].Some? ==>
              UniqueKey(list[i].value) in seen || UniqueKey(list[i].value) in KeysOf(r)
  {
    if |list| == 0 then []
    else match list[0]
      case None => DedupeFrom(list[1..], seen)
      case Some(a) =>
        if UniqueKey(a) in seen then DedupeFrom(list[1..], seen)
        else [a] + DedupeFrom(list[1..], seen + {UniqueKey(a)})
  }

  /** `dedupe`: drops the `undefined` entries and keeps, in order, the first
      article of each key. */
  function Dedupe(list: seq<Option<Article>>): (r: seq<Article>)
    ensures DistinctKeys(r)
    ensures IsSubsequence(r, Present(list))
    ensures forall a :: a in r ==> FirstWithKey(list, UniqueKey(a)) == Some(a)
    ensures forall a :: Some(a) in list ==> UniqueKey(a) in KeysOf(r)
  {
    DedupeFrom(list, {})
  }

  /** The keys of an article followed by a list. */
  lemma KeysOfCons(x: Article, rest: seq<Article>)
    ensures KeysOf([x] + rest) == {UniqueKey(x)} + KeysOf(rest)
  {
    assert forall a :: a in [x] + rest <==> a == x || a in rest;
  }

  /** One step of the loop of `dedupe`. */
  lemma DedupeFromStep(list: seq<Option<Article>>, seen: set<string>)
    requires |list| > 0
    ensures DedupeFrom(list, seen) ==
      if list[0].Some? && UniqueKey(list[0].value) !in seen
      then [list[0].value] + DedupeFrom(list[1..], seen + {UniqueKey(list[0].value)})
      else DedupeFrom(list[1..], seen)
  {
  }

  /** The loop of `dedupe` works through the list in order: the second part
      is deduplicated against the keys the first part collected, and its
      output follows the first part's. */
  lemma {:induction false} DedupeFromAppend(a: seq<Option<Article>>, b: seq<Option<Article>>, seen: set<string>)
    ensures DedupeFrom(a + b, seen) == DedupeFrom(a, seen) + DedupeFrom(b, seen + KeysOf(DedupeFrom(a, seen)))
    decreases |a|
  {
    if |a| == 0 {
      assert a + b == b;
      assert KeysOf(DedupeFrom(a, seen)) == {};
      assert seen + {} == seen;
    } else {
      var ab := a + b;
      assert ab[0] == a[0];
      assert ab[1..] == a[1..] + b;
      DedupeFromStep(ab, seen);
      DedupeFromStep(a, seen);
      if a[0].Some? && UniqueKey(a[0].value) !in seen {
        DedupeFromAppendFresh(a, b, seen);
      } else {
        DedupeFromAppend(a[1..], b, seen);
      }
    }
  }

  /** The step of `DedupeFromAppend` where the first entry is kept. */
  lemma {:induction false} DedupeFromAppendFresh(a: seq<Option<Article>>, b: seq<Option<Article>>, seen: set<string>)
    requires |a| > 0 && a[0].Some? && UniqueKey(a[0].value) !in seen
    ensures DedupeFrom(a + b, seen) == DedupeFrom(a, seen) + DedupeFrom(b, seen + KeysOf(DedupeFrom(a, seen)))
    decreases |a|, 0
  {
    var x := a[0].value;
    var k := UniqueKey(x);
    var ab := a + b;
    assert ab[0] == a[0];
    assert ab[1..] == a[1..] + b;
    var rest := DedupeFrom(a[1..], seen + {k});
    var tail := DedupeFrom(b, seen + {k} + KeysOf(rest));
    DedupeFromStep(ab, seen);
    assert DedupeFrom(ab, seen) == [x] + DedupeFrom(a[1..] + b, seen + {k});
    DedupeFromAppend(a[1..], b, seen + {k});
    assert DedupeFrom(ab, seen) == [x] + (rest + tail);
    DedupeFromStep(a, seen);
    assert DedupeFrom(a, seen) == [x] + rest;
    KeysOfCons(x, rest);
    var keys := seen + KeysOf(DedupeFrom(a, seen));
    assert keys == seen + {k} + KeysOf(rest);
    assert DedupeFrom(b, keys) == tail;
    AppendAssociative([x], rest, tail);
  }

  /** Concatenation is associative. */
  lemma AppendAssociative<T>(a: seq<T>, b: seq<T>, c: seq<T>)
    ensures a + (b + c) == (a + b) + c
  {
  }

  /** One entry is kept exactly when it is an article whose key has not been
      seen. */
  lemma DedupeFromSingle(x: Option<Article>, seen: set<string>)
    ensures DedupeFrom([x], seen) == if x.Some? && UniqueKey(x.value) !in seen then [x.value] else []
  {
    assert [x][1..] == [];
  }

  /** `dedupe` over normalised articles passes on valid articles only. */
  lemma DedupeNormalizedValid(raw: seq<RawArticle>)
    ensures AllValid(Dedupe(NormalizeAll(raw)))
  {
    var r := Dedupe(NormalizeAll(raw));
    SubsequenceMembers(r, Present(NormalizeAll(raw)));
    forall i | 0 <= i < |r| ensures IsValidArticle(r[i]) {
      assert r[i] in Present(NormalizeAll(raw));
      assert Some(r[i]) in NormalizeAll(raw);
    }
  }
}
