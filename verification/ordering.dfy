/** The ordering `getNews` puts on its results: the stable sort by
    `(b.datetime ?? 0) - (a.datetime ?? 0)`, newest first, and the slice to
    `MAX_ARTICLES` (lib/actions/finnhub.actions.ts, lines 109, 134-135 and
    148-149).
 */
module Ordering {
  import opened Js
  import opened Articles

  /** The sort key the comparator reads. Only valid articles reach a sort, so
      the NaN case, where the comparator is inconsistent, never arises. */
  function Time(a: Article): int {
    match a.datetime
    case Int(n) => n
    case NaN => 0
  }

  predicate SortedNewestFirst(s: seq<Article>) {
    forall i, j :: 0 <= i < j < |s| ==> Time(s[i]) >= Time(s[j])
  }

  /** Every article of `s` is at most as new as `t`. */
  predicate NotNewerThan(s: seq<Article>, t: int) {
    forall i :: 0 <= i < |s| ==> Time(s[i]) <= t
  }

  lemma ConsSorted(x: Article, s: seq<Article>)
    requires SortedNewestFirst(s) && NotNewerThan(s, Time(x))
    ensures SortedNewestFirst([x] + s)
  {
    var r := [x] + s;
    forall i, j | 0 <= i < j < |r| ensures Time(r[i]) >= Time(r[j]) {
      if i > 0 {
        assert r[i] == s[i - 1];
      }
      assert r[j] == s[j - 1];
    }
  }

  /** Inserts `x` into a newest-first list ahead of every article that is not
      newer than it, behind every article that is. */
  function Insert(x: Article, s: seq<Article>): (r: seq<Article>)
    requires SortedNewestFirst(s)
    ensures SortedNewestFirst(r)
    ensures |r| == |s| + 1
    ensures multiset(r) == multiset(s) + multiset{x}
    ensures forall t :: NotNewerThan(s, t) && Time(x) <= t ==> NotNewerThan(r, t)
    decreases |s|
  {
    if |s| == 0 || Time(s[0]) <= Time(x) then
      assert NotNewerThan(s, Time(x)) by {
        forall i | 0 <= i < |s| ensures Time(s[i]) <= Time(x) {
          assert Time(s[i]) <= Time(s[0]);
        }
      }
      ConsSorted(x, s);
      [x] + s
    else
      var rest := Insert(x, s[1..]);
      assert NotNewerThan(s[1..], Time(s[0]));
      ConsSorted(s[0], rest);
      assert s == [s[0]] + s[1..];
      [s[0]] + rest
  }

  /** `Array.prototype.sort` with the newest-first comparator: a stable
      insertion sort. */
  function SortNewestFirst(s: seq<Article>): (r: seq<Article>)
    ensures SortedNewestFirst(r)
    ensures |r| == |s|
    ensures multiset(r) == multiset(s)
  {
    if |s| == 0 then []
    else
      assert s == [s[0]] + s[1..];
      Insert(s[0], SortNewestFirst(s[1..]))
  }

  /** The articles of `s` whose sort key is `t`, in order. */
  function WithTime(s: seq<Article>, t: int): seq<Article> {
    if |s| == 0 then []
    else (if Time(s[0]) == t then [s[0]] else []) + WithTime(s[1..], t)
  }

  lemma {:induction false} WithTimeAppend(a: seq<Article>, b: seq<Article>, t: int)
    ensures WithTime(a + b, t) == WithTime(a, t) + WithTime(b, t)
    decreases |a|
  {
    if |a| == 0 {
      assert a + b == b;
      assert WithTime(a, t) + WithTime(b, t) == WithTime(b, t);
    } else {
      var h := if Time(a[0]) == t then [a[0]] else [];
      var ab := a + b;
      assert ab[0] == a[0];
      assert ab[1..] == a[1..] + b;
      WithTimeAppend(a[1..], b, t);
      calc {
        WithTime(ab, t);
        h + WithTime(a[1..] + b, t);
        h + (WithTime(a[1..], t) + WithTime(b, t));
        (h + WithTime(a[1..], t)) + WithTime(b, t);
      }
    }
  }

  lemma WithTimeSingle(y: Article, t: int)
    ensures WithTime([y], t) == if Time(y) == t then [y] else []
  {
    assert [y][1..] == [];
  }

  /** Putting an article newer than `x` in front of a list that already
      keeps `x` ahead of `tail`'s articles with key `t`. */
  lemma StableStep(x: Article, y: Article, rest: seq<Article>, tail: seq<Article>, t: int)
    requires Time(y) > Time(x)
    requires WithTime(rest, t) == WithTime([x], t) + WithTime(tail, t)
    ensures WithTime([y] + rest, t) == WithTime([x], t) + WithTime([y] + tail, t)
  {
    WithTimeAppend([y], rest, t);
    WithTimeAppend([y], tail, t);
    WithTimeSingle(x, t);
    WithTimeSingle(y, t);
    if Time(x) == t {
      assert WithTime([y], t) == [];
    } else {
      assert WithTime([x], t) == [];
    }
  }

  lemma {:induction false} InsertStable(x: Article, s: seq<Article>, t: int)
    requires SortedNewestFirst(s)
    ensures WithTime(Insert(x, s), t) == WithTime([x], t) + WithTime(s, t)
    decreases |s|
  {
    if |s| == 0 || Time(s[0]) <= Time(x) {
      WithTimeAppend([x], s, t);
    } else {
      InsertStable(x, s[1..], t);
      StableStep(x, s[0], Insert(x, s[1..]), s[1..], t);
      assert s == [s[0]] + s[1..];
    }
  }

  /** The sort is stable: among articles with equal timestamps the input
      order survives. */
  lemma StableCons(x: Article, sorted: seq<Article>, rest: seq<Article>, r: seq<Article>, t: int)
    requires WithTime(r, t) == WithTime([x], t) + WithTime(sorted, t)
    requires WithTime(sorted, t) == WithTime(rest, t)
    ensures WithTime(r, t) == WithTime([x] + rest, t)
  {
    WithTimeAppend([x], rest, t);
  }

  lemma {:induction false} SortStable(s: seq<Article>, t: int)
    ensures WithTime(SortNewestFirst(s), t) == WithTime(s, t)
  {
    if |s| > 0 {
      var sorted := SortNewestFirst(s[1..]);
      assert s == [s[0]] + s[1..];
      SortStable(s[1..], t);
      InsertStable(s[0], sorted, t);
      StableCons(s[0], sorted, s[1..], SortNewestFirst(s), t);
    }
  }

  /** No article of `s` has key `k`. */
  predicate KeyAbsent(s: seq<Article>, k: string) {
    forall i :: 0 <= i < |s| ==> UniqueKey(s[i]) != k
  }

  lemma ConsDistinct(x: Article, s: seq<Article>)
    requires DistinctKeys(s) && KeyAbsent(s, UniqueKey(x))
    ensures DistinctKeys([x] + s)
  {
    var r := [x] + s;
    forall i, j | 0 <= i < j < |r| ensures UniqueKey(r[i]) != UniqueKey(r[j]) {
      if i > 0 {
        assert r[i] == s[i - 1];
      }
      assert r[j] == s[j - 1];
    }
  }

  /** An article of a permutation of `s` plus `x` is `x` or an article of `s`. */
  lemma KeyAbsentPermutation(s: seq<Article>, x: Article, r: seq<Article>, k: string)
    requires multiset(r) == multiset(s) + multiset{x}
    requires KeyAbsent(s, k) && UniqueKey(x) != k
    ensures KeyAbsent(r, k)
  {
    forall i | 0 <= i < |r| ensures UniqueKey(r[i]) != k {
      assert r[i] in multiset(r);
      if r[i] != x {
        assert r[i] in multiset(s);
        var j :| 0 <= j < |s| && s[j] == r[i];
      }
    }
  }

  lemma {:induction false} InsertKeepsDistinctKeys(x: Article, s: seq<Article>)
    requires SortedNewestFirst(s)
    requires DistinctKeys(s) && KeyAbsent(s, UniqueKey(x))
    ensures DistinctKeys(Insert(x, s))
    decreases |s|
  {
    if |s| == 0 || Time(s[0]) <= Time(x) {
      ConsDistinct(x, s);
    } else {
      var rest := Insert(x, s[1..]);
      assert DistinctKeys(s[1..]) && KeyAbsent(s[1..], UniqueKey(x));
      InsertKeepsDistinctKeys(x, s[1..]);
      assert KeyAbsent(s[1..], UniqueKey(s[0]));
      KeyAbsentPermutation(s[1..], x, rest, UniqueKey(s[0]));
      ConsDistinct(s[0], rest);
    }
  }

  /** Sorting is a permutation, so it keeps keys pairwise distinct. */
  lemma {:induction false} SortKeepsDistinctKeys(s: seq<Article>)
    requires DistinctKeys(s)
    ensures DistinctKeys(SortNewestFirst(s))
  {
    if |s| > 0 {
      assert DistinctKeys(s[1..]);
      SortKeepsDistinctKeys(s[1..]);
      var sorted := SortNewestFirst(s[1..]);
      assert KeyAbsent(s[1..], UniqueKey(s[0]));
      forall i | 0 <= i < |sorted| ensures UniqueKey(sorted[i]) != UniqueKey(s[0]) {
        assert sorted[i] in multiset(s[1..]);
        var j :| 0 <= j < |s[1..]| && s[1..][j] == sorted[i];
      }
      InsertKeepsDistinctKeys(s[0], sorted);
    }
  }

  function Cap(s: seq<Article>): nat {
    if |s| < MaxArticles then |s| else MaxArticles
  }

  /** In a newest-first list, nothing after position `n` is newer than
      anything before it. */
  lemma SortedSplit(sorted: seq<Article>, n: nat)
    requires SortedNewestFirst(sorted) && n <= |sorted|
    ensures forall a, b :: a in sorted[..n] && b in multiset(sorted[n..]) ==> Time(b) <= Time(a)
  {
    forall a, b | a in sorted[..n] && b in multiset(sorted[n..]) ensures Time(b) <= Time(a) {
      var i :| 0 <= i < n && sorted[..n][i] == a;
      var j :| 0 <= j < |sorted| - n && sorted[n..][j] == b;
      assert sorted[i] == a && sorted[n + j] == b;
    }
  }

  lemma PrefixOfPermutation(s: seq<Article>, sorted: seq<Article>, n: nat)
    requires multiset(sorted) == multiset(s) && n <= |sorted|
    ensures multiset(sorted[..n]) <= multiset(s)
    ensures multiset(s) - multiset(sorted[..n]) == multiset(sorted[n..])
  {
    assert sorted == sorted[..n] + sorted[n..];
  }

  lemma PermutationKeepsValid(s: seq<Article>, r: seq<Article>)
    requires multiset(r) <= multiset(s)
    ensures AllValid(s) ==> AllValid(r)
  {
    forall i | AllValid(s) && 0 <= i < |r| ensures IsValidArticle(r[i]) {
      assert r[i] in multiset(s);
      var j :| 0 <= j < |s| && s[j] == r[i];
    }
  }

  lemma SortedPrefixKeepsDistinctKeys(s: seq<Article>, n: nat)
    requires n <= |s|
    ensures DistinctKeys(s) ==> DistinctKeys(SortNewestFirst(s)[..n])
  {
    if DistinctKeys(s) {
      SortKeepsDistinctKeys(s);
    }
  }

  /** A prefix of a newest-first list is newest-first. */
  lemma PrefixSorted(sorted: seq<Article>, n: nat)
    requires SortedNewestFirst(sorted) && n <= |sorted|
    ensures SortedNewestFirst(sorted[..n])
  {
    forall i, j | 0 <= i < j < n ensures Time(sorted[..n][i]) >= Time(sorted[..n][j]) {
      assert sorted[..n][i] == sorted[i] && sorted[..n][j] == sorted[j];
    }
  }

  /** The kept prefix is the newest part of the sorted list. */
  lemma NewestKeepsNewest(s: seq<Article>, r: seq<Article>)
    requires r == SortNewestFirst(s)[..Cap(s)]
    ensures multiset(r) <= multiset(s)
    ensures forall a, b :: a in r && b in multiset(s) - multiset(r) ==> Time(b) <= Time(a)
  {
    var sorted := SortNewestFirst(s);
    SortedSplit(sorted, Cap(s));
    PrefixOfPermutation(s, sorted, Cap(s));
  }

  /** A list that already fits loses nothing. */
  lemma NewestKeepsShort(s: seq<Article>, r: seq<Article>)
    requires r == SortNewestFirst(s)[..Cap(s)]
    ensures |s| <= MaxArticles ==> multiset(r) == multiset(s)
  {
    var sorted := SortNewestFirst(s);
    if |s| <= MaxArticles {
      assert r == sorted;
    }
  }

  /** `sort` then `slice(0, MAX_ARTICLES)`: the newest `MAX_ARTICLES` articles
      of `s`, newest first. Nothing left out is newer than anything kept, the
      result is a permutation of `s` when `s` already fits, and distinct keys
      and validity carry over. */
  function Newest(s: seq<Article>): (r: seq<Article>)
    ensures |r| == Cap(s) && |r| <= MaxArticles
    ensures SortedNewestFirst(r)
    ensures multiset(r) <= multiset(s)
    ensures |s| <= MaxArticles ==> multiset(r) == multiset(s)
    ensures forall a, b :: a in r && b in multiset(s) - multiset(r) ==> Time(b) <= Time(a)
    ensures DistinctKeys(s) ==> DistinctKeys(r)
    ensures AllValid(s) ==> AllValid(r)
  {
    var r := SortNewestFirst(s)[..Cap(s)];
    PrefixSorted(SortNewestFirst(s), Cap(s));
    NewestKeepsNewest(s, r);
    NewestKeepsShort(s, r);
    PermutationKeepsValid(s, r);
    SortedPrefixKeepsDistinctKeys(s, Cap(s));
    r
  }
}
