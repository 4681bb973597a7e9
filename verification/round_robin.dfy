/** The round-robin selection of `getNews` (lib/actions/finnhub.actions.ts,
    lines 113-130): `MAX_ARTICLES` rounds; round `r` shifts articles off the
    queue of `cleanSymbols[r % n]` until it finds one whose key is unseen,
    and every article it shifts is gone from that queue for good.
 */
module RoundRobin {
  import opened Js
  import opened Articles

  /** The test of line 125 passes: the key is unseen and the article valid. */
  predicate Eligible(a: Article, seen: set<string>) {
    UniqueKey(a) !in seen && IsValidArticle(a)
  }

  predicate NoneEligible(queue: seq<Article>, seen: set<string>) {
    forall i :: 0 <= i < |queue| ==> !Eligible(queue[i], seen)
  }

  /** `r % n` for the round counter `r` and the symbol count `n`, written
      as repeated subtraction. */
  function TurnIndex(n: nat, r: nat): (i: nat)
    requires n > 0
    ensures i < n && i <= r
    ensures r < n ==> i == r
  {
    if r < n then r else TurnIndex(n, r - n)
  }

  /** The subtraction above is the remainder that line 117 takes. */
  lemma {:induction false} TurnIndexIsRemainder(n: nat, r: nat)
    requires n > 0
    ensures TurnIndex(n, r) == r % n
  {
    if r >= n {
      TurnIndexIsRemainder(n, r - n);
      SubtractKeepsRemainder(r, n);
    }
  }

  lemma SubtractKeepsRemainder(r: int, n: int)
    requires r >= n > 0
    ensures (r - n) % n == r % n
  {
    var q := (r - n) / n;
    var m := (r - n) % n;
    assert r == (q + 1) * n + m;
    RemainderUnique(r, n, q + 1, m);
  }

  /** Euclidean division leaves only one remainder in `[0, n)`. */
  lemma RemainderUnique(r: int, n: int, q: int, m: int)
    requires n > 0 && 0 <= m < n && r == q * n + m
    ensures r % n == m
  {
    var q' := r / n;
    var m' := r % n;
    assert (q' - q) * n == m - m';
    MultipleBelowDivisor(q' - q, n, m - m');
  }

  lemma MultipleBelowDivisor(k: int, n: int, d: int)
    requires n > 0 && -n < d < n && k * n == d
    ensures k == 0
  {
    if k > 0 {
      MultipleAtLeast(k, n);
    } else if k < 0 {
      MultipleAtLeast(-k, n);
    }
  }

  lemma MultipleAtLeast(k: int, n: int)
    requires k > 0 && n > 0
    ensures k * n >= n
  {
  }

  /** `cleanSymbols[i % cleanSymbols.length]`: the symbol whose queue round
      `r` draws from. */
  function Turn(symbols: seq<string>, r: nat): string
    requires |symbols| > 0
  {
    symbols[TurnIndex(|symbols|, r)]
  }

  /** `a` is what is left of `b` after shifting some articles off its front. */
  predicate IsSuffix(a: seq<Article>, b: seq<Article>) {
    |a| <= |b| && a == b[|b| - |a|..]
  }

  lemma SuffixTransitive(a: seq<Article>, b: seq<Article>, c: seq<Article>)
    requires IsSuffix(a, b) && IsSuffix(b, c)
    ensures IsSuffix(a, c)
  {
    assert b[|b| - |a|..] == c[|c| - |a|..];
  }

  lemma SuffixMember(a: seq<Article>, b: seq<Article>, x: Article)
    requires IsSuffix(a, b) && x in a
    ensures x in b
  {
    var i :| 0 <= i < |a| && a[i] == x;
    assert b[|b| - |a| + i] == x;
  }

  lemma NoneEligibleCons(queue: seq<Article>, k: int, seen: set<string>)
    requires 0 < k < |queue| && !Eligible(queue[0], seen)
    requires NoneEligible(queue[1..][..k - 1], seen)
    ensures NoneEligible(queue[..k], seen)
  {
    forall i | 0 <= i < k ensures !Eligible(queue[..k][i], seen) {
      if i > 0 {
        assert queue[..k][i] == queue[1..][..k - 1][i - 1];
      }
    }
  }

  /** What one round's inner `while` loop leaves: the article it chose, if
      any, and the rest of the queue. */
  datatype Scanned = Scanned(chosen: Option<Article>, rest: seq<Article>)

  /** The inner `while` of one round: shift until an eligible article comes
      up. It is chosen if there is one, and everything ahead of it is
      dropped; otherwise the whole queue is consumed. */
  function Scan(queue: seq<Article>, seen: set<string>): (r: Scanned)
    ensures |r.rest| <= |queue|
    ensures r.chosen.None? ==> r.rest == []
    ensures r.chosen.Some? ==> Eligible(r.chosen.value, seen)
    decreases |queue|
  {
    if |queue| == 0 then Scanned(None, [])
    else
      var candidate := queue[0];
      if UniqueKey(candidate) in seen || !IsValidArticle(candidate) then Scan(queue[1..], seen)
      else Scanned(Some(candidate), queue[1..])
  }

  /** What the scan leaves is a suffix of the queue. When it chooses an
      article, that is the article just ahead of the suffix, it is eligible,
      and nothing shifted before it was; when it chooses none, nothing in the
      queue was eligible and the queue is used up. */
  lemma {:induction false} ScanSpec(queue: seq<Article>, seen: set<string>)
    ensures var r := Scan(queue, seen);
      && IsSuffix(r.rest, queue)
      && (r.chosen.None? ==> r.rest == [] && NoneEligible(queue, seen))
      && (r.chosen.Some? ==>
            && |r.rest| < |queue|
            && queue[|queue| - |r.rest| - 1] == r.chosen.value
            && Eligible(r.chosen.value, seen)
            && NoneEligible(queue[..|queue| - |r.rest| - 1], seen))
    decreases |queue|
  {
    if |queue| > 0 {
      var candidate := queue[0];
      if UniqueKey(candidate) in seen || !IsValidArticle(candidate) {
        ScanSpec(queue[1..], seen);
        var r := Scan(queue[1..], seen);
        assert Scan(queue, seen) == r;
        if r.chosen.Some? {
          NoneEligibleCons(queue, |queue| - |r.rest| - 1, seen);
        } else {
          assert forall i :: 1 <= i < |queue| ==> queue[i] == queue[1..][i - 1];
        }
      } else {
        assert Scan(queue, seen) == Scanned(Some(candidate), queue[1..]);
      }
    }
  }

  /** The loop state: the per-symbol queues, the keys chosen so far and the
      articles picked so far. */
  datatype Selection = Selection(queues: map<string, seq<Article>>, seen: set<string>, picked: seq<Article>)

  /** `perSymbolNews.get(sym) ?? []` */
  function QueueOf(queues: map<string, seq<Article>>, sym: string): seq<Article> {
    if sym in queues then queues[sym] else []
  }

  /** `seen` holds exactly the keys of `picked`, which are pairwise distinct
      and belong to valid articles. */
  predicate Consistent(st: Selection) {
    && DistinctKeys(st.picked)
    && st.seen == KeysOf(st.picked)
    && AllValid(st.picked)
  }

  /** The state after a round over `sym`'s queue produced `r`: the queue
      keeps what the scan left, and a chosen article is picked and its key
      seen. */
  function Advance(st: Selection, sym: string, r: Scanned): Selection {
    var queues := if sym in st.queues then st.queues[sym := r.rest] else st.queues;
    match r.chosen
    case None => Selection(queues, st.seen, st.picked)
    case Some(a) => Selection(queues, st.seen + {UniqueKey(a)}, st.picked + [a])
  }

  /** One iteration of the outer `for`: at most one article is picked, and
      what was picked before stays. */
  function Round(round: nat, symbols: seq<string>, st: Selection): (st': Selection)
    requires |symbols| > 0
    ensures st.picked <= st'.picked && |st'.picked| <= |st.picked| + 1
  {
    var sym := Turn(symbols, round);
    Advance(st, sym, Scan(QueueOf(st.queues, sym), st.seen))
  }

  /** A round only ever shortens queues from the front: every article it
      shifts is gone for good. */
  lemma RoundShortensQueues(round: nat, symbols: seq<string>, st: Selection)
    requires |symbols| > 0
    ensures var st' := Round(round, symbols, st);
      && st'.queues.Keys == st.queues.Keys
      && forall s :: s in st.queues ==> IsSuffix(st'.queues[s], st.queues[s])
  {
    ScanSpec(QueueOf(st.queues, Turn(symbols, round)), st.seen);
  }

  /** Round `round` draws only from the queue of `Turn(symbols, round)`:
      every other queue is left alone. */
  lemma RoundTouchesOnlyItsSymbol(round: nat, symbols: seq<string>, st: Selection)
    requires |symbols| > 0
    ensures var st' := Round(round, symbols, st);
      forall s :: s != Turn(symbols, round) ==> QueueOf(st'.queues, s) == QueueOf(st.queues, s)
  {
  }

  /** A round that picks nothing found no eligible article in its queue, and
      has consumed that queue entirely. */
  lemma RoundPicksNothing(round: nat, symbols: seq<string>, st: Selection)
    requires |symbols| > 0
    ensures var st' := Round(round, symbols, st); var sym := Turn(symbols, round);
      |st'.picked| == |st.picked| ==>
        st'.seen == st.seen && QueueOf(st'.queues, sym) == []
        && NoneEligible(QueueOf(st.queues, sym), st.seen)
  {
    ScanSpec(QueueOf(st.queues, Turn(symbols, round)), st.seen);
  }

  /** A round that picks an article picks an eligible one from its own queue
      and marks its key as seen. */
  lemma RoundPicks(round: nat, symbols: seq<string>, st: Selection)
    requires |symbols| > 0
    ensures var st' := Round(round, symbols, st); var sym := Turn(symbols, round);
      |st'.picked| > |st.picked| ==>
        var a := st'.picked[|st.picked|];
        Eligible(a, st.seen) && a in QueueOf(st.queues, sym)
        && st'.seen == st.seen + {UniqueKey(a)}
  {
    var queue := QueueOf(st.queues, Turn(symbols, round));
    var r := Scan(queue, st.seen);
    ScanSpec(queue, st.seen);
    if r.chosen.Some? {
      assert queue[|queue| - |r.rest| - 1] == r.chosen.value;
    }
  }

  /** A round keeps the loop state consistent. */
  lemma RoundConsistent(round: nat, symbols: seq<string>, st: Selection)
    requires |symbols| > 0 && Consistent(st)
    ensures Consistent(Round(round, symbols, st))
  {
    var st' := Round(round, symbols, st);
    RoundPicks(round, symbols, st);
    if |st'.picked| > |st.picked| {
      var a := st'.picked[|st.picked|];
      assert st'.picked == st.picked + [a];
      forall i, j | 0 <= i < j < |st'.picked|
        ensures UniqueKey(st'.picked[i]) != UniqueKey(st'.picked[j])
      {
        if j == |st.picked| {
          assert UniqueKey(st.picked[i]) in KeysOf(st.picked);
        } else {
          assert st'.picked[i] == st.picked[i] && st'.picked[j] == st.picked[j];
        }
      }
      assert KeysOf(st'.picked) == KeysOf(st.picked) + {UniqueKey(a)} by {
        assert forall x :: x in st'.picked <==> x in st.picked || x == a;
      }
    } else {
      assert st'.picked == st.picked;
    }
  }

  /** The outer `for`, from round `round` to the end: each round adds at
      most one article. */
  function RunRounds(round: nat, symbols: seq<string>, st: Selection): (st': Selection)
    requires |symbols| > 0 && round <= MaxArticles
    ensures st.picked <= st'.picked && |st'.picked| <= |st.picked| + (MaxArticles - round)
    decreases MaxArticles - round
  {
    if round == MaxArticles then st
    else RunRounds(round + 1, symbols, Round(round, symbols, st))
  }

  /** The rounds only ever shorten queues from the front. */
  lemma {:induction false} RunRoundsShortenQueues(round: nat, symbols: seq<string>, st: Selection)
    requires |symbols| > 0 && round <= MaxArticles
    ensures var st' := RunRounds(round, symbols, st);
      && st'.queues.Keys == st.queues.Keys
      && forall s :: s in st.queues ==> IsSuffix(st'.queues[s], st.queues[s])
    decreases MaxArticles - round
  {
    if round < MaxArticles {
      var next := Round(round, symbols, st);
      assert RunRounds(round, symbols, st) == RunRounds(round + 1, symbols, next);
      RoundShortensQueues(round, symbols, st);
      RunRoundsShortenQueues(round + 1, symbols, next);
      SuffixesCompose(st.queues, next.queues, RunRounds(round + 1, symbols, next).queues);
    }
  }

  /** Every queue of `c` is what is left of the same queue of `a`, if that
      holds step by step through `b`. */
  lemma SuffixesCompose(a: map<string, seq<Article>>, b: map<string, seq<Article>>, c: map<string, seq<Article>>)
    requires a.Keys == b.Keys && b.Keys == c.Keys
    requires forall s :: s in a ==> IsSuffix(b[s], a[s])
    requires forall s :: s in b ==> IsSuffix(c[s], b[s])
    ensures forall s :: s in a ==> IsSuffix(c[s], a[s])
  {
    forall s | s in a ensures IsSuffix(c[s], a[s]) {
      SuffixTransitive(c[s], b[s], a[s]);
    }
  }

  /** An article is drawn from one of the queues. */
  predicate Queued(a: Article, queues: map<string, seq<Article>>) {
    exists s :: s in queues && a in queues[s]
  }

  /** An article still in the shortened queues was in the original ones. */
  lemma QueuedInSuffixes(a: Article, q1: map<string, seq<Article>>, q2: map<string, seq<Article>>)
    requires q2.Keys == q1.Keys
    requires forall s :: s in q1 ==> IsSuffix(q2[s], q1[s])
    requires Queued(a, q2)
    ensures Queued(a, q1)
  {
    var s :| s in q2 && a in q2[s];
    SuffixMember(q2[s], q1[s], a);
  }

  lemma QueuedBeforeRound(round: nat, symbols: seq<string>, st: Selection, a: Article)
    requires |symbols| > 0
    requires Queued(a, Round(round, symbols, st).queues)
    ensures Queued(a, st.queues)
  {
    RoundShortensQueues(round, symbols, st);
    QueuedInSuffixes(a, st.queues, Round(round, symbols, st).queues);
  }

  lemma RoundProvenance(round: nat, symbols: seq<string>, st: Selection)
    requires |symbols| > 0
    ensures var next := Round(round, symbols, st);
      |next.picked| > |st.picked| ==> Queued(next.picked[|st.picked|], st.queues)
  {
    RoundPicks(round, symbols, st);
    var sym := Turn(symbols, round);
    if sym !in st.queues {
      assert QueueOf(st.queues, sym) == [];
    }
  }

  /** Every article the rounds from `round` on pick was in one of the queues
      they started from. */
  lemma {:induction false} RunRoundsProvenance(round: nat, symbols: seq<string>, st: Selection)
    requires |symbols| > 0 && round <= MaxArticles
    ensures forall i :: |st.picked| <= i < |RunRounds(round, symbols, st).picked| ==>
              Queued(RunRounds(round, symbols, st).picked[i], st.queues)
    decreases MaxArticles - round
  {
    if round < MaxArticles {
      var next := Round(round, symbols, st);
      var st' := RunRounds(round + 1, symbols, next);
      assert RunRounds(round, symbols, st) == st';
      RunRoundsProvenance(round + 1, symbols, next);
      RoundProvenance(round, symbols, st);
      forall i | |st.picked| <= i < |st'.picked| ensures Queued(st'.picked[i], st.queues) {
        var a := st'.picked[i];
        if i < |next.picked| {
          assert a == next.picked[|st.picked|];
        } else {
          QueuedBeforeRound(round, symbols, st, a);
        }
      }
    }
  }

  lemma {:induction false} RunRoundsConsistent(round: nat, symbols: seq<string>, st: Selection)
    requires |symbols| > 0 && round <= MaxArticles && Consistent(st)
    ensures Consistent(RunRounds(round, symbols, st))
    decreases MaxArticles - round
  {
    if round < MaxArticles {
      var next := Round(round, symbols, st);
      RoundConsistent(round, symbols, st);
      RunRoundsConsistent(round + 1, symbols, next);
      assert RunRounds(round, symbols, st) == RunRounds(round + 1, symbols, next);
    }
  }

  /** The loop state before the first round. */
  function Start(queues: map<string, seq<Article>>): Selection {
    Selection(queues, {}, [])
  }

  /** `picked` after the loop: at most `MAX_ARTICLES` valid articles with
      pairwise distinct keys, each taken from one of the queues. */
  function Select(symbols: seq<string>, queues: map<string, seq<Article>>): (picked: seq<Article>)
    requires |symbols| > 0
    ensures |picked| <= MaxArticles
    ensures DistinctKeys(picked)
    ensures AllValid(picked)
    ensures forall i :: 0 <= i < |picked| ==> Queued(picked[i], queues)
  {
    RunRoundsConsistent(0, symbols, Start(queues));
    RunRoundsProvenance(0, symbols, Start(queues));
    var st := RunRounds(0, symbols, Start(queues));
    assert st.picked[0..] == st.picked;
    st.picked
  }

  lemma QueuedNotNoneEligible(queue: seq<Article>, a: Article, seen: set<string>)
    requires a in queue && Eligible(a, seen)
    ensures !NoneEligible(queue, seen)
  {
    var i :| 0 <= i < |queue| && queue[i] == a;
  }

  /** A round whose queue holds an eligible article picks one. */
  lemma RoundOnFertileQueue(round: nat, symbols: seq<string>, st: Selection)
    requires |symbols| > 0
    requires !NoneEligible(QueueOf(st.queues, Turn(symbols, round)), st.seen)
    ensures |Round(round, symbols, st).picked| > |st.picked|
  {
    RoundPicksNothing(round, symbols, st);
  }

  /** A round whose queue holds no valid article, taken before anything was
      picked, picks nothing and leaves every queue as barren or as fertile as
      it was. */
  lemma RoundOnBarrenQueue(round: nat, symbols: seq<string>, st: Selection)
    requires |symbols| > 0 && st.picked == [] && st.seen == {}
    requires NoneEligible(QueueOf(st.queues, Turn(symbols, round)), {})
    ensures var next := Round(round, symbols, st);
      && next.picked == [] && next.seen == {}
      && forall s :: Barren(next.queues, s) <==> Barren(st.queues, s)
  {
    var sym := Turn(symbols, round);
    var next := Round(round, symbols, st);
    RoundPicks(round, symbols, st);
    if |next.picked| > 0 {
      QueuedNotNoneEligible(QueueOf(st.queues, sym), next.picked[0], {});
    }
    RoundPicksNothing(round, symbols, st);
    RoundTouchesOnlyItsSymbol(round, symbols, st);
  }

  /** A queue with no article that could be picked before anything is seen. */
  predicate Barren(queues: map<string, seq<Article>>, sym: string) {
    NoneEligible(QueueOf(queues, sym), {})
  }

  /** One unfolding of the outer loop. */
  lemma RunRoundsStep(round: nat, symbols: seq<string>, st: Selection)
    requires |symbols| > 0 && round < MaxArticles
    ensures RunRounds(round, symbols, st).picked == RunRounds(round + 1, symbols, Round(round, symbols, st)).picked
  {
  }

  /** Every round from `from` on draws from a barren queue. */
  predicate BarrenTurns(symbols: seq<string>, queues: map<string, seq<Article>>, from: nat)
    requires |symbols| > 0
  {
    forall r :: from <= r < MaxArticles ==> Barren(queues, Turn(symbols, r))
  }

  /** Nothing picked and nothing seen: the loop state before the first pick. */
  predicate Untouched(st: Selection) {
    st.picked == [] && st.seen == {}
  }

  lemma RoundOverBarrenTurns(round: nat, symbols: seq<string>, st: Selection)
    requires |symbols| > 0 && round < MaxArticles
    requires Untouched(st) && BarrenTurns(symbols, st.queues, round)
    ensures Untouched(Round(round, symbols, st))
    ensures BarrenTurns(symbols, Round(round, symbols, st).queues, round + 1)
  {
    assert Barren(st.queues, Turn(symbols, round));
    RoundOnBarrenQueue(round, symbols, st);
  }

  lemma RoundKeepsFertile(round: nat, symbols: seq<string>, st: Selection, r0: nat)
    requires |symbols| > 0 && Untouched(st)
    requires Barren(st.queues, Turn(symbols, round)) && !Barren(st.queues, Turn(symbols, r0))
    ensures round != r0
    ensures Untouched(Round(round, symbols, st))
    ensures !Barren(Round(round, symbols, st).queues, Turn(symbols, r0))
  {
    RoundOnBarrenQueue(round, symbols, st);
  }

  lemma RoundOnFertileTurn(round: nat, symbols: seq<string>, st: Selection)
    requires |symbols| > 0 && Untouched(st) && !Barren(st.queues, Turn(symbols, round))
    ensures Round(round, symbols, st).picked != []
  {
    RoundOnFertileQueue(round, symbols, st);
  }

  /** A round on a fertile queue, taken before anything was picked, leaves
      the rest of the loop something to return. */
  lemma RunRoundsFromFertileTurn(round: nat, symbols: seq<string>, st: Selection)
    requires |symbols| > 0 && round < MaxArticles
    requires Untouched(st) && !Barren(st.queues, Turn(symbols, round))
    ensures |RunRounds(round, symbols, st).picked| > 0
  {
    RunRoundsStep(round, symbols, st);
    RoundOnFertileTurn(round, symbols, st);
  }

  /** A round on a barren queue, taken before anything was picked, passes
      the loop on unchanged in everything that matters to a fertile queue. */
  lemma RunRoundsSkipBarrenTurn(round: nat, symbols: seq<string>, st: Selection, r0: nat)
    requires |symbols| > 0 && round < MaxArticles
    requires Untouched(st)
    requires Barren(st.queues, Turn(symbols, round)) && !Barren(st.queues, Turn(symbols, r0))
    ensures round != r0
    ensures var next := Round(round, symbols, st);
      && Untouched(next) && !Barren(next.queues, Turn(symbols, r0))
      && RunRounds(round, symbols, st).picked == RunRounds(round + 1, symbols, next).picked
  {
    RunRoundsStep(round, symbols, st);
    RoundKeepsFertile(round, symbols, st, r0);
  }

  lemma SelectUnfold(symbols: seq<string>, queues: map<string, seq<Article>>)
    requires |symbols| > 0
    ensures Select(symbols, queues) == RunRounds(0, symbols, Start(queues)).picked
  {
  }
}
