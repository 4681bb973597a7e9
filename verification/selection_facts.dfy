/** What the round-robin selection guarantees about when it picks nothing
    and which symbols it reads (lib/actions/finnhub.actions.ts, lines
    116-130 and 132-138): the selection is empty exactly when the queues of
    the first `MAX_ARTICLES` symbols hold nothing eligible, and later symbols
    never get a turn.
 */
module SelectionFacts {
  import opened Articles
  import opened RoundRobin

  /** While nothing has been picked, rounds over barren queues pick nothing. */
  lemma {:induction false} RunRoundsOverBarren(round: nat, symbols: seq<string>, st: Selection)
    requires |symbols| > 0 && round <= MaxArticles
    requires Untouched(st) && BarrenTurns(symbols, st.queues, round)
    ensures RunRounds(round, symbols, st).picked == []
    decreases MaxArticles - round
  {
    if round < MaxArticles {
      RunRoundsStep(round, symbols, st);
      RoundOverBarrenTurns(round, symbols, st);
      RunRoundsOverBarren(round + 1, symbols, Round(round, symbols, st));
    }
  }

  /** While nothing has been picked, a later round over a fertile queue, or
      an earlier one, picks something. */
  lemma {:induction false} RunRoundsReachFertile(round: nat, symbols: seq<string>, st: Selection, r0: nat)
    requires |symbols| > 0 && round <= r0 < MaxArticles
    requires Untouched(st)
    requires !Barren(st.queues, Turn(symbols, r0))
    ensures |RunRounds(round, symbols, st).picked| > 0
    decreases MaxArticles - round
  {
    if Barren(st.queues, Turn(symbols, round)) {
      RunRoundsSkipBarrenTurn(round, symbols, st, r0);
      RunRoundsReachFertile(round + 1, symbols, Round(round, symbols, st), r0);
    } else {
      RunRoundsFromFertileTurn(round, symbols, st);
    }
  }

  /** Nothing is picked exactly when none of the first `MAX_ARTICLES` symbols
      has an eligible article in its queue; later symbols never get a turn. */
  lemma SelectEmptyIff(symbols: seq<string>, queues: map<string, seq<Article>>)
    requires |symbols| > 0
    ensures Select(symbols, queues) == [] <==>
              forall i :: 0 <= i < |symbols| && i < MaxArticles ==> Barren(queues, symbols[i])
  {
    SelectUnfold(symbols, queues);
    if forall i :: 0 <= i < |symbols| && i < MaxArticles ==> Barren(queues, symbols[i]) {
      forall r | 0 <= r < MaxArticles ensures Barren(queues, Turn(symbols, r)) {
        assert Turn(symbols, r) == symbols[TurnIndex(|symbols|, r)];
      }
      RunRoundsOverBarren(0, symbols, Start(queues));
    } else {
      var i :| 0 <= i < |symbols| && i < MaxArticles && !Barren(queues, symbols[i]);
      assert Turn(symbols, i) == symbols[i];
      RunRoundsReachFertile(0, symbols, Start(queues), i);
    }
  }

  /** The symbols that get a turn: the first `MAX_ARTICLES`. */
  predicate HasTurn(symbols: seq<string>, s: string) {
    exists i :: 0 <= i < |symbols| && i < MaxArticles && symbols[i] == s
  }

  /** Two queue maps that agree on every symbol with a turn. */
  predicate AgreeOnTurns(symbols: seq<string>, q1: map<string, seq<Article>>, q2: map<string, seq<Article>>) {
    forall i :: 0 <= i < |symbols| && i < MaxArticles ==> QueueOf(q1, symbols[i]) == QueueOf(q2, symbols[i])
  }

  /** One round run on two states that agree on everything with a turn
      leaves two states that still agree. */
  lemma RoundCongruent(round: nat, symbols: seq<string>, st1: Selection, st2: Selection)
    requires |symbols| > 0 && round < MaxArticles
    requires st1.seen == st2.seen && st1.picked == st2.picked
    requires AgreeOnTurns(symbols, st1.queues, st2.queues)
    ensures var n1 := Round(round, symbols, st1); var n2 := Round(round, symbols, st2);
      && n1.seen == n2.seen && n1.picked == n2.picked
      && AgreeOnTurns(symbols, n1.queues, n2.queues)
  {
    var sym := Turn(symbols, round);
    assert sym == symbols[TurnIndex(|symbols|, round)];
    var n1 := Round(round, symbols, st1);
    var n2 := Round(round, symbols, st2);
    RoundTouchesOnlyItsSymbol(round, symbols, st1);
    RoundTouchesOnlyItsSymbol(round, symbols, st2);
    assert QueueOf(st1.queues, sym) == QueueOf(st2.queues, sym);
    forall j | 0 <= j < |symbols| && j < MaxArticles
      ensures QueueOf(n1.queues, symbols[j]) == QueueOf(n2.queues, symbols[j])
    {
      if symbols[j] != sym {
        assert QueueOf(n1.queues, symbols[j]) == QueueOf(st1.queues, symbols[j]);
        assert QueueOf(n2.queues, symbols[j]) == QueueOf(st2.queues, symbols[j]);
      }
    }
  }

  lemma {:induction false} RunRoundsCongruent(round: nat, symbols: seq<string>, st1: Selection, st2: Selection)
    requires |symbols| > 0 && round <= MaxArticles
    requires st1.seen == st2.seen && st1.picked == st2.picked
    requires AgreeOnTurns(symbols, st1.queues, st2.queues)
    ensures RunRounds(round, symbols, st1).picked == RunRounds(round, symbols, st2).picked
    decreases MaxArticles - round
  {
    if round < MaxArticles {
      RoundCongruent(round, symbols, st1, st2);
      RunRoundsCongruent(round + 1, symbols, Round(round, symbols, st1), Round(round, symbols, st2));
    }
  }

  /** Only the queues of the first `MAX_ARTICLES` symbols matter: a seventh
      symbol, or a later one, never influences the selection. */
  lemma SelectOnlyReadsTurns(symbols: seq<string>, q1: map<string, seq<Article>>, q2: map<string, seq<Article>>)
    requires |symbols| > 0
    requires AgreeOnTurns(symbols, q1, q2)
    ensures Select(symbols, q1) == Select(symbols, q2)
  {
    RunRoundsCongruent(0, symbols, Start(q1), Start(q2));
  }
}
