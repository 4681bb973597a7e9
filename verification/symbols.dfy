/** The watch-list symbols as `getNews` cleans them
    (lib/actions/finnhub.actions.ts, lines 96-97): each symbol is trimmed and
    upper-cased, and the ones left empty are dropped; a missing list is an
    empty one.
 */
module Symbols {
  import opened Js

  /** A symbol that survives cleaning: non-empty, no whitespace at either
      end, no lower-case ASCII letter. */
  predicate IsClean(s: string) {
    && |s| > 0
    && !IsWhitespace(s[0]) && !IsWhitespace(s[|s| - 1])
    && forall i :: 0 <= i < |s| ==> !IsLowerAscii(s[i])
  }

  /** `s.trim().toUpperCase()` */
  function CleanSymbol(s: string): (r: string)
    ensures |r| <= |s|
    ensures r == "" <==> Trim(s) == ""
    ensures r == "" || IsClean(r)
  {
    UpperKeepsEnds(Trim(s));
    ToUpper(Trim(s))
  }

  lemma UpperKeepsEnds(t: string)
    ensures |t| > 0 ==> (IsWhitespace(ToUpper(t)[0]) <==> IsWhitespace(t[0]))
    ensures |t| > 0 ==> (IsWhitespace(ToUpper(t)[|t| - 1]) <==> IsWhitespace(t[|t| - 1]))
  {
    if |t| > 0 {
      UpperKeepsWhitespace(t[0]);
      UpperKeepsWhitespace(t[|t| - 1]);
    }
  }

  /** `map(s => s.trim().toUpperCase()).filter(s => s.length > 0)` */
  function CleanAll(symbols: seq<string>): (r: seq<string>)
    ensures |r| <= |symbols|
    ensures forall i :: 0 <= i < |r| ==> IsClean(r[i])
  {
    if |symbols| == 0 then []
    else
      var c := CleanSymbol(symbols[0]);
      (if c == "" then [] else [c]) + CleanAll(symbols[1..])
  }

  /** A string is in the cleaned list exactly when it is the non-empty
      cleaning of some symbol of the input. */
  lemma {:induction false} CleanAllMembers(symbols: seq<string>)
    ensures forall s :: s in CleanAll(symbols) <==>
              s != "" && exists i :: 0 <= i < |symbols| && CleanSymbol(symbols[i]) == s
    decreases |symbols|
  {
    if |symbols| > 0 {
      CleanAllMembers(symbols[1..]);
      assert forall i :: 1 <= i < |symbols| ==> symbols[i] == symbols[1..][i - 1];
    }
  }

  /** `symbols?.map(...).filter(...) ?? []` */
  function CleanSymbols(symbols: Option<seq<string>>): (r: seq<string>)
    ensures symbols.None? ==> r == []
    ensures symbols.Some? ==> |r| <= |symbols.value|
    ensures forall i :: 0 <= i < |r| ==> IsClean(r[i])
  {
    match symbols
    case None => []
    case Some(s) => CleanAll(s)
  }

  /** Cleaning works symbol by symbol: the cleaned list of a concatenation is
      the concatenation of the cleaned lists, so the order of the watch list
      is kept. */
  lemma {:induction false} CleanAllAppend(a: seq<string>, b: seq<string>)
    ensures CleanAll(a + b) == CleanAll(a) + CleanAll(b)
    decreases |a|
  {
    if |a| == 0 {
      assert a + b == b;
      assert CleanAll(a) + CleanAll(b) == CleanAll(b);
    } else {
      var c := CleanSymbol(a[0]);
      var head := if c == "" then [] else [c];
      var ab := a + b;
      assert ab[0] == a[0];
      assert ab[1..] == a[1..] + b;
      CleanAllAppend(a[1..], b);
      calc {
        CleanAll(ab);
        head + CleanAll(a[1..] + b);
        head + (CleanAll(a[1..]) + CleanAll(b));
        (head + CleanAll(a[1..])) + CleanAll(b);
      }
    }
  }

  /** One symbol is kept, cleaned, exactly when it is not all whitespace. */
  lemma CleanAllSingle(s: string)
    ensures CleanAll([s]) == if Trim(s) == "" then [] else [CleanSymbol(s)]
  {
    assert [s][1..] == [];
  }

  /** The list is empty after cleaning exactly when every symbol was blank. */
  lemma {:induction false} CleanAllEmptyIff(symbols: seq<string>)
    ensures CleanAll(symbols) == [] <==> forall i :: 0 <= i < |symbols| ==> Trim(symbols[i]) == ""
  {
    CleanAllMembers(symbols);
    if CleanAll(symbols) == [] {
      forall i | 0 <= i < |symbols| ensures Trim(symbols[i]) == "" {
        assert CleanSymbol(symbols[i]) !in CleanAll(symbols);
      }
    } else {
      assert CleanAll(symbols)[0] in CleanAll(symbols);
    }
  }

  /** A string that is already trimmed comes out of `trim` unchanged. */
  lemma TrimOfTrimmed(r: string)
    requires r == [] || (!IsWhitespace(r[0]) && !IsWhitespace(r[|r| - 1]))
    ensures Trim(r) == r
  {
    assert LeadingWhitespace(r) == 0;
    assert r[0..] == r;
    assert TrailingWhitespace(r) == 0;
  }

  lemma ToUpperOfUpper(s: string)
    requires forall i :: 0 <= i < |s| ==> !IsLowerAscii(s[i])
    ensures ToUpper(s) == s
  {
  }

  /** Cleaning a clean symbol changes nothing. */
  lemma CleanSymbolIdempotent(s: string)
    ensures CleanSymbol(CleanSymbol(s)) == CleanSymbol(s)
  {
    var c := CleanSymbol(s);
    if c != "" {
      TrimOfTrimmed(c);
      ToUpperOfUpper(c);
    }
  }

  /** Cleaning a cleaned list changes nothing. */
  lemma {:induction false} CleanAllIdempotent(symbols: seq<string>)
    ensures CleanAll(CleanAll(symbols)) == CleanAll(symbols)
    decreases |symbols|
  {
    if |symbols| > 0 {
      var c := CleanSymbol(symbols[0]);
      var rest := CleanAll(symbols[1..]);
      var head := if c == "" then [] else [c];
      assert CleanAll(symbols) == head + rest;
      CleanAllIdempotent(symbols[1..]);
      CleanAllAppend(head, rest);
      if c != "" {
        CleanSymbolIdempotent(symbols[0]);
        CleanAllSingle(c);
      }
    }
  }
}
