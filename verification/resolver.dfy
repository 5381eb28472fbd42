/** The asset resolver: maps one word of a question, possibly misspelt or an
    alias, to a ticker symbol of the data set. */
module Resolver {
  import opened Options
  import opened Seqs
  import opened Text

  /** The hand-written alias table, from lower-case names and tickers to symbols. */
  const Synonyms: map<string, string> := map[
    "bitcoin" := "BTC",
    "btc" := "BTC",
    "eth" := "ETH",
    "ethereum" := "ETH",
    "bnb" := "BNB",
    "binance" := "BNB",
    "op" := "OP",
    "optimism" := "OP",
    "matic" := "MATIC",
    "polygon" := "MATIC"
  ]

  /** `difflib.get_close_matches(word, candidates, n=1, cutoff=0.8)`. Its
      similarity ratio is not modelled: all the resolver relies on is that it
      returns at most one string, and only a string drawn from the candidates.
      The candidates are the sorted distinct symbols of the data set, which
      the set of those symbols determines. */
  type CloseMatcher = f: (string, set<string>) -> seq<string>
    | forall word, candidates ::
        |f(word, candidates)| <= 1 && forall m :: m in f(word, candidates) ==> m in candidates
    witness NoCloseMatch

  /** The matcher that never finds a close enough candidate. */
  function NoCloseMatch(word: string, candidates: set<string>): seq<string>
  {
    []
  }

  /** The word as the resolver looks it up: lowercased, then every character
      outside `[a-zA-Z]` deleted. */
  function Clean(token: string): (r: string)
    ensures |r| <= |token|
    ensures forall i :: 0 <= i < |r| ==> 'a' <= r[i] <= 'z'
    ensures r == Lower(Keep(token, IsAsciiLetter))
  {
    LowerKeepsLetters(token);
    Keep(Lower(token), IsAsciiLetter)
  }

  /** Lowering does not change which characters are ASCII letters, so it
      makes no difference whether the letters are picked out before or after. */
  lemma {:induction false} LowerKeepsLetters(s: string)
    ensures Keep(Lower(s), IsAsciiLetter) == Lower(Keep(s, IsAsciiLetter))
    decreases |s|
  {
    if s != [] {
      var init := s[..|s| - 1];
      var last := s[|s| - 1];
      LowerKeepsLetters(init);
      assert Lower(s)[..|s| - 1] == Lower(init);
      var kept := Keep(init, IsAsciiLetter);
      if IsAsciiLetter(last) {
        assert Lower(kept + [last]) == Lower(kept) + [LowerChar(last)];
      }
    }
  }

  /** Cleaning is a projection: a cleaned word cleans to itself. */
  lemma CleanIdempotent(token: string)
    ensures Clean(Clean(token)) == Clean(token)
  {
    var c := Clean(token);
    assert Lower(c) == c;
    KeepAll(c, IsAsciiLetter);
  }

  /** The symbol a word names, if any: an alias-table hit first, else the
      close match among the known symbols. */
  function Resolve(token: string, symbols: set<string>, closeMatches: CloseMatcher): (r: Option<string>)
    ensures Clean(token) in Synonyms ==> r == Some(Synonyms[Clean(token)])
    ensures Clean(token) !in Synonyms ==> r == None || r.value in symbols
    ensures r.Some? ==> r.value in Synonyms.Values || r.value in symbols
  {
    var word := Clean(token);
    if word in Synonyms then Some(Synonyms[word])
    else
      var matches := closeMatches(Upper(word), symbols);
      if |matches| > 0 then Some(matches[0]) else None
  }

  /** Case and punctuation never change the answer: a word resolves exactly as
      its cleaned form does. */
  lemma ResolveSeesOnlyCleanedWord(token: string, symbols: set<string>, closeMatches: CloseMatcher)
    ensures Resolve(Clean(token), symbols, closeMatches) == Resolve(token, symbols, closeMatches)
  {
    CleanIdempotent(token);
  }
}
