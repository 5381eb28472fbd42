/** The query extractor: the assets a question names and the hour window it asks about. */
module Extractor {
  import opened Options
  import opened Seqs
  import opened Text
  import opened Resolver
  import opened Hours

  /** What one question asks about: the assets it names, each once, and an hour window. */
  datatype Query = Query(assets: seq<string>, startHour: nat, endHour: nat)

  /** The symbols the resolver finds in `words`, in order. A word that
      resolves to `None` or to the empty string (both falsy) names nothing. */
  function ResolvedNames(words: seq<string>, symbols: set<string>, closeMatches: CloseMatcher): (r: seq<string>)
    ensures forall a :: a in r <==> a != [] && exists w :: w in words && Resolve(w, symbols, closeMatches) == Some(a)
    decreases |words|
  {
    if words == [] then []
    else
      var c := Resolve(words[0], symbols, closeMatches);
      var rest := ResolvedNames(words[1..], symbols, closeMatches);
      assert forall w :: w in words <==> w == words[0] || w in words[1..];
      if c.Some? && c.value != [] then [c.value] + rest else rest
  }

  /** The assets and the window of a question. The words are those of the
      lowercased question; the hour patterns are searched in the question as given. */
  function Extract(question: string, symbols: set<string>, closeMatches: CloseMatcher): (q: Query)
    ensures NoDuplicates(q.assets)
    ensures forall a :: a in q.assets <==>
              a != [] && exists w :: w in Words(Lower(question)) && Resolve(w, symbols, closeMatches) == Some(a)
    ensures forall a :: a in q.assets ==> a in Synonyms.Values || a in symbols
    ensures (q.startHour, q.endHour) == ParseHours(question)
    ensures q.startHour <= 99 && q.endHour <= 99
  {
    var names := ResolvedNames(Words(Lower(question)), symbols, closeMatches);
    var (start, end) := ParseHours(question);
    Query(Dedup(names), start, end)
  }
}
