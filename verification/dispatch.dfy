/** The intent dispatcher: classifies a lowercased question by keyword, the
    first matching rule winning, and answers it from the table. */
module Dispatch {
  import opened Options
  import opened Seqs
  import opened Text
  import opened Resolver
  import opened Hours
  import opened Extractor
  import opened Dataset
  import opened Analytics

  // ---------------------------------------------------------------------
  // Classification

  /** The branches of the dispatcher. */
  datatype Intent = TopThree | WorstOne | BestOne | Chart | SingleAsset | TwoAssets | NotUnderstood

  const TopKeywords: seq<string> := ["top 3", "meilleures cryptos"]
  const WorstKeywords: seq<string> := ["moins noté", "moins bien", "pire"]
  const BestKeywords: seq<string> := ["mieux noté", "meilleure"]
  const ChartKeywords: seq<string> := ["graph", "évolution", "montre", "affiche"]

  /** The keyword rules, in the order they are tried. */
  const KeywordRules: seq<(seq<string>, Intent)> := [
    (TopKeywords, TopThree),
    (WorstKeywords, WorstOne),
    (BestKeywords, BestOne),
    (ChartKeywords, Chart)
  ]

  /** Some keyword of the list is a substring of q. */
  predicate MentionsAny(q: string, keywords: seq<string>)
  {
    exists k :: 0 <= k < |keywords| && Contains(q, keywords[k])
  }

  /** The index of the first rule from `from` on with a keyword in q. */
  function FirstRule(rules: seq<(seq<string>, Intent)>, q: string, from: nat): (r: Option<nat>)
    requires from <= |rules|
    ensures r.Some? ==> from <= r.value < |rules| && MentionsAny(q, rules[r.value].0)
    ensures forall j :: from <= j < |rules| && (r.None? || j < r.value) ==> !MentionsAny(q, rules[j].0)
    decreases |rules| - from
  {
    if from == |rules| then None
    else if MentionsAny(q, rules[from].0) then Some(from)
    else FirstRule(rules, q, from + 1)
  }

  /** The branch taken when no keyword occurs: by the number of assets named. */
  function ByAssetCount(assetCount: nat): Intent
  {
    if assetCount == 1 then SingleAsset
    else if assetCount == 2 then TwoAssets
    else NotUnderstood
  }

  /** The branch a lowercased question takes, given how many assets it names. */
  function Classify(q: string, assetCount: nat): (r: Intent)
    ensures r == SingleAsset ==> assetCount == 1
    ensures r == TwoAssets ==> assetCount == 2
  {
    match FirstRule(KeywordRules, q, 0)
    case Some(k) => KeywordRules[k].1
    case None => ByAssetCount(assetCount)
  }

  /** First match wins: each keyword branch is taken exactly when one of its
      keywords occurs and none of an earlier branch does, whatever the assets. */
  lemma ClassifyPriority(q: string, assetCount: nat)
    ensures MentionsAny(q, TopKeywords) ==> Classify(q, assetCount) == TopThree
    ensures Classify(q, assetCount) == WorstOne <==>
              !MentionsAny(q, TopKeywords) && MentionsAny(q, WorstKeywords)
    ensures Classify(q, assetCount) == BestOne <==>
              !MentionsAny(q, TopKeywords) && !MentionsAny(q, WorstKeywords) && MentionsAny(q, BestKeywords)
    ensures Classify(q, assetCount) == Chart <==>
              && !MentionsAny(q, TopKeywords) && !MentionsAny(q, WorstKeywords)
              && !MentionsAny(q, BestKeywords) && MentionsAny(q, ChartKeywords)
  {
    assert KeywordRules[0].0 == TopKeywords;
    assert KeywordRules[1].0 == WorstKeywords;
    assert KeywordRules[2].0 == BestKeywords;
    assert KeywordRules[3].0 == ChartKeywords;
  }

  /** Without any keyword, the number of assets decides: one gives a summary,
      two a comparison, and any other number is not understood. */
  lemma ClassifyByAssets(q: string, assetCount: nat)
    requires !MentionsAny(q, TopKeywords) && !MentionsAny(q, WorstKeywords)
    requires !MentionsAny(q, BestKeywords) && !MentionsAny(q, ChartKeywords)
    ensures Classify(q, assetCount) == SingleAsset <==> assetCount == 1
    ensures Classify(q, assetCount) == TwoAssets <==> assetCount == 2
    ensures Classify(q, assetCount) == NotUnderstood <==> assetCount != 1 && assetCount != 2
  {
    assert KeywordRules[0].0 == TopKeywords;
    assert KeywordRules[1].0 == WorstKeywords;
    assert KeywordRules[2].0 == BestKeywords;
    assert KeywordRules[3].0 == ChartKeywords;
    assert FirstRule(KeywordRules, q, 0).None?;
  }

  // ---------------------------------------------------------------------
  // Comparison of two assets

  datatype Verdict = FirstBetter | SecondBetter | Equivalent

  /** Both summaries with the verdict, or which of the two sides has no data. */
  datatype Comparison =
    | Compared(first: Summary, second: Summary, verdict: Verdict)
    | MissingData(firstMissing: bool, secondMissing: bool)

  /** Two summaries side by side: the strictly higher mean score wins, equal
      scores are equivalent; without both summaries, each missing side is reported. */
  function Compare(r1: Option<Summary>, r2: Option<Summary>): (c: Comparison)
    ensures c.Compared? <==> r1.Some? && r2.Some?
    ensures c.Compared? ==> c.first == r1.value && c.second == r2.value
    ensures c.Compared? ==> (c.verdict == FirstBetter <==> r1.value.mean > r2.value.mean)
    ensures c.Compared? ==> (c.verdict == SecondBetter <==> r2.value.mean > r1.value.mean)
    ensures c.MissingData? ==> c.firstMissing == r1.None? && c.secondMissing == r2.None?
    ensures c.MissingData? ==> c.firstMissing || c.secondMissing
  {
    if r1.Some? && r2.Some? then
      var verdict :=
        if r1.value.mean > r2.value.mean then FirstBetter
        else if r2.value.mean > r1.value.mean then SecondBetter
        else Equivalent;
      Compared(r1.value, r2.value, verdict)
    else
      MissingData(r1.None?, r2.None?)
  }

  /** The same comparison seen from the other side. */
  function Mirror(c: Comparison): Comparison
  {
    match c
    case Compared(a, b, v) =>
      Compared(b, a, match v case FirstBetter => SecondBetter case SecondBetter => FirstBetter case Equivalent => Equivalent)
    case MissingData(m1, m2) => MissingData(m2, m1)
  }

  /** Swapping the two assets swaps the winner and the missing sides; an
      equivalent pair stays equivalent. */
  lemma CompareAntisymmetric(r1: Option<Summary>, r2: Option<Summary>)
    ensures Compare(r2, r1) == Mirror(Compare(r1, r2))
  {
  }

  // ---------------------------------------------------------------------
  // Answers

  /** The rows plotted for one asset: its tweets on the analysis day, at any hour. */
  function ChartRows(rows: seq<Row>, symbol: string): (r: seq<Row>)
    ensures forall k :: 0 <= k < |r| ==> r[k].symbol == symbol && r[k].date == AnalysisDate
    ensures forall i :: 0 <= i < |rows| && rows[i].symbol == symbol && rows[i].date == AnalysisDate ==> rows[i] in r
  {
    Keep(rows, (r: Row) => r.symbol == symbol && r.date == AnalysisDate)
  }

  /** The first entry of a ranking, if it has one. */
  function FirstEntry(s: seq<Entry>): Option<Entry>
  {
    if s == [] then None else Some(s[0])
  }

  /** What the dispatcher answers. */
  datatype Outcome =
    | TopRanking(start: nat, end: nat, entries: seq<Entry>)
    | WorstRanked(start: nat, end: nat, worst: Option<Entry>)
    | BestRanked(start: nat, end: nat, best: Option<Entry>)
    | ChartSeries(symbol: string, points: seq<Row>)
    | ChartNoData(symbol: string)
    | AskForOneAsset
    | AssetSummary(symbol: string, start: nat, end: nat, summary: Option<Summary>)
    | AssetComparison(first: string, second: string, start: nat, end: nat, result: Comparison)
    | Unrecognized

  /** The branch an answer comes from. */
  function IntentOf(o: Outcome): Intent
  {
    match o
    case TopRanking(_, _, _) => TopThree
    case WorstRanked(_, _, _) => WorstOne
    case BestRanked(_, _, _) => BestOne
    case ChartSeries(_, _) => Chart
    case ChartNoData(_) => Chart
    case AskForOneAsset => Chart
    case AssetSummary(_, _, _, _) => SingleAsset
    case AssetComparison(_, _, _, _, _) => TwoAssets
    case Unrecognized => NotUnderstood
  }

  /** The chart branch: a plot for exactly one asset, a warning otherwise. */
  function ChartAnswer(rows: seq<Row>, assets: seq<string>): (o: Outcome)
    ensures o.ChartSeries? || o.ChartNoData? || o.AskForOneAsset?
    ensures o.ChartSeries? ==>
              && |assets| == 1 && o.symbol == assets[0] && o.points != []
              && (forall k :: 0 <= k < |o.points| ==> o.points[k].symbol == o.symbol && o.points[k].date == AnalysisDate)
              && (forall i :: 0 <= i < |rows| && rows[i].symbol == o.symbol && rows[i].date == AnalysisDate ==> rows[i] in o.points)
    ensures o.ChartNoData? ==>
              && |assets| == 1 && o.symbol == assets[0]
              && forall i :: 0 <= i < |rows| ==> !(rows[i].symbol == o.symbol && rows[i].date == AnalysisDate)
    ensures o.AskForOneAsset? <==> |assets| != 1
  {
    if |assets| == 1 then
      var points := ChartRows(rows, assets[0]);
      if points == [] then ChartNoData(assets[0]) else ChartSeries(assets[0], points)
    else
      AskForOneAsset
  }

  /** The answer along one branch, for the assets and window of a question. */
  function Respond(intent: Intent, query: Query, rows: seq<Row>): (o: Outcome)
    requires intent == SingleAsset ==> |query.assets| == 1
    requires intent == TwoAssets ==> |query.assets| == 2
    ensures IntentOf(o) == intent
    ensures o.ChartSeries? ==>
              && |query.assets| == 1 && o.symbol == query.assets[0] && o.points != []
              && (forall k :: 0 <= k < |o.points| ==> o.points[k].symbol == o.symbol && o.points[k].date == AnalysisDate)
              && (forall i :: 0 <= i < |rows| && rows[i].symbol == o.symbol && rows[i].date == AnalysisDate ==> rows[i] in o.points)
    ensures o.ChartNoData? ==>
              && |query.assets| == 1 && o.symbol == query.assets[0]
              && forall i :: 0 <= i < |rows| ==> !(rows[i].symbol == o.symbol && rows[i].date == AnalysisDate)
    ensures o.AskForOneAsset? ==> |query.assets| != 1
    ensures o.TopRanking? ==> o.entries == Rank(rows, query.startHour, query.endHour, Some(3), false)
    ensures o.WorstRanked? ==> o.worst == FirstEntry(Rank(rows, query.startHour, query.endHour, Some(1), true))
    ensures o.BestRanked? ==> o.best == FirstEntry(Rank(rows, query.startHour, query.endHour, Some(1), false))
    ensures o.AssetSummary? ==>
              && o.symbol == query.assets[0]
              && o.summary == Analyse(rows, query.assets[0], query.startHour, query.endHour)
    ensures o.AssetComparison? ==>
              && o.first == query.assets[0] && o.second == query.assets[1]
              && o.result == Compare(Analyse(rows, query.assets[0], query.startHour, query.endHour),
                                     Analyse(rows, query.assets[1], query.startHour, query.endHour))
    ensures !o.ChartSeries? && !o.ChartNoData? && !o.AskForOneAsset? && !o.Unrecognized? ==>
              o.start == query.startHour && o.end == query.endHour
  {
    var start, end, assets := query.startHour, query.endHour, query.assets;
    match intent
    case TopThree => TopRanking(start, end, Rank(rows, start, end, Some(3), false))
    case WorstOne => WorstRanked(start, end, FirstEntry(Rank(rows, start, end, Some(1), true)))
    case BestOne => BestRanked(start, end, FirstEntry(Rank(rows, start, end, Some(1), false)))
    case Chart => ChartAnswer(rows, assets)
    case SingleAsset =>
      AssetSummary(assets[0], start, end, Analyse(rows, assets[0], start, end))
    case TwoAssets =>
      AssetComparison(assets[0], assets[1], start, end,
                      Compare(Analyse(rows, assets[0], start, end), Analyse(rows, assets[1], start, end)))
    case NotUnderstood => Unrecognized
  }

  /** The answer to a question: lowercase it, extract its assets and window
      against the table's symbols, classify it, and query the table along the
      branch taken. */
  function Answer(question: string, rows: seq<Row>, closeMatches: CloseMatcher): (o: Outcome)
    ensures var q := Lower(question);
            var query := Extract(q, Symbols(rows), closeMatches);
            && IntentOf(o) == Classify(q, |query.assets|)
            && o == Respond(Classify(q, |query.assets|), query, rows)
    ensures (o.TopRanking? || o.WorstRanked? || o.BestRanked? || o.AssetSummary? || o.AssetComparison?) ==>
              (o.start, o.end) == ParseHours(Lower(question))
  {
    var q := Lower(question);
    var query := Extract(q, Symbols(rows), closeMatches);
    Respond(Classify(q, |query.assets|), query, rows)
  }

  /** The single entry of a worst-first (best-first) top-1 ranking is an
      asset of the window whose mean score is no higher (no lower) than any other's. */
  lemma ExtremeEntry(rows: seq<Row>, start: int, end: int, worst: bool, sym: string)
    requires HasData(rows, sym, start, end)
    ensures var e := FirstEntry(Rank(rows, start, end, Some(1), worst));
            && e.Some?
            && HasData(rows, e.value.0, start, end)
            && e.value.1 == GroupMean(rows, e.value.0, start, end)
            && InOrder(e.value, (sym, GroupMean(rows, sym, start, end)), worst)
  {
    var full := Rank(rows, start, end, None, worst);
    RankTruncates(rows, start, end, 1, worst);
    var k :| 0 <= k < |full| && full[k].0 == sym;
    assert Rank(rows, start, end, Some(1), worst) == [full[0]];
    if k > 0 {
      assert InOrder(full[0], full[k], worst);
    }
  }

  /** The worst-rated answer names an asset of the window whose mean score is
      no higher than any other asset's, and the best-rated answer one whose
      mean is no lower. */
  lemma ExtremeAnswer(rows: seq<Row>, query: Query, sym: string)
    requires HasData(rows, sym, query.startHour, query.endHour)
    ensures var w := Respond(WorstOne, query, rows).worst;
            && w.Some?
            && HasData(rows, w.value.0, query.startHour, query.endHour)
            && w.value.1 == GroupMean(rows, w.value.0, query.startHour, query.endHour)
            && w.value.1 <= GroupMean(rows, sym, query.startHour, query.endHour)
    ensures var b := Respond(BestOne, query, rows).best;
            && b.Some?
            && HasData(rows, b.value.0, query.startHour, query.endHour)
            && b.value.1 == GroupMean(rows, b.value.0, query.startHour, query.endHour)
            && b.value.1 >= GroupMean(rows, sym, query.startHour, query.endHour)
  {
    var start, end := query.startHour, query.endHour;
    assert Respond(WorstOne, query, rows).worst == FirstEntry(Rank(rows, start, end, Some(1), true));
    assert Respond(BestOne, query, rows).best == FirstEntry(Rank(rows, start, end, Some(1), false));
    ExtremeEntry(rows, start, end, true, sym);
    ExtremeEntry(rows, start, end, false, sym);
  }

  /** A top-1 ranking, worst-first or best-first, is empty exactly when no
      tweet falls inside the window. */
  lemma ExtremeEntryEmpty(rows: seq<Row>, start: int, end: int, worst: bool)
    ensures FirstEntry(Rank(rows, start, end, Some(1), worst)).None? <==>
              forall i :: 0 <= i < |rows| ==> !InWindow(rows[i], start, end)
  {
    if i :| 0 <= i < |rows| && InWindow(rows[i], start, end) {
      assert Selected(rows[i], rows[i].symbol, start, end);
      ExtremeEntry(rows, start, end, worst, rows[i].symbol);
    }
  }

  /** The worst- and the best-rated answers name nobody exactly when no tweet
      falls inside the window. */
  lemma ExtremeAnswerEmpty(rows: seq<Row>, query: Query)
    ensures Respond(WorstOne, query, rows).worst.None? <==>
              forall i :: 0 <= i < |rows| ==> !InWindow(rows[i], query.startHour, query.endHour)
    ensures Respond(BestOne, query, rows).best.None? <==>
              forall i :: 0 <= i < |rows| ==> !InWindow(rows[i], query.startHour, query.endHour)
  {
    ExtremeEntryEmpty(rows, query.startHour, query.endHour, true);
    ExtremeEntryEmpty(rows, query.startHour, query.endHour, false);
  }

  /** A ranking keyword wins over a chart keyword in the same question. */
  lemma RankingBeforeChart()
    ensures Classify("montre le top 3", 1) == TopThree
  {
    assert OccursAt("montre le top 3", TopKeywords[0], 10);
    ClassifyPriority("montre le top 3", 1);
  }

  /** A keyword whose first letter starts no long-enough suffix of s does not occur in s. */
  lemma AbsentFirstLetter(s: string, k: string)
    requires |k| > 0
    requires forall i :: 0 <= i && i + |k| <= |s| ==> s[i] != k[0]
    ensures !Contains(s, k)
  {
    forall i | 0 <= i <= |s| ensures !OccursAt(s, k, i) {
      if i + |k| <= |s| {
        assert s[i..i + |k|][0] == s[i];
      }
    }
  }

  /** A question with no keyword and two assets asks for a comparison. */
  lemma TwoAssetsCompare()
    ensures Classify("sol ou dot", 2) == TwoAssets
  {
    var q := "sol ou dot";
    forall k | 0 <= k < |TopKeywords| ensures !Contains(q, TopKeywords[k]) {
      AbsentFirstLetter(q, TopKeywords[k]);
    }
    forall k | 0 <= k < |WorstKeywords| ensures !Contains(q, WorstKeywords[k]) {
      AbsentFirstLetter(q, WorstKeywords[k]);
    }
    forall k | 0 <= k < |BestKeywords| ensures !Contains(q, BestKeywords[k]) {
      AbsentFirstLetter(q, BestKeywords[k]);
    }
    forall k | 0 <= k < |ChartKeywords| ensures !Contains(q, ChartKeywords[k]) {
      AbsentFirstLetter(q, ChartKeywords[k]);
    }
    ClassifyByAssets(q, 2);
  }
}
