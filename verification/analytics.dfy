/** The analytics over the loaded table: the summary of one asset in an hour
    window of the analysis day, and the ranking of all assets by mean score. */
module Analytics {
  import opened Options
  import opened Seqs
  import opened Dataset

  // ---------------------------------------------------------------------
  // Selection

  /** The row is a tweet about `symbol` inside the window. */
  predicate Selected(r: Row, symbol: string, start: int, end: int)
  {
    r.symbol == symbol && InWindow(r, start, end)
  }

  function SelectedBy(symbol: string, start: int, end: int): Row -> bool
  {
    (r: Row) => Selected(r, symbol, start, end)
  }

  /** The table filtered on symbol, day and hour window. */
  function Select(rows: seq<Row>, symbol: string, start: int, end: int): seq<Row>
  {
    Keep(rows, SelectedBy(symbol, start, end))
  }

  /** Some row is about `symbol` inside the window. */
  predicate HasData(rows: seq<Row>, symbol: string, start: int, end: int)
  {
    exists i :: 0 <= i < |rows| && Selected(rows[i], symbol, start, end)
  }

  /** The positions of the rows the filter keeps. */
  ghost function MatchingRows(rows: seq<Row>, symbol: string, start: int, end: int): set<int>
  {
    set i | 0 <= i < |rows| && Selected(rows[i], symbol, start, end)
  }

  lemma SelectCountsMatchingRows(rows: seq<Row>, symbol: string, start: int, end: int)
    ensures |Select(rows, symbol, start, end)| == |MatchingRows(rows, symbol, start, end)|
  {
    KeepCountsPositions(rows, SelectedBy(symbol, start, end));
    assert Positions(rows, SelectedBy(symbol, start, end)) == MatchingRows(rows, symbol, start, end);
  }

  // ---------------------------------------------------------------------
  // Sentiment counts

  function HasSentiment(l: Sentiment): Row -> bool
  {
    (r: Row) => r.sentiment == l
  }

  /** Number of rows carrying label l. */
  function CountOf(rows: seq<Row>, l: Sentiment): nat
  {
    |Keep(rows, HasSentiment(l))|
  }

  /** Every row carries exactly one of the three labels. */
  lemma {:induction false} CountsAddUp(rows: seq<Row>)
    ensures CountOf(rows, Negative) + CountOf(rows, Neutral) + CountOf(rows, Positive) == |rows|
    decreases |rows|
  {
    if rows != [] {
      CountsAddUp(rows[..|rows| - 1]);
    }
  }

  /** A label is counted exactly when some row carries it. */
  lemma CountOfPositive(rows: seq<Row>, l: Sentiment)
    ensures CountOf(rows, l) > 0 <==> exists i :: 0 <= i < |rows| && rows[i].sentiment == l
  {
    var kept := Keep(rows, HasSentiment(l));
    if CountOf(rows, l) > 0 {
      assert kept[0] in rows;
    }
  }

  /** `value_counts().to_dict()`: the labels that occur, with their counts. */
  function Tally(rows: seq<Row>): (m: map<Sentiment, nat>)
    ensures forall l :: l in m <==> CountOf(rows, l) > 0
    ensures forall l :: l in m ==> m[l] == CountOf(rows, l)
  {
    map l | l in AllSentiments && CountOf(rows, l) > 0 :: CountOf(rows, l)
  }

  /** `counts.get(l, 0)`. */
  function CountIn(m: map<Sentiment, nat>, l: Sentiment): nat
  {
    if l in m then m[l] else 0
  }

  /** Position of a label in alphabetical order, the order pandas lists tied modes in. */
  function Ordinal(l: Sentiment): nat
  {
    match l
    case Negative => 0
    case Neutral => 1
    case Positive => 2
  }

  /** `mode()[0]`: a most frequent label, the alphabetically first among ties. */
  function Dominant(rows: seq<Row>): (d: Sentiment)
    ensures forall l :: CountOf(rows, l) <= CountOf(rows, d)
    ensures forall l :: CountOf(rows, l) == CountOf(rows, d) ==> Ordinal(d) <= Ordinal(l)
  {
    var neg := CountOf(rows, Negative);
    var neu := CountOf(rows, Neutral);
    var pos := CountOf(rows, Positive);
    if neg >= neu && neg >= pos then Negative
    else if neu >= pos then Neutral
    else Positive
  }

  // ---------------------------------------------------------------------
  // Scores

  function Sum(rows: seq<Row>): real
    decreases |rows|
  {
    if rows == [] then 0.0 else Sum(rows[..|rows| - 1]) + rows[|rows| - 1].score
  }

  function Mean(rows: seq<Row>): real
    requires |rows| > 0
  {
    Sum(rows) / (|rows| as real)
  }

  /** A sum of n scores each within [lo, hi] lies within [n * lo, n * hi]. */
  lemma {:induction false} SumBounds(rows: seq<Row>, lo: real, hi: real)
    requires forall i :: 0 <= i < |rows| ==> lo <= rows[i].score <= hi
    ensures (|rows| as real) * lo <= Sum(rows) <= (|rows| as real) * hi
    decreases |rows|
  {
    if rows != [] {
      SumBounds(rows[..|rows| - 1], lo, hi);
    }
  }

  /** The mean of scores lies between their bounds. */
  lemma MeanBounds(rows: seq<Row>, lo: real, hi: real)
    requires |rows| > 0
    requires forall i :: 0 <= i < |rows| ==> lo <= rows[i].score <= hi
    ensures lo <= Mean(rows) <= hi
  {
    SumBounds(rows, lo, hi);
    var n := |rows| as real;
    assert n * lo <= Sum(rows) <= n * hi;
    assert Mean(rows) * n == Sum(rows);
  }

  // ---------------------------------------------------------------------
  // Per-asset summary

  /** What `analyse_crypto` returns for an asset that has data in the window. */
  datatype Summary = Summary(symbol: string, dominant: Sentiment, mean: real, volume: nat, counts: map<Sentiment, nat>)

  /** The positions of the rows about `symbol` in the window that carry label l. */
  ghost function LabelRows(rows: seq<Row>, symbol: string, start: int, end: int, l: Sentiment): set<int>
  {
    set i | 0 <= i < |rows| && Selected(rows[i], symbol, start, end) && rows[i].sentiment == l
  }

  /** What a summary of `symbol` over the window promises: the volume is the
      number of matching rows; each label's count is the number of matching
      rows carrying it, and the counts name exactly the labels present; the
      dominant label has a maximal count, the alphabetically first among ties;
      the mean is the mean score of the matching rows. */
  ghost predicate IsSummaryOf(s: Summary, rows: seq<Row>, symbol: string, start: int, end: int)
  {
    && s.symbol == symbol
    && s.volume == |MatchingRows(rows, symbol, start, end)|
    && (forall l :: CountIn(s.counts, l) == |LabelRows(rows, symbol, start, end, l)|)
    && CountIn(s.counts, Negative) + CountIn(s.counts, Neutral) + CountIn(s.counts, Positive) == s.volume
    && s.dominant in s.counts
    && (forall l :: CountIn(s.counts, l) <= CountIn(s.counts, s.dominant))
    && (forall l :: CountIn(s.counts, l) == CountIn(s.counts, s.dominant) ==> Ordinal(s.dominant) <= Ordinal(l))
    && (forall l :: l in s.counts <==>
          exists i :: 0 <= i < |rows| && Selected(rows[i], symbol, start, end) && rows[i].sentiment == l)
    && |Select(rows, symbol, start, end)| > 0
    && s.mean == Mean(Select(rows, symbol, start, end))
  }

  /** The summary of `symbol` over the window on the analysis day, or `None`
      when no row falls in it. */
  function Analyse(rows: seq<Row>, symbol: string, start: int, end: int): (r: Option<Summary>)
    ensures r.None? <==> !HasData(rows, symbol, start, end)
    ensures r.Some? ==> IsSummaryOf(r.value, rows, symbol, start, end)
  {
    var selected := Select(rows, symbol, start, end);
    SelectEmptyIff(rows, symbol, start, end);
    if selected == [] then
      None
    else
      SummaryOfSelection(rows, symbol, start, end);
      Some(Summary(symbol, Dominant(selected), Mean(selected), |selected|, Tally(selected)))
  }

  /** The selection is empty exactly when the asset has no row in the window. */
  lemma SelectEmptyIff(rows: seq<Row>, symbol: string, start: int, end: int)
    ensures Select(rows, symbol, start, end) == [] <==> !HasData(rows, symbol, start, end)
  {
    var selected := Select(rows, symbol, start, end);
    if HasData(rows, symbol, start, end) {
      HasDataSelects(rows, symbol, start, end);
    }
    if selected != [] {
      assert selected[0] in rows && SelectedBy(symbol, start, end)(selected[0]);
      var i :| 0 <= i < |rows| && rows[i] == selected[0];
      assert Selected(rows[i], symbol, start, end);
    }
  }

  /** The summary built from a non-empty selection keeps every promise of a summary. */
  lemma SummaryOfSelection(rows: seq<Row>, symbol: string, start: int, end: int)
    requires Select(rows, symbol, start, end) != []
    ensures var selected := Select(rows, symbol, start, end);
            IsSummaryOf(Summary(symbol, Dominant(selected), Mean(selected), |selected|, Tally(selected)),
                        rows, symbol, start, end)
  {
    var selected := Select(rows, symbol, start, end);
    var counts := Tally(selected);
    var dominant := Dominant(selected);
    forall l ensures CountIn(counts, l) == CountOf(selected, l) {
      TallyCountIn(selected, l);
    }
    SelectCountsMatchingRows(rows, symbol, start, end);
    CountsAddUp(selected);
    CountOfPositive(selected, selected[0].sentiment);
    SummaryLabels(rows, symbol, start, end);
    forall l ensures CountOf(selected, l) == |LabelRows(rows, symbol, start, end, l)| {
      SelectCountsLabel(rows, symbol, start, end, l);
    }
  }

  /** The rows of a label among the selected rows are the matching rows carrying it. */
  lemma SelectCountsLabel(rows: seq<Row>, symbol: string, start: int, end: int, l: Sentiment)
    ensures CountOf(Select(rows, symbol, start, end), l) == |LabelRows(rows, symbol, start, end, l)|
  {
    var both := (r: Row) => Selected(r, symbol, start, end) && r.sentiment == l;
    KeepKeep(rows, SelectedBy(symbol, start, end), HasSentiment(l), both);
    KeepCountsPositions(rows, both);
    assert Positions(rows, both) == LabelRows(rows, symbol, start, end, l);
  }

  /** Looking a label up in the tally gives its count, zero when absent. */
  lemma TallyCountIn(rows: seq<Row>, l: Sentiment)
    ensures CountIn(Tally(rows), l) == CountOf(rows, l)
  {
  }

  /** The labels counted among the selected rows are those the selected rows carry. */
  lemma SummaryLabels(rows: seq<Row>, symbol: string, start: int, end: int)
    ensures forall l :: CountOf(Select(rows, symbol, start, end), l) > 0 <==>
              exists i :: 0 <= i < |rows| && Selected(rows[i], symbol, start, end) && rows[i].sentiment == l
  {
    var selected := Select(rows, symbol, start, end);
    forall l: Sentiment
      ensures CountOf(selected, l) > 0 <==>
              exists i :: 0 <= i < |rows| && Selected(rows[i], symbol, start, end) && rows[i].sentiment == l
    {
      CountOfPositive(selected, l);
      if exists i :: 0 <= i < |rows| && Selected(rows[i], symbol, start, end) && rows[i].sentiment == l {
        var i :| 0 <= i < |rows| && Selected(rows[i], symbol, start, end) && rows[i].sentiment == l;
        assert SelectedBy(symbol, start, end)(rows[i]);
        assert rows[i] in selected;
      }
    }
  }

  /** The mean score of a summary lies between the lowest and the highest
      score of the rows it summarises. */
  lemma SummaryMeanWithinScores(rows: seq<Row>, symbol: string, start: int, end: int, lo: real, hi: real)
    requires HasData(rows, symbol, start, end)
    requires forall i :: 0 <= i < |rows| && Selected(rows[i], symbol, start, end) ==> lo <= rows[i].score <= hi
    ensures lo <= Analyse(rows, symbol, start, end).value.mean <= hi
  {
    var selected := Select(rows, symbol, start, end);
    MeanBounds(selected, lo, hi);
  }

  // ---------------------------------------------------------------------
  // Ranking

  /** One line of a ranking: a symbol and its mean score in the window. */
  type Entry = (string, real)

  /** x may precede y: by score descending, or ascending for the worst-first order. */
  predicate InOrder(x: Entry, y: Entry, worst: bool)
  {
    if worst then x.1 <= y.1 else x.1 >= y.1
  }

  predicate Sorted(s: seq<Entry>, worst: bool)
  {
    forall i, j :: 0 <= i < j < |s| ==> InOrder(s[i], s[j], worst)
  }

  /** No symbol is listed twice. */
  predicate DistinctKeys(s: seq<Entry>)
  {
    forall i, j :: 0 <= i < j < |s| ==> s[i].0 != s[j].0
  }

  function InWindowBy(start: int, end: int): Row -> bool
  {
    (r: Row) => InWindow(r, start, end)
  }

  /** The symbols of the rows in the window, each once: the groups of `groupby("crypto")`. */
  function WindowSymbols(rows: seq<Row>, start: int, end: int): (r: seq<string>)
    ensures NoDuplicates(r)
    ensures forall sym :: sym in r <==> HasData(rows, sym, start, end)
  {
    var window := Keep(rows, InWindowBy(start, end));
    var symbols := seq(|window|, k requires 0 <= k < |window| => window[k].symbol);
    assert forall sym :: HasData(rows, sym, start, end) ==> sym in symbols by {
      forall sym | HasData(rows, sym, start, end) ensures sym in symbols {
        var i :| 0 <= i < |rows| && Selected(rows[i], sym, start, end);
        assert InWindowBy(start, end)(rows[i]);
        var k :| 0 <= k < |window| && window[k] == rows[i];
        assert symbols[k] == sym;
      }
    }
    assert forall sym :: sym in symbols ==> HasData(rows, sym, start, end) by {
      forall sym | sym in symbols ensures HasData(rows, sym, start, end) {
        var k :| 0 <= k < |symbols| && symbols[k] == sym;
        assert window[k] in rows;
        var i :| 0 <= i < |rows| && rows[i] == window[k];
        assert Selected(rows[i], sym, start, end);
      }
    }
    Dedup(symbols)
  }

  /** Rows about a symbol in the window make its selection non-empty. */
  lemma HasDataSelects(rows: seq<Row>, symbol: string, start: int, end: int)
    requires HasData(rows, symbol, start, end)
    ensures |Select(rows, symbol, start, end)| > 0
  {
    var i :| 0 <= i < |rows| && Selected(rows[i], symbol, start, end);
    assert SelectedBy(symbol, start, end)(rows[i]);
  }

  /** The mean score of a symbol over the window. */
  function GroupMean(rows: seq<Row>, symbol: string, start: int, end: int): real
    requires HasData(rows, symbol, start, end)
  {
    HasDataSelects(rows, symbol, start, end);
    Mean(Select(rows, symbol, start, end))
  }

  /** `groupby("crypto")["score"].mean()`: each symbol of the window with the
      mean score of its rows there. */
  function GroupMeans(rows: seq<Row>, start: int, end: int): (r: seq<Entry>)
    ensures DistinctKeys(r)
    ensures forall k :: 0 <= k < |r| ==>
              HasData(rows, r[k].0, start, end) && GroupMean(rows, r[k].0, start, end) == r[k].1
    ensures forall sym :: HasData(rows, sym, start, end) ==> exists k :: 0 <= k < |r| && r[k].0 == sym
  {
    var symbols := WindowSymbols(rows, start, end);
    WindowSymbolsHaveData(rows, start, end);
    var r := MeansOf(rows, symbols, start, end);
    forall sym | HasData(rows, sym, start, end) ensures exists k :: 0 <= k < |r| && r[k].0 == sym {
      WindowSymbolIndex(rows, start, end, sym);
    }
    r
  }

  /** Every group symbol has rows in the window. */
  lemma WindowSymbolsHaveData(rows: seq<Row>, start: int, end: int)
    ensures forall k :: 0 <= k < |WindowSymbols(rows, start, end)| ==>
              HasData(rows, WindowSymbols(rows, start, end)[k], start, end)
  {
    var symbols := WindowSymbols(rows, start, end);
    forall k | 0 <= k < |symbols| ensures HasData(rows, symbols[k], start, end) {
      assert symbols[k] in symbols;
    }
  }

  /** A symbol with rows in the window is one of the groups. */
  lemma WindowSymbolIndex(rows: seq<Row>, start: int, end: int, sym: string)
    requires HasData(rows, sym, start, end)
    ensures exists k :: 0 <= k < |WindowSymbols(rows, start, end)| && WindowSymbols(rows, start, end)[k] == sym
  {
    var symbols := WindowSymbols(rows, start, end);
    assert sym in symbols;
  }

  /** Each of the given symbols paired with its mean score over the window. */
  function MeansOf(rows: seq<Row>, symbols: seq<string>, start: int, end: int): (r: seq<Entry>)
    requires forall k :: 0 <= k < |symbols| ==> HasData(rows, symbols[k], start, end)
    ensures |r| == |symbols|
    ensures forall k :: 0 <= k < |r| ==> r[k].0 == symbols[k] && r[k].1 == GroupMean(rows, symbols[k], start, end)
  {
    if symbols == [] then []
    else [(symbols[0], GroupMean(rows, symbols[0], start, end))] + MeansOf(rows, symbols[1..], start, end)
  }

  /** Insert x into a sorted ranking. */
  function Insert(x: Entry, s: seq<Entry>, worst: bool): (r: seq<Entry>)
    requires Sorted(s, worst)
    ensures Sorted(r, worst)
    ensures |r| == |s| + 1
    ensures multiset(r) == multiset(s) + multiset{x}
    ensures forall e :: e in r <==> e == x || e in s
    decreases |s|
  {
    if s == [] || InOrder(x, s[0], worst) then
      [x] + s
    else
      var rest := Insert(x, s[1..], worst);
      assert forall e :: e in rest ==> InOrder(s[0], e, worst);
      assert s == [s[0]] + s[1..];
      [s[0]] + rest
  }

  /** Inserting an entry whose symbol is new keeps the symbols distinct. */
  lemma {:induction false} InsertKeepsKeysDistinct(x: Entry, s: seq<Entry>, worst: bool)
    requires Sorted(s, worst)
    requires DistinctKeys(s)
    requires forall k :: 0 <= k < |s| ==> s[k].0 != x.0
    ensures DistinctKeys(Insert(x, s, worst))
    decreases |s|
  {
    if s != [] && !InOrder(x, s[0], worst) {
      InsertKeepsKeysDistinct(x, s[1..], worst);
      var rest := Insert(x, s[1..], worst);
      assert forall e :: e in rest ==> e.0 != s[0].0;
      assert Insert(x, s, worst) == [s[0]] + rest;
    }
  }

  /** `sort_values`: the entries ordered by score, descending, or ascending when `worst`. */
  function SortByScore(s: seq<Entry>, worst: bool): (r: seq<Entry>)
    ensures Sorted(r, worst)
    ensures |r| == |s|
    ensures multiset(r) == multiset(s)
    ensures forall e :: e in r <==> e in s
    decreases |s|
  {
    if s == [] then []
    else
      var rest := SortByScore(s[1..], worst);
      assert s == [s[0]] + s[1..];
      assert forall e :: e in s <==> e == s[0] || e in s[1..];
      Insert(s[0], rest, worst)
  }

  /** Sorting entries with distinct symbols leaves them distinct, so the
      sorted ranking is a permutation of its input. */
  lemma {:induction false} SortKeepsKeysDistinct(s: seq<Entry>, worst: bool)
    requires DistinctKeys(s)
    ensures DistinctKeys(SortByScore(s, worst))
    decreases |s|
  {
    if s != [] {
      SortKeepsKeysDistinct(s[1..], worst);
      var rest := SortByScore(s[1..], worst);
      assert forall k :: 0 <= k < |rest| ==> rest[k].0 != s[0].0 by {
        forall k | 0 <= k < |rest| ensures rest[k].0 != s[0].0 {
          assert rest[k] in s[1..];
        }
      }
      InsertKeepsKeysDistinct(s[0], rest, worst);
    }
  }

  /** `head(top_n) if top_n else ...`: a falsy `top_n` (`None` or 0) keeps
      everything; a positive one keeps that many entries; a negative one
      drops that many from the end. */
  function Head(s: seq<Entry>, topN: Option<int>): (r: seq<Entry>)
    ensures r <= s
    ensures topN == None || topN == Some(0) ==> |r| == |s|
    ensures topN.Some? && topN.value > 0 ==> |r| == if topN.value < |s| then topN.value else |s|
    ensures topN.Some? && topN.value < 0 ==> |r| == if |s| + topN.value > 0 then |s| + topN.value else 0
  {
    match topN
    case None => s
    case Some(n) =>
      if n == 0 then s
      else if n > 0 then s[..if n < |s| then n else |s|]
      else s[..if |s| + n > 0 then |s| + n else 0]
  }

  /** The full ranking, before any cut. */
  function FullRanking(rows: seq<Row>, start: int, end: int, worst: bool): (r: seq<Entry>)
    ensures DistinctKeys(r)
    ensures Sorted(r, worst)
    ensures forall k :: 0 <= k < |r| ==>
              HasData(rows, r[k].0, start, end) && GroupMean(rows, r[k].0, start, end) == r[k].1
    ensures forall sym :: HasData(rows, sym, start, end) ==> exists k :: 0 <= k < |r| && r[k].0 == sym
  {
    var groups := GroupMeans(rows, start, end);
    SortKeepsKeysDistinct(groups, worst);
    forall k | 0 <= k < |SortByScore(groups, worst)| {
      SortedEntryHasData(rows, start, end, worst, k);
    }
    forall sym | HasData(rows, sym, start, end) {
      SortedCoversSymbol(rows, start, end, worst, sym);
    }
    SortByScore(groups, worst)
  }

  /** Every sorted entry comes from a group of the window. */
  lemma SortedEntryHasData(rows: seq<Row>, start: int, end: int, worst: bool, k: int)
    ensures 0 <= k < |SortByScore(GroupMeans(rows, start, end), worst)| ==>
              && HasData(rows, SortByScore(GroupMeans(rows, start, end), worst)[k].0, start, end)
              && GroupMean(rows, SortByScore(GroupMeans(rows, start, end), worst)[k].0, start, end)
                 == SortByScore(GroupMeans(rows, start, end), worst)[k].1
  {
    var groups := GroupMeans(rows, start, end);
    var sorted := SortByScore(groups, worst);
    if 0 <= k < |sorted| {
      assert sorted[k] in groups;
      var j :| 0 <= j < |groups| && groups[j] == sorted[k];
      assert HasData(rows, groups[j].0, start, end);
    }
  }

  /** Every symbol with rows in the window survives the sort. */
  lemma SortedCoversSymbol(rows: seq<Row>, start: int, end: int, worst: bool, sym: string)
    requires HasData(rows, sym, start, end)
    ensures exists k :: 0 <= k < |SortByScore(GroupMeans(rows, start, end), worst)|
                        && SortByScore(GroupMeans(rows, start, end), worst)[k].0 == sym
  {
    var groups := GroupMeans(rows, start, end);
    var sorted := SortByScore(groups, worst);
    var j :| 0 <= j < |groups| && groups[j].0 == sym;
    assert groups[j] in sorted;
  }

  /** `classement_cryptos`: the assets with rows in the window, by mean score,
      best first (worst first when `worst`), cut to `top_n` entries when it is truthy. */
  function Rank(rows: seq<Row>, start: int, end: int, topN: Option<int>, worst: bool): (r: seq<Entry>)
    ensures DistinctKeys(r)
    ensures Sorted(r, worst)
    ensures forall k :: 0 <= k < |r| ==>
              HasData(rows, r[k].0, start, end) && GroupMean(rows, r[k].0, start, end) == r[k].1
    ensures topN == None || topN == Some(0) ==>
              forall sym :: HasData(rows, sym, start, end) ==> exists k :: 0 <= k < |r| && r[k].0 == sym
    ensures (forall i :: 0 <= i < |rows| ==> !InWindow(rows[i], start, end)) ==> r == []
  {
    var full := FullRanking(rows, start, end, worst);
    var r := Head(full, topN);
    RankingPrefix(full, r, worst);
    NonEmptyRankingHasWindowRow(rows, start, end, worst);
    assert topN == None || topN == Some(0) ==> r == full;
    r
  }

  /** A prefix of an ordered ranking with distinct assets is one too, entry for entry. */
  lemma RankingPrefix(full: seq<Entry>, r: seq<Entry>, worst: bool)
    requires r <= full
    ensures forall k :: 0 <= k < |r| ==> r[k] == full[k]
    ensures DistinctKeys(full) ==> DistinctKeys(r)
    ensures Sorted(full, worst) ==> Sorted(r, worst)
  {
    assert forall k :: 0 <= k < |r| ==> r[k] == full[k];
  }

  /** A non-empty ranking comes from some tweet inside the window. */
  lemma NonEmptyRankingHasWindowRow(rows: seq<Row>, start: int, end: int, worst: bool)
    ensures FullRanking(rows, start, end, worst) != [] ==>
              exists i :: 0 <= i < |rows| && InWindow(rows[i], start, end)
  {
    var full := FullRanking(rows, start, end, worst);
    if full != [] {
      assert HasData(rows, full[0].0, start, end);
      var i :| 0 <= i < |rows| && Selected(rows[i], full[0].0, start, end);
      assert InWindow(rows[i], start, end);
    }
  }

  /** A ranking entry's score is the mean score the summary of that asset reports. */
  lemma RankAgreesWithSummary(rows: seq<Row>, start: int, end: int, topN: Option<int>, worst: bool, k: int)
    ensures 0 <= k < |Rank(rows, start, end, topN, worst)| ==>
              && Analyse(rows, Rank(rows, start, end, topN, worst)[k].0, start, end).Some?
              && Analyse(rows, Rank(rows, start, end, topN, worst)[k].0, start, end).value.mean
                 == Rank(rows, start, end, topN, worst)[k].1
  {
  }

  /** Cutting to a truthy positive `top_n` keeps the first entries of the full ranking. */
  lemma RankTruncates(rows: seq<Row>, start: int, end: int, n: int, worst: bool)
    requires n > 0
    ensures var full := Rank(rows, start, end, None, worst);
            Rank(rows, start, end, Some(n), worst) == full[..if n < |full| then n else |full|]
  {
  }

  /** A window that is inverted, or that starts after the last hour of the
      day, selects nothing: no summary for any asset, and an empty ranking. */
  lemma WindowOutsideDay(rows: seq<Row>, symbol: string, start: int, end: int, topN: Option<int>, worst: bool)
    requires end < start || start > 23 || end < 0
    ensures Analyse(rows, symbol, start, end).None?
    ensures Rank(rows, start, end, topN, worst) == []
  {
    forall i | 0 <= i < |rows| ensures !InWindow(rows[i], start, end) {
    }
  }
}
