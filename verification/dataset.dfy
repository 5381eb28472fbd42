/** The loaded table of tweets: one row per tweet with its day, hour, asset
    symbol, sentiment label and score. */
module Dataset {
  import opened Options
  import opened Seqs
  import opened Text

  datatype Date = Date(year: int, month: int, day: int)

  /** The one day every query looks at: 30 November 2022. */
  const AnalysisDate: Date := Date(2022, 11, 30)

  /** The three sentiment labels of the data set. */
  datatype Sentiment = Negative | Neutral | Positive

  const AllSentiments: set<Sentiment> := {Negative, Neutral, Positive}

  /** The label as it is spelt in the data set. */
  function Label(l: Sentiment): string
  {
    match l
    case Negative => "negative"
    case Neutral => "neutral"
    case Positive => "positive"
  }

  /** The mapping `{"negative": -1, "neutral": 0, "positive": 1}` applied to a
      label; any other spelling has no image (pandas leaves it NaN). */
  function ParseLabel(spelling: string): (r: Option<Sentiment>)
    ensures r.Some? ==> Label(r.value) == spelling
    ensures r.None? ==> forall l :: Label(l) != spelling
  {
    if spelling == "negative" then Some(Negative)
    else if spelling == "neutral" then Some(Neutral)
    else if spelling == "positive" then Some(Positive)
    else None
  }

  /** Every label spelt as in the data set is read back as itself. */
  lemma ParseLabelRoundTrip(l: Sentiment)
    ensures ParseLabel(Label(l)) == Some(l)
  {
  }

  /** The `sentiment_numeric` column: -1, 0 or 1, ordered like the labels. */
  function Numeric(l: Sentiment): (n: int)
    ensures -1 <= n <= 1
    ensures n < 0 <==> l == Negative
    ensures n > 0 <==> l == Positive
  {
    match l
    case Negative => -1
    case Neutral => 0
    case Positive => 1
  }

  /** The hour of a timestamp, as `dt.hour` reads it. */
  type Hour = h: int | 0 <= h < 24

  /** One tweet. `symbol` is the normalised asset symbol; `hour` is the hour of its timestamp. */
  datatype Row = Row(date: Date, hour: Hour, symbol: string, sentiment: Sentiment, score: real)

  predicate NotDollar(c: char)
  {
    c != '$'
  }

  /** The `crypto` column: every `$` removed from the raw field, then uppercased. */
  function NormalizeSymbol(raw: string): (r: string)
    ensures |r| == |Keep(raw, NotDollar)|
    ensures forall i :: 0 <= i < |r| ==> r[i] != '$' && !IsLowerLetter(r[i])
    ensures Lower(r) == Lower(Keep(raw, NotDollar))
  {
    var stripped := Keep(raw, NotDollar);
    var r := Upper(stripped);
    assert forall i :: 0 <= i < |r| ==> LowerChar(r[i]) == LowerChar(stripped[i]) by {
      forall i | 0 <= i < |r| {
        LowerOfUpperChar(stripped[i]);
      }
    }
    r
  }

  /** Normalising a symbol a second time changes nothing. */
  lemma NormalizeSymbolIdempotent(raw: string)
    ensures NormalizeSymbol(NormalizeSymbol(raw)) == NormalizeSymbol(raw)
  {
    var r := NormalizeSymbol(raw);
    KeepAll(r, NotDollar);
    UpperIdempotent(Keep(raw, NotDollar));
  }

  /** The symbols present in the table: the candidates of the fuzzy matcher. */
  function Symbols(rows: seq<Row>): (r: set<string>)
    ensures forall i :: 0 <= i < |rows| ==> rows[i].symbol in r
    ensures forall sym :: sym in r ==> exists i :: 0 <= i < |rows| && rows[i].symbol == sym
  {
    set i | 0 <= i < |rows| :: rows[i].symbol
  }

  /** The row lies on the analysis day, between the two hours inclusive. */
  predicate InWindow(r: Row, start: int, end: int)
  {
    r.date == AnalysisDate && start <= r.hour && r.hour <= end
  }
}
