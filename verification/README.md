# Crypto sentiment chatbot — a Dafny model of its core

The chatbot answers French questions about the sentiment of tweets on crypto
assets posted on 30 November 2022. It works from a table of scored tweets. It
picks the assets a question names, even when they are misspelt or given by a
synonym. It picks the hour window the question mentions. A first-match-wins
keyword chain then chooses what to answer:
- a top-3 ranking;
- the worst-rated or the best-rated asset;
- a sentiment chart for one asset;
- a summary of one asset;
- a comparison of two assets;
- or "not understood".

The model covers that pipeline as pure functions over an immutable table
(`seq<Row>`):

- `Text` gives the string primitives the code relies on: lower/upper case, `str.split()` and substring search.
- `Dataset` models the table's rows, the symbol clean-up done at load time, and the sentiment labels.
- `Resolver` models the synonym table and the asset resolver. The fuzzy matcher is a parameter.
- `Hours` models the two hour patterns as a declarative grammar. It also gives a deterministic matcher proved equivalent to that grammar, and the leftmost search.
- `Extractor` models question parsing: distinct assets and the hour window.
- `Analytics` models the per-asset summary and the per-window ranking.
- `Dispatch` models the keyword classifier, the comparison, and the answer each branch returns. The answer is a tagged `Outcome`, not rendered text.

## Model

| member | source | states |
|---|---|---|
| Seqs.Dedup | chatbot_app.py:44-47 | the kept assets have no repeats; an asset is kept iff it occurs in the input list |
| Seqs.DedupKeepsDistinct | chatbot_app.py:46-47 | a list that already has no repeats is left unchanged |
| Text.Lower | chatbot_app.py:137 | lowercasing keeps the length, maps each character to its lower-case form and leaves no upper-case letter |
| Text.LowerIdempotent | chatbot_app.py:43 | lowercasing twice is lowercasing once, so the second `lower()` applied to the already lowercased question changes nothing |
| Text.Upper | chatbot_app.py:13 | upper-casing keeps the length and leaves no lower-case letter |
| Text.UpperIdempotent | chatbot_app.py:13 | upper-casing twice is upper-casing once |
| Text.Words | chatbot_app.py:43 | `split()` yields non-empty words containing no whitespace |
| Text.WordsCoverNonSpace | chatbot_app.py:43 | the words, joined back, are exactly the non-whitespace characters of the question, in order |
| Text.WordsAsScan | chatbot_app.py:43 | `split()` splits where a left-to-right scan does: a run of non-whitespace characters is one word, and every run of whitespace ends the current word |
| Text.ScanWords | chatbot_app.py:43 | a scan started in the middle of a word closes that word together with the first word of the rest, then yields the remaining words |
| Dataset.NormalizeSymbol | chatbot_app.py:13 | the normalised symbol has no `$` and no lower-case letter, and it agrees with the raw symbol, minus its `$` signs, up to case |
| Dataset.NormalizeSymbolIdempotent | chatbot_app.py:13 | normalising an already normalised symbol changes nothing |
| Dataset.ParseLabel | chatbot_app.py:14 | a label is recognised iff it is one of the three spellings, and it is then mapped back to that spelling |
| Dataset.ParseLabelRoundTrip | chatbot_app.py:14 | every sentiment's spelling is parsed back to that sentiment |
| Dataset.Numeric | chatbot_app.py:14 | the numeric sentiment lies in -1..1; it is negative iff the label is negative and positive iff the label is positive |
| Dataset.Symbols | chatbot_app.py:18 | the known symbols are exactly the symbols occurring in the table |
| Resolver.Clean | chatbot_app.py:35 | the cleaned word is exactly the token's ASCII letters, in order, each lowercased; so it consists of `a`-`z` only |
| Resolver.LowerKeepsLetters | chatbot_app.py:35 | lowering and then deleting non-letters gives the same word as deleting non-letters and then lowering |
| Resolver.CleanIdempotent | chatbot_app.py:35 | cleaning a cleaned word changes nothing |
| Resolver.Resolve | chatbot_app.py:21-39 | a synonym resolves to its table entry; any other word resolves to nothing or to a known symbol; every resolution is a synonym target or a known symbol |
| Resolver.ResolveSeesOnlyCleanedWord | chatbot_app.py:35-39 | two tokens with the same cleaned form resolve alike, so case, digits and punctuation never matter |
| Hours.MatchHour | chatbot_app.py:49 | reads a one- or two-digit hour followed by `h`, preferring two digits; it fails only where no hour group starts |
| Hours.SkipSpaces | chatbot_app.py:49 | consumes a maximal run of whitespace |
| Hours.MatchConnector | chatbot_app.py:49 | reads one of the alternatives `et`, `-`, `à`, and fails only where none of them starts |
| Hours.IntervalAt | chatbot_app.py:49 | a successful match of the interval pattern at a position lies inside the question, and both hours are at most 99 |
| Hours.IntervalAtIsMatch | chatbot_app.py:49 | the deterministic matcher succeeds at a position with hours (a, b) iff the interval pattern (an hour of one or two digits with `h`, optional whitespace, one of `et`, `-`, `à`, optional whitespace, a second such hour) matches there with those groups |
| Hours.IntervalAtSound | chatbot_app.py:49 | every hour pair the matcher reads at a position comes from a match of the interval pattern there |
| Hours.IntervalAtComplete | chatbot_app.py:49 | every match of the interval pattern at a position is read by the matcher, with the same two groups |
| Hours.FindInterval | chatbot_app.py:49 | the search returns the leftmost position where the interval pattern matches, or nothing if it matches nowhere |
| Hours.FindHour | chatbot_app.py:54 | the search returns the leftmost position where a single hour matches, with its value |
| Hours.ParseHours | chatbot_app.py:49-59 | both hours of the window are at most 99 |
| Hours.HoursFromLeftmostInterval | chatbot_app.py:49-52 | when the interval pattern's leftmost match is at i with groups (a, b), the window is (a, b) |
| Hours.HoursFromLeftmostSingle | chatbot_app.py:53-57 | with no interval match, the window is (h, h) for the leftmost single hour h |
| Hours.HoursDefault | chatbot_app.py:58-59 | with no hour at all, the window is 9h to 12h |
| Hours.NoIntervalFound | chatbot_app.py:49-50 | the search finds no interval exactly when the pattern matches at no position |
| Extractor.ResolvedNames | chatbot_app.py:44-47 | a name is collected iff it is non-empty and some word of the question resolves to it |
| Extractor.Extract | chatbot_app.py:41-61 | the assets are distinct; an asset is reported iff some word of the lowercased question resolves to it; each is a synonym target or a known symbol; the window is the one the hour patterns give |
| Analytics.SelectCountsMatchingRows | chatbot_app.py:63-69 | the filter keeps exactly the rows about the asset on the analysis day within the hour window |
| Analytics.SelectEmptyIff | chatbot_app.py:64-71 | the filtered rows are empty exactly when the asset has no row on the analysis day within the window |
| Analytics.CountsAddUp | chatbot_app.py:75 | the three per-sentiment counts add up to the number of rows |
| Analytics.CountOfPositive | chatbot_app.py:75 | a sentiment has a positive count iff some row carries it |
| Analytics.Tally | chatbot_app.py:75 | the counts hold exactly the sentiments present, each with its number of rows |
| Analytics.TallyCountIn | chatbot_app.py:75 | looking a label up in the counts gives its number of rows, and zero for a label that does not occur |
| Analytics.Dominant | chatbot_app.py:72 | the dominant sentiment has the largest count; ties go to the alphabetically first label |
| Analytics.SumBounds | chatbot_app.py:73 | the sum of scores lies between count times the lowest and count times the highest score |
| Analytics.MeanBounds | chatbot_app.py:73 | the mean score of a non-empty selection lies between the lowest and the highest score |
| Analytics.Analyse | chatbot_app.py:63-76 | no summary iff no row matches; otherwise: the volume is the number of matching rows; each sentiment's count is the number of matching rows carrying it, and the counts name exactly the sentiments present; the dominant sentiment has a maximal count, the alphabetically first among ties; the mean is the mean score of the matching rows |
| Analytics.SummaryOfSelection | chatbot_app.py:72-76 | the summary built from a non-empty selection has every property a summary promises, per-sentiment counts and mean included |
| Analytics.SelectCountsLabel | chatbot_app.py:75 | the count of a sentiment among the filtered rows is the number of rows about the asset in the window that carry it |
| Analytics.SummaryLabels | chatbot_app.py:72-75 | a sentiment appears in the selection iff it appears in some row about the asset in the window |
| Analytics.SummaryMeanWithinScores | chatbot_app.py:73 | the summary's mean score lies within any bounds that hold for every score |
| Analytics.WindowSymbols | chatbot_app.py:84 | the groups are the distinct assets having at least one row in the window |
| Analytics.GroupMeans | chatbot_app.py:84 | one entry per asset of the window, with distinct keys, each carrying the mean score of its rows |
| Analytics.MeansOf | chatbot_app.py:84 | each symbol is paired, in order, with the mean score of its rows in the window |
| Analytics.Insert | chatbot_app.py:85 | inserting into an ordered ranking keeps it ordered, and the result holds the old entries plus the new one, as a multiset |
| Analytics.SortByScore | chatbot_app.py:85 | the result is ordered by score (ascending for worst-first, descending otherwise) and is a permutation of the input |
| Analytics.SortKeepsKeysDistinct | chatbot_app.py:85 | sorting keeps the asset names distinct |
| Analytics.Head | chatbot_app.py:86 | the cut is a prefix; a falsy `top_n` keeps everything, a positive one keeps that many, and a negative one drops that many from the end |
| Analytics.FullRanking | chatbot_app.py:78-85 | the full ranking is ordered, has distinct assets, each with its mean score, and covers every asset of the window |
| Analytics.Rank | chatbot_app.py:78-86 | the ranking is ordered and has distinct assets, each with its window mean; without a cut it covers every asset of the window; an empty window gives an empty ranking |
| Analytics.RankAgreesWithSummary | chatbot_app.py:63-86 | every ranked score equals the mean of that asset's summary for the same window |
| Analytics.WindowOutsideDay | chatbot_app.py:63-86 | an inverted window, or one lying outside the hours 0 to 23 of a timestamp, yields no summary for any asset and an empty ranking |
| Analytics.RankTruncates | chatbot_app.py:86 | a positive cut keeps the first entries of the full ranking |
| Dispatch.FirstRule | chatbot_app.py:140-157 | the rule picked is the first whose keywords occur in the question; no earlier rule matches, and if none is picked then no rule matches |
| Dispatch.Classify | chatbot_app.py:140-208 | the single-asset branch is taken only with one asset and the comparison only with two |
| Dispatch.ClassifyPriority | chatbot_app.py:140-157 | a ranking keyword wins outright; each later keyword branch is taken exactly when one of its keywords occurs and no earlier branch's does, whatever the assets |
| Dispatch.ClassifyByAssets | chatbot_app.py:176-208 | with no keyword, one asset gives a summary, two a comparison, anything else "not understood" |
| Dispatch.RankingBeforeChart | chatbot_app.py:140-157 | "montre le top 3" is a ranking request, not a chart request |
| Dispatch.TwoAssetsCompare | chatbot_app.py:189 | "sol ou dot" with two assets is a comparison |
| Dispatch.Compare | chatbot_app.py:190-206 | both summaries present gives a comparison whose winner has the strictly higher mean score; otherwise each missing side is reported |
| Dispatch.CompareAntisymmetric | chatbot_app.py:190-206 | swapping the two assets swaps the winner and the missing sides, and an equivalent pair stays equivalent |
| Dispatch.ChartRows | chatbot_app.py:159-162 | the chart plots every row of the asset on the analysis day at any hour, and no other row |
| Dispatch.ChartAnswer | chatbot_app.py:157-175 | a plot only for exactly one asset, holding every row of that asset on the analysis day and no other row; a no-data warning only when that asset has no row that day; a request for a single asset iff not exactly one asset is named |
| Dispatch.Respond | chatbot_app.py:140-208 | each branch answers in kind over the extracted window: the top three of the best-first ranking; the first entry of the worst-first (best-first) ranking cut to one; a chart only for exactly one asset, holding all of its rows of the day, and a no-data warning only when there are none; the summary of the one asset named; the comparison of the summaries of the first two assets, in that order |
| Dispatch.Answer | chatbot_app.py:136-208 | the answer is the one the classifier's branch gives for the lowercased question, the assets extracted from it and their number; every ranking, summary and comparison covers the window the hour patterns read in the lowercased question |
| Dispatch.ExtremeEntry | chatbot_app.py:145-156 | the one entry of the worst-first (best-first) ranking cut to one is an asset of the window, with its mean, no higher (no lower) than any other asset's mean |
| Dispatch.ExtremeAnswer | chatbot_app.py:145-156 | the dispatcher's worst-rated answer names an asset of the window, with its mean, no higher than any other asset's mean; its best-rated answer one no lower |
| Dispatch.ExtremeEntryEmpty | chatbot_app.py:145-156 | the worst-first or best-first ranking cut to one is empty exactly when no tweet falls in the window |
| Dispatch.ExtremeAnswerEmpty | chatbot_app.py:145-156 | the dispatcher's worst- and best-rated answers name nobody exactly when no tweet falls in the window |

## Left out

- The user interface is left out: Streamlit widgets, the "Analyser" button, Markdown rendering and the matplotlib figure. An `Outcome` is returned instead.
- The guard that skips an empty question is left out.
- CSV loading is not modelled. The table is a parameter.
- Timestamps are reduced to a date and an hour. Minutes and seconds play no part in any filter.
- The chart rows keep the table's order. Sorting by timestamp is not modelled, since the model has no sub-hour time.
- Rows whose label is not one of the three sentiments are not modelled. For them the numeric mapping would give NaN.
- `difflib.get_close_matches` is a parameter of type `CloseMatcher`. All the model relies on is that it returns at most one string, and only a string drawn from the candidates. The similarity ratio and the 0.8 cutoff are not modelled.
- Resolver.Resolve: a non-synonym word is only known to resolve to nothing or to a known symbol. Which symbol is chosen depends on the fuzzy ratio, and that is not modelled.
- Text.Lower covers the ASCII and Latin-1 letters only, not full Unicode case mapping.
- Text.Upper maps only a-z and the Latin-1 small letters whose capital is also in Latin-1. It leaves 'ß', 'ÿ' and 'µ' unchanged, while Python maps them to "SS", U+0178 and U+039C; a symbol containing them is normalised differently, and 'ß' would change its length.
- Text.Words treats the ASCII and Latin-1 whitespace characters as whitespace, not the wider Unicode set.
- The hour patterns take `\d` as ASCII digits only. Python also accepts other Unicode decimal digits.
- Hours.SkipSpaces: the `\s` of the interval pattern is narrowed to the ASCII and Latin-1 whitespace characters, like Text.Words. Python's `\s` matches all Unicode whitespace, so for "9h\u202Fet 12h" (a narrow no-break space) the source reads the window (9, 12) and the model reads (9, 9).
- Extractor.Extract keeps the assets in first-seen order. The source returns `list(set(...))`, whose order depends on string hashing. Dispatch.CompareAntisymmetric shows that order only swaps the two sides of a comparison.
- Analytics.Analyse and Analytics.Rank keep exact mean scores. The rounding to three decimals is not modelled. For `classement_cryptos` it happens only on display. `analyse_crypto` returns the rounded score, and the next line gives the effect of that rounding.
- Dispatch.Compare compares unrounded means. The source compares means already rounded to three decimals, so two different means that round to the same three decimals (0.12351 and 0.12449, say) are "equivalent" there but not here.
- Analytics.Dominant relies on pandas returning the modes sorted. Ties therefore go to the alphabetically first label: negative, then neutral, then positive.
- Analytics.Head follows the code for a negative `top_n`: it drops that many entries from the end. It does not keep the first `min(top_n, n)` entries.
- Dispatch.Respond follows the code when a chart is requested with no asset: it asks for exactly one asset rather than reporting missing data.
