# Printable wall-art niche dashboard: verified data core

This project models the data-transformation core of a React dashboard for
printable wall-art niches. All three panels read one list of `Niche` records
(name, description, conversion rate, average order value, trending score, search
volume, price band, platforms and a few lists of text).

- **Opportunity finder** (`SearchExperience.tsx`):
  - the default filter state and the list of platforms offered by the filter bar;
  - a free-text query matcher (trim, lower-case, split on `\s+`, every token a
    substring of a lower-cased haystack made from six fields);
  - a four-stage filter chain, a step that attaches each niche's score as `roi`,
    a stable descending sort by one of three keys, and the "hero pick", which is
    the first result.
- **Marketplace conversion pulse** (`PlatformInsights.tsx`):
  - `aggregateByPlatform`, a nested loop that builds a Map from platform to running
    totals, then turns those totals into means and sorts by split-attributed volume;
  - the cards drawn from the result: each platform's share of the total volume,
    the width of its progress bar and its "refresh every N days" cadence.
- **Conversion intelligence panel** (`InsightsPanel.tsx`): catalog-wide means and
  the total search volume, plus three picks. Each pick is the head of a stable
  descending sort.

Modules, one per file:

| file | module | contents |
|---|---|---|
| seqs.dfy | `Seqs` | `Option`, sums as left folds (`reduce`), mean bounds, `filter`, first-seen de-duplication (`Array.from(new Set(...))`) |
| sorting.dfy | `Sorting` | the stable descending sort, with sortedness, permutation, stability and head-is-earliest-maximum lemmas |
| text.dfy | `Text` | `trim`, ASCII `toLowerCase`, `split(/\s+/)`, `join`, `includes` |
| catalog.dfy | `Catalog` | the `Niche` record, field readers, `flatMap` of the platform lists |
| search.dfy | `Search` | the opportunity finder |
| platform_insights.dfy | `PlatformInsights` | `aggregateByPlatform` and the platform cards |
| insights_panel.dfy | `InsightsPanel` | the side panel's reductions and picks |

`aggregateByPlatform`'s fold is imperative in the source, so it is a method here.
`PlatformInsights.Accumulate` runs the two nested loops over a `keys` sequence
(the Map's insertion order) and a `map` of totals. `PlatformInsights.AddToEntry`
is the loop body. Each method is proved equal to a pure specification: `Fold`,
`Walk` and `AddTo` over a `Tally`. `FoldCorrect` then relates that specification
to the catalog: each platform's entry holds the totals of exactly the niches
that list it.

The score formula is a parameter `score: Niche -> real`, used only as a sort key.
Numbers are exact reals.

## Model

| member | source | states |
|---|---|---|
| Search.UniquePlatformsSpec | app/components/SearchExperience.tsx:16-18 | the filter bar's platforms are exactly those listed by some niche, each once, in order of first mention |
| Search.MatchesQueryIff | app/components/SearchExperience.tsx:25-38 | a niche matches iff the query is empty or every token of the trimmed, lower-cased query occurs at some position of the lower-cased haystack |
| Search.BlankQueryMatches | app/components/SearchExperience.tsx:26-38 | an empty or whitespace-only query matches every niche (it trims to "", whose one token "" occurs everywhere) |
| Search.QueryCaseInsensitive | app/components/SearchExperience.tsx:27-38 | queries that agree after lower-casing give the same answer |
| Search.QueryTokensOfWords | app/components/SearchExperience.tsx:27-38 | words typed with any whitespace before, between and after them tokenise to their lower-cased forms, in order |
| Search.TokenOrderIrrelevant | app/components/SearchExperience.tsx:27-38 | queries made of the same words, in any order, with any repetition and any whitespace around and between them, give the same answer |
| Search.ShortCircuitAgrees | app/components/SearchExperience.tsx:26-38 | the early return for an empty query gives the same answer as the token test would |
| Search.SameTokensSameAnswer | app/components/SearchExperience.tsx:38 | the answer depends only on the set of query tokens |
| Search.OnlySearchFieldsMatter | app/components/SearchExperience.tsx:28-37 | niches that agree on name, description, buyer intent, demand signals, keywords and marketing angles match the same queries; no other field matters |
| Search.NameWordMatches | app/components/SearchExperience.tsx:25-38 | a single word that occurs in a niche's name always finds that niche |
| Search.WordTokens | app/components/SearchExperience.tsx:27-38 | a single word as a query is one token, its lower-cased form |
| Search.NameInHaystack | app/components/SearchExperience.tsx:28-37 | whatever occurs in the name occurs, lower-cased, in the haystack |
| Search.FilterChainQualifying | app/components/SearchExperience.tsx:45-49 | the four filters in a row keep exactly the niches satisfying their conjunction, in catalog order |
| Search.FilterChainMembership | app/components/SearchExperience.tsx:46-49 | a niche survives iff it is in the catalog, its conversion rate is at least the floor (inclusive), the platform is "all" or listed, the band is "all" or equal, and the query matches |
| Search.AllPlatformsKeepsEverything | app/components/SearchExperience.tsx:47 | the platform stage set to "all" keeps its input unchanged |
| Search.WithRoiMembership | app/components/SearchExperience.tsx:50 | a scored record is in the mapped list iff its niche is in the input and its roi is that niche's score |
| Search.ResultsPermutation | app/components/SearchExperience.tsx:45-59 | `filtered` is a permutation of the qualifying catalog subsequence with each niche's score attached |
| Search.ResultsMembership | app/components/SearchExperience.tsx:45-50 | a record is in `filtered` iff its niche is a qualifying catalog niche and its roi is that niche's score |
| Search.ResultsSorted | app/components/SearchExperience.tsx:51-59 | `filtered` is non-increasing in the selected key (conversion rate, trending score, or roi by default) |
| Search.ResultsStable | app/components/SearchExperience.tsx:51-59 | records with equal keys keep their catalog order |
| Search.HeroPick | app/components/SearchExperience.tsx:62 | `filtered[0]` is absent exactly when `filtered` is empty, and is one of the results otherwise |
| Search.HeroPickSpec | app/components/SearchExperience.tsx:62 | the hero pick is absent exactly when no catalog niche qualifies (the empty state); otherwise it is the earliest qualifying niche of maximal key |
| Search.AbsentTokenEmptiesResults | app/components/SearchExperience.tsx:38-49 | a query token that no niche's haystack contains empties the results |
| Search.DefaultFiltersKeepFloor | app/components/SearchExperience.tsx:8-14 | under the default filters the results are exactly the catalog niches with conversion rate at least 3.5, scored |
| Text.LowerChar | app/components/SearchExperience.tsx:27 | lower-casing a character keeps it whitespace or non-whitespace |
| Text.TrimStart | app/components/SearchExperience.tsx:27 | the result is a suffix whose dropped prefix is all whitespace and which does not start with whitespace |
| Text.TrimEnd | app/components/SearchExperience.tsx:27 | the result is a prefix whose dropped suffix is all whitespace and which does not end with whitespace |
| Text.TrimAllWhitespace | app/components/SearchExperience.tsx:27 | a whitespace-only string trims to "" |
| Text.TrimUntrimmed | app/components/SearchExperience.tsx:27 | a string that neither starts nor ends with whitespace is its own trim |
| Text.TrimLower | app/components/SearchExperience.tsx:27 | trimming and lower-casing commute |
| Text.FirstWhitespace | app/components/SearchExperience.tsx:38 | the first whitespace position, with no whitespace before it |
| Text.RunEnd | app/components/SearchExperience.tsx:38 | the end of a maximal whitespace run (the greedy `\s+`) |
| Text.SplitPiecesHaveNoWhitespace | app/components/SearchExperience.tsx:38 | no piece of `split(/\s+/)` contains whitespace |
| Text.SplitInteriorPiecesNonEmpty | app/components/SearchExperience.tsx:38 | only the first and the last piece of `split(/\s+/)` can be empty: consecutive whitespace is one separator |
| Text.SplitRejoin | app/components/SearchExperience.tsx:38 | every string equals the pieces of `split(/\s+/)` rejoined with the separators between them, each separator a non-empty run of whitespace; with the two rows above this fixes the pieces as the maximal whitespace-free stretches |
| Text.SplitInterleave | app/components/SearchExperience.tsx:38 | splitting words joined by any non-empty whitespace runs (tabs, several spaces, no-break spaces) gives the words back |
| Text.InterleaveLower | app/components/SearchExperience.tsx:27 | lower-casing a rejoined string lower-cases each piece and each separator |
| Text.ContainsIff | app/components/SearchExperience.tsx:38 | `includes` holds iff the needle occurs at some position |
| Text.AllContainedIff | app/components/SearchExperience.tsx:38 | `every(includes)` holds iff each needle occurs at some position |
| Text.SameNeedlesSameAnswer | app/components/SearchExperience.tsx:38 | `every(includes)` depends only on the set of needles |
| Text.JoinPrefix | app/components/SearchExperience.tsx:36 | the first joined piece is a prefix of the joined string |
| Seqs.DedupElements | app/components/SearchExperience.tsx:16-18 | `Array.from(new Set(xs))` holds exactly the elements of `xs`, each once |
| Seqs.DedupFirstSeenOrder | app/components/SearchExperience.tsx:16-18 | its elements come in the order of their first occurrence |
| Seqs.FilterMembership | app/components/SearchExperience.tsx:46-49 | `filter` keeps exactly the elements satisfying the predicate |
| Seqs.FilterFusion | app/components/SearchExperience.tsx:46-49 | two filters in a row equal one filter by the conjunction |
| Seqs.MeanBetween | app/components/InsightsPanel.tsx:16-18 | `sum / length` over a non-empty list lies between any bounds of its summands |
| Catalog.FlatPlatformsMembership | app/components/SearchExperience.tsx:17 | a platform is in the `flatMap` of the platform lists iff some niche lists it |
| Sorting.SortDescBySorted | app/components/SearchExperience.tsx:51-59 | the comparator sort yields a non-increasing sequence of keys |
| Sorting.SortDescByPermutes | app/components/SearchExperience.tsx:51-59 | the sort is a permutation of its input |
| Sorting.SortDescByStable | app/components/PlatformInsights.tsx:24 | elements with equal keys keep their input order |
| Sorting.FirstMaxIndex | app/components/InsightsPanel.tsx:21-25 | the earliest index of maximal key, as an independent reference |
| Sorting.SortDescByHead | app/components/InsightsPanel.tsx:21-25 | the head of the sorted copy is the earliest element of maximal key |
| Sorting.SortDescByPreservesSum | app/components/PlatformInsights.tsx:24 | sorting does not change a sum over the elements |
| PlatformInsights.AddToEntry | app/components/PlatformInsights.tsx:8-13 | the loop body: get or create the platform's totals, add one to the count, add the niche's conversion rate, trending score and `searchVolume / platforms.length`, store the entry back, and record a new key in insertion order |
| PlatformInsights.Accumulate | app/components/PlatformInsights.tsx:6-15 | the nested `forEach` loops leave the Map equal to the fold `Fold` of the catalog |
| PlatformInsights.FoldCorrect | app/components/PlatformInsights.tsx:4-15 | the Map's keys are the distinct listed platforms in first-insertion order; each entry holds the count and the conversion, trend and split-volume sums of the niches listing that platform (once per listing); the entry volumes add up to the volume of the niches with platforms |
| PlatformInsights.MembersMembership | app/components/PlatformInsights.tsx:7-11 | a platform's entry accumulates exactly the catalog niches that list it |
| PlatformInsights.MembersNonEmpty | app/components/PlatformInsights.tsx:20-21 | every entry has count at least 1, so the finishing divisions are defined |
| PlatformInsights.SplitVolumesAddUp | app/components/PlatformInsights.tsx:12 | a niche with k > 0 platforms adds `searchVolume / k` to each, so all of its volume overall; with none it adds nothing |
| PlatformInsights.FoldRows | app/components/PlatformInsights.tsx:17-23 | the finishing `map` over the Map entries gives one row per distinct platform, and their volumes add up to the attributed catalog volume |
| PlatformInsights.AggregateByPlatform | app/components/PlatformInsights.tsx:3-25 | the result is the per-platform rows sorted by weighted volume: non-increasing, ties in first-insertion order, volumes adding up to the volume of the niches that list a platform |
| PlatformInsights.RowMeansBetween | app/components/PlatformInsights.tsx:20-21 | a row's average conversion and average trend lie between the minimum and maximum over the niches listing that platform |
| PlatformInsights.RowVolumeNonNegative | app/components/PlatformInsights.tsx:12 | with no negative search volume no row has a negative weighted volume |
| PlatformInsights.AggregatedVolumesNonNegative | app/components/PlatformInsights.tsx:12-24 | with no negative search volume every returned row has a non-negative weighted volume |
| PlatformInsights.TotalVolumeAttributed | app/components/PlatformInsights.tsx:33 | the panel's `totalVolume` equals the search volume of the niches that list at least one platform |
| PlatformInsights.RawShare | app/components/PlatformInsights.tsx:43 | as written: not a finite number exactly when the total is 0, otherwise the volume as a percentage of the total |
| PlatformInsights.Share | app/components/PlatformInsights.tsx:43 | the guarded share: agrees with the written formula whenever the total is non-zero and is 0 otherwise |
| PlatformInsights.SharesSumTo100 | app/components/PlatformInsights.tsx:33-43 | whenever the total is non-zero each card shows the guarded share of its row, and the cards' shares add up to 100 |
| PlatformInsights.ShareBounds | app/components/PlatformInsights.tsx:43 | with no negative volume each share lies in [0, 100] |
| PlatformInsights.ProgressWidth | app/components/PlatformInsights.tsx:61 | `Math.min(100, share)` never exceeds 100 and is the share itself unless that is above 100 |
| PlatformInsights.Round | app/components/PlatformInsights.tsx:63 | `Math.round` gives the integer within half of its argument, halves rounded up |
| PlatformInsights.RefreshDays | app/components/PlatformInsights.tsx:63 | the refresh cadence is at least 9 days, exactly 9 iff the average trend exceeds 71, and otherwise the rounded `45 - avgTrend / 2` |
| PlatformInsights.Cards | app/components/PlatformInsights.tsx:42-64 | one card per row, in the rows' order, for the same platform, with the unguarded share |
| PlatformInsights.CardsInRange | app/components/PlatformInsights.tsx:42-63 | with no negative search volume every card's cadence is at least 9 days, and its share is defined exactly when the total is non-zero, then lying in [0, 100] with the bar as wide as the share |
| PlatformInsights.ZeroVolumeShareUndefined | app/components/PlatformInsights.tsx:43 | as written, one niche with search volume 0 listing one platform yields a card whose share and bar width are not numbers |
| InsightsPanel.TotalSearchVolume | app/components/InsightsPanel.tsx:19 | the total search volume is 0 for an empty list |
| InsightsPanel.Mean | app/components/InsightsPanel.tsx:16-18 | a mean is undefined (NaN) exactly for an empty list, and otherwise times the length gives the field sum |
| InsightsPanel.MeanBounds | app/components/InsightsPanel.tsx:16-18 | each mean lies between the minimum and maximum of its field |
| InsightsPanel.BestBy | app/components/InsightsPanel.tsx:21-25 | the head of a sorted copy is missing exactly for an empty list |
| InsightsPanel.BestByIsEarliestMax | app/components/InsightsPanel.tsx:21-25 | the pick is a catalog niche of maximal key and no earlier niche has that key |
| InsightsPanel.Panel | app/components/InsightsPanel.tsx:15-25 | the panel has figures exactly for a non-empty catalog |
| InsightsPanel.PanelPicks | app/components/InsightsPanel.tsx:21-25 | best trend, strongest conversion and best value are the earliest niches of maximal trending score, conversion rate and `avgOrderValue * conversionRate` |
| InsightsPanel.AttributedWithinTotal | app/components/InsightsPanel.tsx:19 | with no negative search volume the platform panel's total is at most the catalog total, and equal when every niche lists a platform |

## Left out

- The score formula of `scoreNiche` (`Math.log10` and floating-point weights) is a parameter. It is used only as a sort key.
- JavaScript numbers are exact reals. Rounding error, NaN and infinity are not modelled, except that the divisions that can go wrong return `Option`: `RawShare` and the cards' share and width (a zero total), and the panel means (an empty list).
- PlatformInsights.Cards: a share that is not a finite number gives a width of `None`. JavaScript gives NaN for a NaN share, but `Math.min(100, Infinity)` is 100; an infinite share needs a non-zero volume over a zero total, so some volume must be negative.
- `toLowerCase` is modelled on ASCII letters only. Full Unicode case mapping is not modelled.
- `\s` and `trim` use the ECMAScript whitespace set, one character at a time.
- `toFixed` and `Intl.NumberFormat` (`formatCurrency`) are display formatting. They are left out.
- React state (`useState`, `useMemo`), JSX, CSS, `SearchFilters`' controls, `NicheCard` and the page layout are left out. A filter change is a new `FilterState` value.
- The dataset `data/niches` is not part of this model. The catalog is a parameter.
- PlatformInsights.AddToEntry: the Map entry object that `forEach` updates in place is modelled as a new `Totals` value stored back under its key. No entry is shared, so nothing else can observe the difference.
- The inputs are never written: Dafny sequences are values. This stands for "the catalog and its `platforms` lists are unchanged" and "the panel's sorts act on copies"; it is not a separate lemma.
- A platform listed twice by the same niche is counted twice, as in the source.

## Findings

| source | as written | input that shows it | evidently intended | confidence | as-written member | corrected member |
|---|---|---|---|---|---|---|
| app/components/PlatformInsights.tsx:43 | `share = (weightedVolume / totalVolume) * 100` with no guard for a zero total | one niche with search volume 0 listing one platform: the total is 0 and the share is `0 / 0` = NaN, shown as "NaN% share" and a bar of width "NaN%" | a share of 0 when no volume is attributed, and otherwise the percentage, with shares summing to 100 | not executed | PlatformInsights.ZeroVolumeShareUndefined | PlatformInsights.Share |
