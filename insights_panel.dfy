/** The "Conversion Intelligence" side panel: catalog-wide means and total, and three
    spotlight picks, each the head of a stable descending sort of a copy of the list. */
module InsightsPanel {
  import opened Seqs
  import opened Sorting
  import opened Catalog
  import PlatformInsights

  /** `niches.reduce((acc, niche) => acc + niche.searchVolume, 0)`. */
  function TotalSearchVolume(ns: seq<Niche>): (r: real)
    ensures ns == [] ==> r == 0.0
  {
    SumOf(ns, SearchVolume)
  }

  /** `niches.reduce((acc, niche) => acc + f(niche), 0) / niches.length`; over an empty
      list that is `0 / 0`, not a number, shown here as `None`. */
  function Mean(ns: seq<Niche>, f: Niche -> real): (r: Option<real>)
    ensures r.None? <==> ns == []
    ensures r.Some? ==> r.value * (|ns| as real) == SumOf(ns, f)
  {
    if ns == [] then None else Some(SumOf(ns, f) / (|ns| as real))
  }

  /** `niches.slice().sort((a, b) => key(b) - key(a))[0]`; `undefined` for an empty list. */
  function BestBy(ns: seq<Niche>, key: Niche -> real): (r: Option<Niche>)
    ensures r.Some? <==> ns != []
  {
    if ns == [] then None else Some(SortDescBy(ns, key)[0])
  }

  /** What the panel shows. */
  datatype Summary = Summary(
    avgConversion: real,
    avgOrder: real,
    avgTrend: real,
    totalVolume: real,
    bestTrend: Niche,
    strongestConversion: Niche,
    bestValue: Niche)

  /** The panel's figures, or `None` for an empty catalog: there the means are not
      numbers and reading `bestTrend.name` off `undefined` throws. */
  function Panel(ns: seq<Niche>): (r: Option<Summary>)
    ensures r.Some? <==> ns != []
  {
    if ns == [] then None
    else Some(Summary(
      Mean(ns, ConversionRate).value,
      Mean(ns, AvgOrderValue).value,
      Mean(ns, TrendingScore).value,
      TotalSearchVolume(ns),
      BestBy(ns, TrendingScore).value,
      BestBy(ns, ConversionRate).value,
      BestBy(ns, RevenueDensity).value))
  }

  /** A mean lies between any bounds on its summands, so between their minimum and
      maximum. */
  lemma MeanBounds(ns: seq<Niche>, f: Niche -> real, lo: real, hi: real)
    requires ns != []
    requires forall i | 0 <= i < |ns| :: lo <= f(ns[i]) <= hi
    ensures lo <= Mean(ns, f).value <= hi
  {
    MeanBetween(ns, f, lo, hi);
  }

  /** The pick is a catalog niche of maximal key, and no earlier niche has that key:
      stability makes the first of the tied niches win. */
  lemma BestByIsEarliestMax(ns: seq<Niche>, key: Niche -> real)
    requires ns != []
    ensures exists k | 0 <= k < |ns| ::
      && BestBy(ns, key) == Some(ns[k])
      && (forall j | 0 <= j < |ns| :: key(ns[j]) <= key(ns[k]))
      && (forall j | 0 <= j < k :: key(ns[j]) < key(ns[k]))
  {
    SortDescByHead(ns, key);
    var k := FirstMaxIndex(ns, key);
    assert BestBy(ns, key) == Some(ns[k]);
  }

  /** The spotlight picks of a non-empty catalog: the earliest niche with the highest
      trending score, the earliest with the highest conversion rate, and the earliest
      with the highest `avgOrderValue * conversionRate`. */
  lemma PanelPicks(ns: seq<Niche>)
    requires ns != []
    ensures Panel(ns).value.bestTrend == ns[FirstMaxIndex(ns, TrendingScore)]
    ensures Panel(ns).value.strongestConversion == ns[FirstMaxIndex(ns, ConversionRate)]
    ensures Panel(ns).value.bestValue == ns[FirstMaxIndex(ns, RevenueDensity)]
  {
    SortDescByHead(ns, TrendingScore);
    SortDescByHead(ns, ConversionRate);
    SortDescByHead(ns, RevenueDensity);
  }

  /** With no negative search volume, the platform panel's total never exceeds the
      catalog's total, and the two agree when every niche lists a platform. */
  lemma {:induction false} AttributedWithinTotal(ns: seq<Niche>)
    requires forall i | 0 <= i < |ns| :: 0.0 <= ns[i].searchVolume
    ensures SumOf(ns, PlatformInsights.AttributedVolume) <= TotalSearchVolume(ns)
    ensures (forall i | 0 <= i < |ns| :: ns[i].platforms != []) ==>
      SumOf(ns, PlatformInsights.AttributedVolume) == TotalSearchVolume(ns)
  {
    if ns != [] {
      AttributedWithinTotal(ns[..|ns| - 1]);
    }
  }
}
