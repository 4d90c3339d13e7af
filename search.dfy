/** The opportunity finder: the filter state, the free-text query matcher, and the
    filter -> score -> sort pipeline whose first result is the "hero pick". The
    scoring formula is a parameter `score` (it is used only as a sort key). */
module Search {
  import opened Seqs
  import opened Sorting
  import opened Text
  import opened Catalog

  datatype PlatformChoice = AllPlatforms | OnPlatform(platform: Platform)
  datatype BandChoice = AllBands | InBand(band: PriceBand)
  datatype SortBy = ByRoi | ByConversion | ByTrending

  /** The user's criteria. A control change builds a new value with one field
      replaced (`f.(query := q)`); nothing is updated in place. */
  datatype FilterState = FilterState(
    query: string,
    platform: PlatformChoice,
    priceBand: BandChoice,
    minConversion: real,
    sort: SortBy)

  const DefaultFilters: FilterState := FilterState("", AllPlatforms, AllBands, 3.5, ByRoi)

  /** The platform choices offered by the filter bar: every platform of the catalog, once. */
  function UniquePlatforms(catalog: seq<Niche>): seq<Platform>
  {
    Dedup(FlatPlatforms(catalog))
  }

  /** Each platform listed by some niche appears exactly once, no other platform appears,
      and they come in the order in which the catalog first mentions them. */
  lemma UniquePlatformsSpec(catalog: seq<Niche>)
    ensures forall p :: p in UniquePlatforms(catalog) <==> exists i | 0 <= i < |catalog| :: p in catalog[i].platforms
    ensures Distinct(UniquePlatforms(catalog))
    ensures forall i, j | 0 <= i < j < |UniquePlatforms(catalog)| ::
      var u, all := UniquePlatforms(catalog), FlatPlatforms(catalog);
      u[i] in all && u[j] in all && IndexOf(all, u[i]) < IndexOf(all, u[j])
  {
    DedupElements(FlatPlatforms(catalog));
    DedupFirstSeenOrder(FlatPlatforms(catalog));
    forall p ensures p in FlatPlatforms(catalog) <==> exists i | 0 <= i < |catalog| :: p in catalog[i].platforms {
      FlatPlatformsMembership(catalog, p);
    }
  }

  // ---------------------------------------------------------------------------
  // The query matcher

  /** The six text fields a query is matched against, in the order they are joined. */
  function SearchFields(n: Niche): seq<string>
  {
    [n.name, n.description, n.buyerIntent] + n.demandSignals + n.keywords + n.marketingAngles
  }

  function Haystack(n: Niche): string
  {
    ToLower(JoinWith(SearchFields(n), " "))
  }

  /** `query.trim().toLowerCase().split(/\s+/)`. */
  function QueryTokens(query: string): seq<string>
  {
    Split(ToLower(Trim(query)))
  }

  /** `matchesQuery`: the empty query matches at once; otherwise every token must
      occur in the lower-cased haystack. */
  predicate MatchesQuery(n: Niche, query: string)
  {
    query == [] ||
      var haystack, tokens := Haystack(n), QueryTokens(query);
      forall k | 0 <= k < |tokens| :: Contains(haystack, tokens[k])
  }

  /** A niche matches iff every token of the trimmed, lower-cased query occurs at
      some position of the haystack (an AND of substring tests). */
  lemma MatchesQueryIff(n: Niche, query: string)
    ensures MatchesQuery(n, query) <==>
      query == [] || forall t | t in QueryTokens(query) :: exists i :: OccursAt(Haystack(n), t, i)
  {
    AllContainedIff(Haystack(n), QueryTokens(query));
  }

  /** An empty or whitespace-only query matches every niche: it trims to "", whose
      only token "" occurs in any haystack. */
  lemma BlankQueryMatches(n: Niche, query: string)
    requires AllWhitespace(query)
    ensures MatchesQuery(n, query)
  {
    TrimAllWhitespace(query);
    assert QueryTokens(query) == [[]];
  }

  /** Letter case in the query is irrelevant. */
  lemma QueryCaseInsensitive(n: Niche, q1: string, q2: string)
    requires ToLower(q1) == ToLower(q2)
    ensures MatchesQuery(n, q1) == MatchesQuery(n, q2)
  {
    TrimLower(q1);
    TrimLower(q2);
    assert QueryTokens(q1) == QueryTokens(q2);
  }

  /** `q` is the words `ws` with the whitespace runs `seps` between them and any
      whitespace `lead` before and `trail` after: what a user types as words. */
  predicate Spells(q: string, lead: string, ws: seq<string>, seps: seq<string>, trail: string)
  {
    && |ws| == |seps| + 1
    && AllWhitespace(lead) && AllWhitespace(trail)
    && (forall k | 0 <= k < |ws| :: IsWord(ws[k]))
    && (forall k | 0 <= k < |seps| :: IsRun(seps[k]))
    && q == lead + Interleave(ws, seps) + trail
  }

  /** Words typed with any whitespace around and between them come back as their
      lower-cased forms. */
  lemma QueryTokensOfWords(q: string, lead: string, ws: seq<string>, seps: seq<string>, trail: string)
    requires Spells(q, lead, ws, seps, trail)
    ensures q != []
    ensures QueryTokens(q) == LowerAll(ws)
  {
    var x := Interleave(ws, seps);
    InterleaveEnds(ws, seps);
    TrimAround(lead, x, trail);
    InterleaveLower(ws, seps);
    LowerKeepsShape(ws, seps);
    SplitInterleave(LowerAll(ws), LowerAll(seps));
  }

  /** Token order, repetition and the whitespace typed between and around the words
      are irrelevant: two queries made of the same words give the same answer. */
  lemma TokenOrderIrrelevant(n: Niche, q1: string, lead1: string, ws1: seq<string>, seps1: seq<string>, trail1: string,
                                       q2: string, lead2: string, ws2: seq<string>, seps2: seq<string>, trail2: string)
    requires Spells(q1, lead1, ws1, seps1, trail1)
    requires Spells(q2, lead2, ws2, seps2, trail2)
    requires forall w :: w in ws1 <==> w in ws2
    ensures MatchesQuery(n, q1) == MatchesQuery(n, q2)
  {
    QueryTokensOfWords(q1, lead1, ws1, seps1, trail1);
    QueryTokensOfWords(q2, lead2, ws2, seps2, trail2);
    LowerAllSameElements(ws1, ws2);
    SameTokensSameAnswer(n, q1, q2);
  }

  /** The answer depends only on the set of query tokens. */
  lemma SameTokensSameAnswer(n: Niche, q1: string, q2: string)
    requires forall t :: t in QueryTokens(q1) <==> t in QueryTokens(q2)
    ensures MatchesQuery(n, q1) == MatchesQuery(n, q2)
  {
    SameNeedlesSameAnswer(Haystack(n), QueryTokens(q1), QueryTokens(q2));
    ShortCircuitAgrees(n, q1);
    ShortCircuitAgrees(n, q2);
  }

  /** The early `return true` for an empty query agrees with the token test: the empty
      query's one token "" is in every haystack. */
  lemma ShortCircuitAgrees(n: Niche, query: string)
    ensures MatchesQuery(n, query) ==
      forall k | 0 <= k < |QueryTokens(query)| :: Contains(Haystack(n), QueryTokens(query)[k])
  {
    if query == [] {
      EmptyQueryTokens();
      assert Contains(Haystack(n), []);
    }
  }

  /** The empty query has the single token "", which every haystack contains. */
  lemma EmptyQueryTokens()
    ensures QueryTokens([]) == [[]]
  {
    assert Trim([]) == [];
    assert ToLower([]) == [];
    assert FirstWhitespace([]) == 0;
  }

  /** Only name, description, buyer intent, demand signals, keywords and marketing
      angles take part: niches that agree on those six fields match the same queries. */
  lemma OnlySearchFieldsMatter(n: Niche, m: Niche, query: string)
    requires n.name == m.name && n.description == m.description && n.buyerIntent == m.buyerIntent
    requires n.demandSignals == m.demandSignals && n.keywords == m.keywords
    requires n.marketingAngles == m.marketingAngles
    ensures MatchesQuery(n, query) == MatchesQuery(m, query)
  {
    assert SearchFields(n) == SearchFields(m);
  }

  /** A single word taken from a niche's name always finds that niche. */
  lemma NameWordMatches(n: Niche, word: string)
    requires IsWord(word) && Contains(n.name, word)
    ensures MatchesQuery(n, word)
  {
    WordTokens(word);
    NameInHaystack(n, word);
  }

  /** A single word is a query of one token, its lower-cased form. */
  lemma WordTokens(word: string)
    requires IsWord(word)
    ensures word != [] && QueryTokens(word) == [ToLower(word)]
  {
    assert Interleave([word], []) == word;
    assert Spells(word, [], [word], [], []);
    QueryTokensOfWords(word, [], [word], [], []);
  }

  /** Whatever occurs in the name occurs, lower-cased, in the haystack. */
  lemma NameInHaystack(n: Niche, word: string)
    requires Contains(n.name, word)
    ensures Contains(Haystack(n), ToLower(word))
  {
    var fields := SearchFields(n);
    assert fields[0] == n.name;
    JoinPrefix(fields, " ");
    ContainsLowerInExtension(n.name, word, JoinWith(fields, " "));
  }

  // ---------------------------------------------------------------------------
  // The filter chain

  predicate PassesPlatform(n: Niche, choice: PlatformChoice)
  {
    match choice
    case AllPlatforms => true
    case OnPlatform(p) => p in n.platforms
  }

  predicate PassesBand(n: Niche, choice: BandChoice)
  {
    match choice
    case AllBands => true
    case InBand(b) => n.priceBand == b
  }

  /** The conjunction of the four stages of the filter chain. */
  predicate Qualifies(n: Niche, f: FilterState)
  {
    && n.conversionRate >= f.minConversion
    && PassesPlatform(n, f.platform)
    && PassesBand(n, f.priceBand)
    && MatchesQuery(n, f.query)
  }

  function AboveFloor(f: FilterState): Niche -> bool { (n: Niche) => n.conversionRate >= f.minConversion }
  function OnChosenPlatform(f: FilterState): Niche -> bool { (n: Niche) => PassesPlatform(n, f.platform) }
  function InChosenBand(f: FilterState): Niche -> bool { (n: Niche) => PassesBand(n, f.priceBand) }
  function MatchingQuery(f: FilterState): Niche -> bool { (n: Niche) => MatchesQuery(n, f.query) }
  function QualifiesUnder(f: FilterState): Niche -> bool { (n: Niche) => Qualifies(n, f) }

  /** The four `.filter` calls, in the order the component applies them. */
  function FilterChain(catalog: seq<Niche>, f: FilterState): seq<Niche>
  {
    Filter(Filter(Filter(Filter(catalog, AboveFloor(f)), OnChosenPlatform(f)), InChosenBand(f)), MatchingQuery(f))
  }

  /** The chain keeps exactly the qualifying niches, in catalog order. */
  lemma FilterChainQualifying(catalog: seq<Niche>, f: FilterState)
    ensures FilterChain(catalog, f) == Filter(catalog, QualifiesUnder(f))
  {
    var p1 := AboveFloor(f);
    var p2 := (n: Niche) => n.conversionRate >= f.minConversion && PassesPlatform(n, f.platform);
    var p3 := (n: Niche) => p2(n) && PassesBand(n, f.priceBand);
    FilterFusion(catalog, p1, OnChosenPlatform(f), p2);
    FilterFusion(catalog, p2, InChosenBand(f), p3);
    FilterFusion(catalog, p3, MatchingQuery(f), QualifiesUnder(f));
  }

  /** Pointwise form: a niche survives the chain iff it is in the catalog and passes
      the inclusive conversion floor, the platform, the price band and the query. */
  lemma FilterChainMembership(catalog: seq<Niche>, f: FilterState, n: Niche)
    ensures n in FilterChain(catalog, f) <==> n in catalog && Qualifies(n, f)
  {
    FilterChainQualifying(catalog, f);
    FilterMembership(catalog, QualifiesUnder(f), n);
  }

  /** With the platform selector on "all" the platform stage keeps everything. */
  lemma {:induction false} AllPlatformsKeepsEverything(ns: seq<Niche>, f: FilterState)
    requires f.platform == AllPlatforms
    ensures Filter(ns, OnChosenPlatform(f)) == ns
  {
    if ns != [] {
      AllPlatformsKeepsEverything(ns[1..], f);
      assert ns == [ns[0]] + ns[1..];
    }
  }

  // ---------------------------------------------------------------------------
  // Scoring and ordering

  /** `{ ...niche, roi }`: the record with its score attached. */
  datatype ScoredNiche = ScoredNiche(niche: Niche, roi: real)

  /** `.map((niche) => ({ ...niche, roi: scoreNiche(niche) }))`. */
  function WithRoi(ns: seq<Niche>, score: Niche -> real): (r: seq<ScoredNiche>)
    ensures |r| == |ns|
  {
    seq(|ns|, k requires 0 <= k < |ns| => ScoredNiche(ns[k], score(ns[k])))
  }

  function RoiKey(s: ScoredNiche): real { s.roi }
  function ConversionKey(s: ScoredNiche): real { s.niche.conversionRate }
  function TrendKey(s: ScoredNiche): real { s.niche.trendingScore }

  /** The comparator's key: conversion rate, trending score, or (by default) the score. */
  function SortKey(sort: SortBy): ScoredNiche -> real
  {
    match sort
    case ByConversion => ConversionKey
    case ByTrending => TrendKey
    case ByRoi => RoiKey
  }

  /** The scored, qualifying niches in catalog order: what the sort receives. */
  function Candidates(catalog: seq<Niche>, f: FilterState, score: Niche -> real): seq<ScoredNiche>
  {
    WithRoi(FilterChain(catalog, f), score)
  }

  /** `filtered`: the whole chain. */
  function Results(catalog: seq<Niche>, f: FilterState, score: Niche -> real): seq<ScoredNiche>
  {
    SortDescBy(Candidates(catalog, f, score), SortKey(f.sort))
  }

  /** `filtered[0]`, absent (undefined) when nothing qualifies. */
  function HeroPick(results: seq<ScoredNiche>): (r: Option<ScoredNiche>)
    ensures r.None? <==> results == []
    ensures r.Some? ==> r.value in results
  {
    if results == [] then None else Some(results[0])
  }

  /** The results are a permutation of the qualifying catalog subsequence, each niche
      carrying all its fields and its own score. */
  lemma ResultsPermutation(catalog: seq<Niche>, f: FilterState, score: Niche -> real)
    ensures multiset(Results(catalog, f, score)) == multiset(WithRoi(Filter(catalog, QualifiesUnder(f)), score))
  {
    SortDescByPermutes(Candidates(catalog, f, score), SortKey(f.sort));
    FilterChainQualifying(catalog, f);
  }

  lemma ResultsMembership(catalog: seq<Niche>, f: FilterState, score: Niche -> real, x: ScoredNiche)
    ensures x in Results(catalog, f, score) <==>
      x.niche in catalog && Qualifies(x.niche, f) && x.roi == score(x.niche)
  {
    var c := Candidates(catalog, f, score);
    SortDescByPermutes(c, SortKey(f.sort));
    assert x in Results(catalog, f, score) <==> x in multiset(c);
    FilterChainMembership(catalog, f, x.niche);
    WithRoiMembership(FilterChain(catalog, f), score, x);
  }

  lemma WithRoiMembership(ns: seq<Niche>, score: Niche -> real, x: ScoredNiche)
    ensures x in WithRoi(ns, score) <==> x.niche in ns && x.roi == score(x.niche)
  {
    var c := WithRoi(ns, score);
    if x in c {
      var k :| 0 <= k < |c| && c[k] == x;
      assert ns[k] == x.niche;
    }
    if x.niche in ns && x.roi == score(x.niche) {
      var k :| 0 <= k < |ns| && ns[k] == x.niche;
      assert c[k] == x;
    }
  }

  /** The results are non-increasing in the selected key ... */
  lemma ResultsSorted(catalog: seq<Niche>, f: FilterState, score: Niche -> real)
    ensures SortedDesc(Results(catalog, f, score), SortKey(f.sort))
  {
    SortDescBySorted(Candidates(catalog, f, score), SortKey(f.sort));
  }

  /** ... and niches with equal keys keep their catalog order (the sort is stable). */
  lemma ResultsStable(catalog: seq<Niche>, f: FilterState, score: Niche -> real, v: real)
    ensures Ties(Results(catalog, f, score), SortKey(f.sort), v) == Ties(Candidates(catalog, f, score), SortKey(f.sort), v)
  {
    SortDescByStable(Candidates(catalog, f, score), SortKey(f.sort), v);
  }

  /** The hero pick is missing exactly when no niche qualifies (the empty state);
      otherwise it is the earliest qualifying niche, in catalog order, of maximal key. */
  lemma HeroPickSpec(catalog: seq<Niche>, f: FilterState, score: Niche -> real)
    ensures HeroPick(Results(catalog, f, score)).None? <==> forall n | n in catalog :: !Qualifies(n, f)
    ensures HeroPick(Results(catalog, f, score)).Some? ==>
      var c := Candidates(catalog, f, score);
      c != [] && HeroPick(Results(catalog, f, score)).value == c[FirstMaxIndex(c, SortKey(f.sort))]
  {
    var c := Candidates(catalog, f, score);
    var fc := FilterChain(catalog, f);
    if c != [] {
      SortDescByHead(c, SortKey(f.sort));
      FilterChainMembership(catalog, f, fc[0]);
    } else {
      forall n | n in catalog
        ensures !Qualifies(n, f)
      {
        FilterChainMembership(catalog, f, n);
      }
    }
  }

  /** A query with a token that no niche's text contains empties the result list. */
  lemma AbsentTokenEmptiesResults(catalog: seq<Niche>, f: FilterState, score: Niche -> real, t: string)
    requires f.query != [] && t in QueryTokens(f.query)
    requires forall n | n in catalog :: !Contains(Haystack(n), t)
    ensures Results(catalog, f, score) == []
  {
    var fc := FilterChain(catalog, f);
    if fc != [] {
      FilterChainMembership(catalog, f, fc[0]);
      assert false;
    }
  }

  /** With the default criteria every niche at or above a 3.5 conversion rate is listed. */
  lemma DefaultFiltersKeepFloor(catalog: seq<Niche>, score: Niche -> real, x: ScoredNiche)
    ensures x in Results(catalog, DefaultFilters, score) <==>
      x.niche in catalog && x.niche.conversionRate >= 3.5 && x.roi == score(x.niche)
  {
    ResultsMembership(catalog, DefaultFilters, score, x);
  }
}
