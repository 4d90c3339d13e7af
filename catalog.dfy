/** The read-only catalog of niche records that all three panels work on. The records
    themselves are supplied from outside; only their shape is modelled. */
module Catalog {

  /** A distribution-channel tag (the dataset's enumeration is not part of this model). */
  type Platform = string

  datatype PriceBand = Budget | Core | Premium

  /** One market opportunity. Numbers are exact reals standing in for JavaScript numbers. */
  datatype Niche = Niche(
    id: string,
    name: string,
    description: string,
    conversionRate: real,
    avgOrderValue: real,
    trendingScore: real,
    searchVolume: real,
    priceBand: PriceBand,
    platforms: seq<Platform>,
    demandSignals: seq<string>,
    keywords: seq<string>,
    marketingAngles: seq<string>,
    contentIdeas: seq<string>,
    buyerIntent: string,
    designNotes: string)

  // Field readers, usable as sort keys and summands.
  function ConversionRate(n: Niche): real { n.conversionRate }
  function AvgOrderValue(n: Niche): real { n.avgOrderValue }
  function TrendingScore(n: Niche): real { n.trendingScore }
  function SearchVolume(n: Niche): real { n.searchVolume }

  /** `avgOrderValue * conversionRate`, the key of the "best value" pick. */
  function RevenueDensity(n: Niche): real { n.avgOrderValue * n.conversionRate }

  /** `niches.flatMap((item) => item.platforms)`. */
  function FlatPlatforms(ns: seq<Niche>): seq<Platform>
  {
    if ns == [] then [] else FlatPlatforms(ns[..|ns| - 1]) + ns[|ns| - 1].platforms
  }

  lemma FlatPlatformsAppend(ns: seq<Niche>, n: Niche)
    ensures FlatPlatforms(ns + [n]) == FlatPlatforms(ns) + n.platforms
  {
    assert (ns + [n])[..|ns|] == ns;
  }

  /** A platform is listed somewhere in the catalog exactly when some niche lists it. */
  lemma {:induction false} FlatPlatformsMembership(ns: seq<Niche>, p: Platform)
    ensures p in FlatPlatforms(ns) <==> exists i | 0 <= i < |ns| :: p in ns[i].platforms
  {
    if ns != [] {
      var init := ns[..|ns| - 1];
      FlatPlatformsMembership(init, p);
      if p in FlatPlatforms(init) {
        var i :| 0 <= i < |init| && p in init[i].platforms;
        assert ns[i] == init[i];
      }
      if exists i | 0 <= i < |ns| :: p in ns[i].platforms {
        var i :| 0 <= i < |ns| && p in ns[i].platforms;
        if i < |init| {
          assert init[i] == ns[i];
        }
      }
    }
  }
}
