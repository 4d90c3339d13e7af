/** The "Marketplace Conversion Pulse" panel: `aggregateByPlatform` folds the catalog
    into per-platform running totals kept in a mutable Map, turns them into means,
    and sorts the platforms by split-attributed search volume; the panel then
    derives each platform's share, progress width and refresh cadence. */
module PlatformInsights {
  import opened Seqs
  import opened Sorting
  import opened Catalog

  /** The running totals of one Map entry. */
  datatype Totals = Totals(count: nat, conversion: real, trend: real, volume: real)

  /** `searchVolume / platforms.length`: the volume a niche attributes to each platform
      it lists (only ever computed for a niche that lists at least one). */
  function SplitVolume(n: Niche): real
  {
    if |n.platforms| == 0 then 0.0 else n.searchVolume / (|n.platforms| as real)
  }

  /** The volume a niche contributes overall: all of it when it lists a platform,
      nothing when its platform list is empty. */
  function AttributedVolume(n: Niche): real
  {
    if |n.platforms| == 0 then 0.0 else n.searchVolume
  }

  /** `n` once for each occurrence of `p` in `ps`. */
  function Listings(n: Niche, ps: seq<Platform>, p: Platform): seq<Niche>
  {
    if ps == [] then []
    else Listings(n, ps[..|ps| - 1], p) + (if ps[|ps| - 1] == p then [n] else [])
  }

  /** The niches that platform `p`'s entry accumulates, in visiting order: each niche
      once per listing of `p`. */
  function Members(ns: seq<Niche>, p: Platform): seq<Niche>
  {
    if ns == [] then []
    else Members(ns[..|ns| - 1], p) + Listings(ns[|ns| - 1], ns[|ns| - 1].platforms, p)
  }

  /** The totals an entry holds once the members `ms` have been added to it. */
  function TotalsOf(ms: seq<Niche>): Totals
  {
    Totals(|ms|, SumOf(ms, ConversionRate), SumOf(ms, TrendingScore), SumOf(ms, SplitVolume))
  }

  /** One row of the result. */
  datatype PlatformMetric = PlatformMetric(platform: Platform, avgConversion: real, avgTrend: real, weightedVolume: real)

  function WeightedVolume(m: PlatformMetric): real { m.weightedVolume }

  /** The finishing `map`: sums divided into means. */
  function Metric(p: Platform, t: Totals): PlatformMetric
    requires t.count >= 1
  {
    PlatformMetric(p, t.conversion / (t.count as real), t.trend / (t.count as real), t.volume)
  }

  /** The row of platform `p`, computed directly from the catalog. */
  function Row(ns: seq<Niche>, p: Platform): PlatformMetric
    requires p in FlatPlatforms(ns)
  {
    MembersNonEmpty(ns, p);
    Metric(p, TotalsOf(Members(ns, p)))
  }

  /** The rows in the Map's iteration order: platforms in order of first insertion. */
  function PlatformRows(ns: seq<Niche>): (r: seq<PlatformMetric>)
    ensures |r| == |Dedup(FlatPlatforms(ns))|
  {
    var u := Dedup(FlatPlatforms(ns));
    DedupElements(FlatPlatforms(ns));
    seq(|u|, k requires 0 <= k < |u| => Row(ns, u[k]))
  }

  /** `Array.from(accumulator.entries()).map(...)` over the accumulated Map. */
  function Entries(keys: seq<Platform>, acc: map<Platform, Totals>): (r: seq<PlatformMetric>)
    requires forall p | p in keys :: p in acc && acc[p].count >= 1
    ensures |r| == |keys|
  {
    seq(|keys|, k requires 0 <= k < |keys| => Metric(keys[k], acc[keys[k]]))
  }

  /** Sum of the accumulated volumes of `keys`. */
  ghost function VolumeOver(keys: seq<Platform>, acc: map<Platform, Totals>): real
  {
    if keys == [] then 0.0
    else VolumeOver(keys[..|keys| - 1], acc) + (if keys[|keys| - 1] in acc then acc[keys[|keys| - 1]].volume else 0.0)
  }

  /** The Map's keys are exactly `keys`. */
  ghost predicate KeysMatch(keys: seq<Platform>, acc: map<Platform, Totals>)
  {
    acc.Keys == set p | p in keys
  }

  /** Every entry holds the totals of the niches visited so far: all of `done`, then
      the first `j` listings of `niche`. */
  ghost predicate EntriesMatch(done: seq<Niche>, niche: Niche, j: nat, acc: map<Platform, Totals>)
    requires j <= |niche.platforms|
  {
    forall p {:trigger Members(done, p)} | p in acc :: acc[p] == TotalsOf(Members(done, p) + Listings(niche, niche.platforms[..j], p))
  }

  /** The state of the fold after all of `done` and the first `j` platforms of `niche`. */
  ghost predicate Visited(done: seq<Niche>, niche: Niche, j: nat, keys: seq<Platform>, acc: map<Platform, Totals>)
  {
    && j <= |niche.platforms|
    && keys == Dedup(FlatPlatforms(done) + niche.platforms[..j])
    && KeysMatch(keys, acc)
    && EntriesMatch(done, niche, j, acc)
    && VolumeOver(keys, acc) == SumOf(done, AttributedVolume) + Copies(j, SplitVolume(niche))
  }

  /** The state of the fold after the niches `done`. */
  ghost predicate Folded(done: seq<Niche>, keys: seq<Platform>, acc: map<Platform, Totals>)
  {
    && keys == Dedup(FlatPlatforms(done))
    && KeysMatch(keys, acc)
    && (forall p {:trigger Members(done, p)} | p in acc :: acc[p] == TotalsOf(Members(done, p)))
    && VolumeOver(keys, acc) == SumOf(done, AttributedVolume)
  }

  /** An entry after `entry.count += 1`, `entry.conversion += conversionRate`,
      `entry.trend += trendingScore` and `entry.volume += searchVolume / platforms.length`. */
  function AddListing(t: Totals, n: Niche): Totals
  {
    Totals(t.count + 1, t.conversion + n.conversionRate, t.trend + n.trendingScore, t.volume + SplitVolume(n))
  }

  /** The accumulator Map as a value: its entries, and its keys in insertion order. */
  datatype Tally = Tally(keys: seq<Platform>, entries: map<Platform, Totals>)

  const EmptyTally := Tally([], map[])

  /** One get-or-create-and-add step: a new key goes to the end of the insertion order. */
  function AddTo(t: Tally, n: Niche, p: Platform): Tally
  {
    var before := if p in t.entries then t.entries[p] else Totals(0, 0.0, 0.0, 0.0);
    Tally(if p in t.entries then t.keys else t.keys + [p], t.entries[p := AddListing(before, n)])
  }

  /** The inner `forEach`: niche `n` added for each platform of `ps` in turn. */
  function Walk(t: Tally, n: Niche, ps: seq<Platform>): Tally
  {
    if ps == [] then t else AddTo(Walk(t, n, ps[..|ps| - 1]), n, ps[|ps| - 1])
  }

  /** The outer `forEach`: the accumulator after visiting the niches `ns` in order. */
  function Fold(ns: seq<Niche>): Tally
  {
    if ns == [] then EmptyTally
    else Walk(Fold(ns[..|ns| - 1]), ns[|ns| - 1], ns[|ns| - 1].platforms)
  }

  /** The body of the inner `forEach`: get or create the platform's entry, bump its
      count and add the niche's figures to it, and store it back. */
  method AddToEntry(keys: seq<Platform>, acc: map<Platform, Totals>, niche: Niche, platform: Platform)
    returns (keys': seq<Platform>, acc': map<Platform, Totals>)
    requires |niche.platforms| > 0
    ensures Tally(keys', acc') == AddTo(Tally(keys, acc), niche, platform)
  {
    var current := if platform in acc then acc[platform] else Totals(0, 0.0, 0.0, 0.0);
    current := current.(count := current.count + 1);
    current := current.(conversion := current.conversion + niche.conversionRate);
    current := current.(trend := current.trend + niche.trendingScore);
    current := current.(volume := current.volume + niche.searchVolume / (|niche.platforms| as real));
    keys' := keys;
    if platform !in acc {
      keys' := keys' + [platform];
    }
    acc' := acc[platform := current];
  }

  /** The fold of `aggregateByPlatform`: nested loops over the niches and their
      platforms, computing the accumulator that `Fold` specifies. */
  method Accumulate(niches: seq<Niche>) returns (keys: seq<Platform>, acc: map<Platform, Totals>)
    ensures Tally(keys, acc) == Fold(niches)
  {
    keys, acc := [], map[];
    var i := 0;
    while i < |niches|
      invariant 0 <= i <= |niches|
      invariant Tally(keys, acc) == Fold(niches[..i])
    {
      var niche := niches[i];
      var j := 0;
      while j < |niche.platforms|
        invariant 0 <= j <= |niche.platforms|
        invariant Tally(keys, acc) == Walk(Fold(niches[..i]), niche, niche.platforms[..j])
      {
        assert niche.platforms[..j + 1][..j] == niche.platforms[..j];
        keys, acc := AddToEntry(keys, acc, niche, niche.platforms[j]);
        j := j + 1;
      }
      assert niche.platforms[..j] == niche.platforms;
      TakeNext(niches, i);
      assert niches[..i + 1][..i] == niches[..i];
      i := i + 1;
    }
    assert niches[..i] == niches;
  }

  /** The accumulator holds, for each platform listed somewhere in the catalog and in
      order of first listing, the totals of exactly the niches that list it; the split
      volumes add up to the volume of the niches that list at least one platform. */
  lemma FoldCorrect(ns: seq<Niche>)
    ensures Fold(ns).keys == Dedup(FlatPlatforms(ns))
    ensures forall p :: p in Fold(ns).entries <==> p in Fold(ns).keys
    ensures forall p | p in Fold(ns).entries :: Fold(ns).entries[p] == TotalsOf(Members(ns, p))
    ensures VolumeOver(Fold(ns).keys, Fold(ns).entries) == SumOf(ns, AttributedVolume)
  {
    FoldFolded(ns);
  }

  lemma {:induction false} FoldFolded(ns: seq<Niche>)
    ensures Folded(ns, Fold(ns).keys, Fold(ns).entries)
  {
    if ns != [] {
      var init, last := ns[..|ns| - 1], ns[|ns| - 1];
      FoldFolded(init);
      WalkFolds(init, last, ns, Fold(init), Fold(ns));
    }
  }

  /** Walking one niche's platforms over a tally of `done` gives the tally of `done + [niche]`. */
  lemma WalkFolds(done: seq<Niche>, niche: Niche, ns: seq<Niche>, t: Tally, t': Tally)
    requires ns == done + [niche]
    requires Folded(done, t.keys, t.entries)
    requires t' == Walk(t, niche, niche.platforms)
    ensures Folded(ns, t'.keys, t'.entries)
  {
    var ps := niche.platforms;
    VisitStart(done, niche, t.keys, t.entries);
    WalkVisits(done, niche, t, |ps|);
    assert ps[..|ps|] == ps;
    VisitDone(done, niche, t'.keys, t'.entries);
  }

  lemma {:induction false} WalkVisits(done: seq<Niche>, niche: Niche, t: Tally, j: nat)
    requires j <= |niche.platforms|
    requires Visited(done, niche, 0, t.keys, t.entries)
    ensures var t' := Walk(t, niche, niche.platforms[..j]);
      Visited(done, niche, j, t'.keys, t'.entries)
  {
    var ps := niche.platforms;
    if j == 0 {
      assert ps[..0] == [];
    } else {
      WalkVisits(done, niche, t, j - 1);
      WalkVisitStep(done, niche, t, j - 1);
    }
  }

  lemma WalkVisitStep(done: seq<Niche>, niche: Niche, t: Tally, j: nat)
    requires j < |niche.platforms|
    requires var prev := Walk(t, niche, niche.platforms[..j]);
      Visited(done, niche, j, prev.keys, prev.entries)
    ensures var next := Walk(t, niche, niche.platforms[..j + 1]);
      Visited(done, niche, j + 1, next.keys, next.entries)
  {
    WalkPrefix(t, niche, niche.platforms, j);
    VisitStep(done, niche, j, Walk(t, niche, niche.platforms[..j]));
  }

  lemma WalkPrefix(t: Tally, n: Niche, ps: seq<Platform>, j: nat)
    requires j < |ps|
    ensures Walk(t, n, ps[..j + 1]) == AddTo(Walk(t, n, ps[..j]), n, ps[j])
  {
    assert ps[..j + 1][..j] == ps[..j];
  }

  lemma VisitStart(done: seq<Niche>, niche: Niche, keys: seq<Platform>, acc: map<Platform, Totals>)
    requires Folded(done, keys, acc)
    ensures Visited(done, niche, 0, keys, acc)
  {
    assert niche.platforms[..0] == [];
    assert FlatPlatforms(done) + [] == FlatPlatforms(done);
    forall p | p in acc
      ensures acc[p] == TotalsOf(Members(done, p) + Listings(niche, niche.platforms[..0], p))
    {
      assert Members(done, p) + [] == Members(done, p);
    }
  }

  /** One get-or-create-and-add step keeps every part of the inner loop's invariant. */
  lemma VisitStep(done: seq<Niche>, niche: Niche, j: nat, t: Tally)
    requires Visited(done, niche, j, t.keys, t.entries) && j < |niche.platforms|
    ensures var t' := AddTo(t, niche, niche.platforms[j]);
      Visited(done, niche, j + 1, t'.keys, t'.entries)
  {
    var platform := niche.platforms[j];
    var before := if platform in t.entries then t.entries[platform] else Totals(0, 0.0, 0.0, 0.0);
    var current := AddListing(before, niche);
    StepKeys(done, niche, j, t.keys, t.entries, current);
    StepEntries(done, niche, j, t.keys, t.entries);
    StepVolume(done, niche, j, t.keys, t.entries);
  }

  lemma StepKeys(done: seq<Niche>, niche: Niche, j: nat, keys: seq<Platform>, acc: map<Platform, Totals>, t: Totals)
    requires Visited(done, niche, j, keys, acc) && j < |niche.platforms|
    ensures var platform := niche.platforms[j];
      var keys' := if platform in acc then keys else keys + [platform];
      keys' == Dedup(FlatPlatforms(done) + niche.platforms[..j + 1]) && KeysMatch(keys', acc[platform := t])
  {
    var ps := niche.platforms;
    assert FlatPlatforms(done) + ps[..j + 1] == (FlatPlatforms(done) + ps[..j]) + [ps[j]];
    KeysAdd(FlatPlatforms(done) + ps[..j], ps[j], keys, acc, t);
  }

  /** A new key goes to the end of the insertion order; a known key keeps its place. */
  lemma KeysAdd(seen: seq<Platform>, platform: Platform, keys: seq<Platform>, acc: map<Platform, Totals>, t: Totals)
    requires keys == Dedup(seen) && KeysMatch(keys, acc)
    ensures var keys' := if platform in acc then keys else keys + [platform];
      keys' == Dedup(seen + [platform]) && KeysMatch(keys', acc[platform := t])
  {
    DedupAppend(seen, platform);
    DedupElements(seen);
  }

  lemma StepEntries(done: seq<Niche>, niche: Niche, j: nat, keys: seq<Platform>, acc: map<Platform, Totals>)
    requires Visited(done, niche, j, keys, acc) && j < |niche.platforms|
    ensures var platform := niche.platforms[j];
      var before := if platform in acc then acc[platform] else Totals(0, 0.0, 0.0, 0.0);
      EntriesMatch(done, niche, j + 1, acc[platform := AddListing(before, niche)])
  {
    var ps := niche.platforms;
    assert ps[..j + 1] == ps[..j] + [ps[j]];
    if ps[j] !in acc {
      FreshPlatform(done, niche, ps[..j], ps[j], keys);
    }
    EntriesAdd(done, niche, ps[..j], ps[j], acc);
  }

  /** A platform without an entry has not been listed so far. */
  lemma FreshPlatform(done: seq<Niche>, niche: Niche, prior: seq<Platform>, platform: Platform, keys: seq<Platform>)
    requires keys == Dedup(FlatPlatforms(done) + prior) && platform !in keys
    ensures Members(done, platform) + Listings(niche, prior, platform) == []
  {
    DedupElements(FlatPlatforms(done) + prior);
    MembersAbsent(done, platform);
    ListingsAbsent(niche, prior, platform);
  }

  /** Adding `niche` to `platform`'s entry accounts for one more listing of it. */
  lemma EntriesAdd(done: seq<Niche>, niche: Niche, prior: seq<Platform>, platform: Platform, acc: map<Platform, Totals>)
    requires forall p {:trigger Members(done, p)} | p in acc :: acc[p] == TotalsOf(Members(done, p) + Listings(niche, prior, p))
    requires platform !in acc ==> Members(done, platform) + Listings(niche, prior, platform) == []
    ensures var before := if platform in acc then acc[platform] else Totals(0, 0.0, 0.0, 0.0);
      var acc' := acc[platform := AddListing(before, niche)];
      forall p {:trigger Members(done, p)} | p in acc' :: acc'[p] == TotalsOf(Members(done, p) + Listings(niche, prior + [platform], p))
  {
    var before := if platform in acc then acc[platform] else Totals(0, 0.0, 0.0, 0.0);
    var acc' := acc[platform := AddListing(before, niche)];
    forall p | p in acc'
      ensures acc'[p] == TotalsOf(Members(done, p) + Listings(niche, prior + [platform], p))
    {
      var t := if p in acc then acc[p] else before;
      if p !in acc {
        assert p == platform;
        assert TotalsOf([]) == before;
      }
      EntryAfter(done, niche, prior, platform, p, t);
    }
  }

  /** How one listing changes the totals of platform `p`'s entry. */
  lemma EntryAfter(done: seq<Niche>, niche: Niche, prior: seq<Platform>, platform: Platform, p: Platform, t: Totals)
    requires t == TotalsOf(Members(done, p) + Listings(niche, prior, p))
    ensures TotalsOf(Members(done, p) + Listings(niche, prior + [platform], p))
      == if p == platform then AddListing(t, niche) else t
  {
    ListingsAppendOne(niche, prior, platform, p);
    if p == platform {
      EntryAfterSame(Members(done, p), Listings(niche, prior, p), niche);
    }
  }

  /** The listing just added to a platform extends its members by that niche. */
  lemma EntryAfterSame(ms: seq<Niche>, ls: seq<Niche>, niche: Niche)
    ensures TotalsOf(ms + (ls + [niche])) == AddListing(TotalsOf(ms + ls), niche)
  {
    AppendOne(ms, ls, niche);
    TotalsAppend(ms + ls, niche);
  }

  lemma ListingsAppendOne(n: Niche, prior: seq<Platform>, q: Platform, p: Platform)
    ensures Listings(n, prior + [q], p) == if q == p then Listings(n, prior, p) + [n] else Listings(n, prior, p)
  {
    assert (prior + [q])[..|prior|] == prior;
    assert Listings(n, prior, p) + [] == Listings(n, prior, p);
  }

  lemma StepVolume(done: seq<Niche>, niche: Niche, j: nat, keys: seq<Platform>, acc: map<Platform, Totals>)
    requires Visited(done, niche, j, keys, acc) && j < |niche.platforms|
    ensures var platform := niche.platforms[j];
      var before := if platform in acc then acc[platform] else Totals(0, 0.0, 0.0, 0.0);
      var keys' := if platform in acc then keys else keys + [platform];
      VolumeOver(keys', acc[platform := AddListing(before, niche)])
        == SumOf(done, AttributedVolume) + Copies(j + 1, SplitVolume(niche))
  {
    VolumeAdd(FlatPlatforms(done) + niche.platforms[..j], keys, acc, niche.platforms[j], niche);
  }

  /** Adding `niche` to `platform`'s entry adds its split volume to the total. */
  lemma VolumeAdd(seen: seq<Platform>, keys: seq<Platform>, acc: map<Platform, Totals>, platform: Platform, niche: Niche)
    requires |niche.platforms| > 0
    requires keys == Dedup(seen) && KeysMatch(keys, acc)
    ensures var before := if platform in acc then acc[platform] else Totals(0, 0.0, 0.0, 0.0);
      var keys' := if platform in acc then keys else keys + [platform];
      VolumeOver(keys', acc[platform := AddListing(before, niche)]) == VolumeOver(keys, acc) + SplitVolume(niche)
  {
    var before := if platform in acc then acc[platform] else Totals(0, 0.0, 0.0, 0.0);
    var current := AddListing(before, niche);
    DedupElements(seen);
    if platform in acc {
      VolumeOverUpdate(keys, acc, platform, current);
    } else {
      VolumeOverAbsent(keys, acc, platform, current);
      assert (keys + [platform])[..|keys|] == keys;
    }
  }

  /** `k` copies of `v` added up. */
  function Copies(k: nat, v: real): real
  {
    if k == 0 then 0.0 else Copies(k - 1, v) + v
  }

  lemma {:induction false} CopiesMul(k: nat, v: real)
    ensures Copies(k, v) == (k as real) * v
  {
    if k > 0 {
      CopiesMul(k - 1, v);
    }
  }

  /** `platforms.length` shares of `searchVolume / platforms.length` add back up to the whole. */
  lemma SplitVolumesAddUp(n: Niche)
    ensures Copies(|n.platforms|, SplitVolume(n)) == AttributedVolume(n)
  {
    CopiesMul(|n.platforms|, SplitVolume(n));
    if |n.platforms| > 0 {
      var k := |n.platforms| as real;
      assert k * (n.searchVolume / k) == n.searchVolume;
    }
  }

  /** Finishing a niche's inner loop re-establishes the outer invariant for one more niche. */
  lemma VisitDone(done: seq<Niche>, niche: Niche, keys: seq<Platform>, acc: map<Platform, Totals>)
    requires Visited(done, niche, |niche.platforms|, keys, acc)
    ensures Folded(done + [niche], keys, acc)
  {
    var ps := niche.platforms;
    assert ps[..|ps|] == ps;
    FlatPlatformsAppend(done, niche);
    MembersAppend(done, niche);
    SumOfAppend(done, niche, AttributedVolume);
    SplitVolumesAddUp(niche);
  }

  lemma MembersAppend(done: seq<Niche>, niche: Niche)
    ensures forall p :: Members(done + [niche], p) == Members(done, p) + Listings(niche, niche.platforms, p)
  {
    assert (done + [niche])[..|done|] == done;
  }

  lemma TotalsAppend(ms: seq<Niche>, n: Niche)
    ensures TotalsOf(ms + [n]) == Totals(|ms| + 1, TotalsOf(ms).conversion + n.conversionRate,
                                         TotalsOf(ms).trend + n.trendingScore, TotalsOf(ms).volume + SplitVolume(n))
  {
    SumOfAppend(ms, n, ConversionRate);
    SumOfAppend(ms, n, TrendingScore);
    SumOfAppend(ms, n, SplitVolume);
  }

  lemma {:induction false} ListingsAbsent(n: Niche, ps: seq<Platform>, p: Platform)
    requires p !in ps
    ensures Listings(n, ps, p) == []
  {
    if ps != [] {
      ListingsAbsent(n, ps[..|ps| - 1], p);
    }
  }

  lemma {:induction false} MembersAbsent(ns: seq<Niche>, p: Platform)
    requires p !in FlatPlatforms(ns)
    ensures Members(ns, p) == []
  {
    if ns != [] {
      MembersAbsent(ns[..|ns| - 1], p);
      ListingsAbsent(ns[|ns| - 1], ns[|ns| - 1].platforms, p);
    }
  }

  lemma {:induction false} ListingsMembership(n: Niche, ps: seq<Platform>, p: Platform, x: Niche)
    ensures x in Listings(n, ps, p) <==> x == n && p in ps
  {
    if ps != [] {
      ListingsMembership(n, ps[..|ps| - 1], p, x);
      assert ps == ps[..|ps| - 1] + [ps[|ps| - 1]];
    }
  }

  /** A platform's entry holds exactly the niches of the catalog that list it. */
  lemma {:induction false} MembersMembership(ns: seq<Niche>, p: Platform, x: Niche)
    ensures x in Members(ns, p) <==> x in ns && p in x.platforms
  {
    if ns != [] {
      var init, last := ns[..|ns| - 1], ns[|ns| - 1];
      MembersMembership(init, p, x);
      ListingsMembership(last, last.platforms, p, x);
      assert ns == init + [last];
    }
  }

  /** Every platform listed somewhere has at least one member, so the finishing
      divisions by `count` are defined. */
  lemma MembersNonEmpty(ns: seq<Niche>, p: Platform)
    requires p in FlatPlatforms(ns)
    ensures |Members(ns, p)| >= 1
  {
    FlatPlatformsMembership(ns, p);
    var i :| 0 <= i < |ns| && p in ns[i].platforms;
    MembersMembership(ns, p, ns[i]);
  }

  lemma VolumeOverAbsent(keys: seq<Platform>, acc: map<Platform, Totals>, p: Platform, t: Totals)
    requires p !in keys
    ensures VolumeOver(keys, acc[p := t]) == VolumeOver(keys, acc)
  {
    if keys != [] {
      VolumeOverAbsent(keys[..|keys| - 1], acc, p, t);
    }
  }

  lemma {:induction false} VolumeOverUpdate(keys: seq<Platform>, acc: map<Platform, Totals>, p: Platform, t: Totals)
    requires p in keys && p in acc && Distinct(keys)
    ensures VolumeOver(keys, acc[p := t]) == VolumeOver(keys, acc) - acc[p].volume + t.volume
  {
    var init, last := keys[..|keys| - 1], keys[|keys| - 1];
    if last == p {
      assert p !in init;
      VolumeOverAbsent(init, acc, p, t);
    } else {
      assert p in init;
      VolumeOverUpdate(init, acc, p, t);
    }
  }

  lemma {:induction false} EntriesVolume(keys: seq<Platform>, acc: map<Platform, Totals>)
    requires forall p | p in keys :: p in acc && acc[p].count >= 1
    ensures SumOf(Entries(keys, acc), WeightedVolume) == VolumeOver(keys, acc)
  {
    if keys != [] {
      var init := keys[..|keys| - 1];
      EntriesVolume(init, acc);
      assert Entries(keys, acc)[..|keys| - 1] == Entries(init, acc);
    }
  }

  /** The rows read off the folded Map are the per-platform rows, and their
      volumes add up to the attributed volume of all niches. */
  lemma FoldRows(niches: seq<Niche>, keys: seq<Platform>, acc: map<Platform, Totals>)
    requires Tally(keys, acc) == Fold(niches)
    ensures forall p | p in keys :: p in acc && acc[p].count >= 1
    ensures Entries(keys, acc) == PlatformRows(niches)
    ensures SumOf(Entries(keys, acc), WeightedVolume) == SumOf(niches, AttributedVolume)
  {
    FoldCorrect(niches);
    DedupElements(FlatPlatforms(niches));
    forall p | p in keys
      ensures p in acc && acc[p].count >= 1
    {
      MembersNonEmpty(niches, p);
    }
    assert Entries(keys, acc) == PlatformRows(niches);
    EntriesVolume(keys, acc);
  }

  /** What `aggregateByPlatform` returns, stated without the Map. */
  function Aggregated(ns: seq<Niche>): seq<PlatformMetric>
  {
    SortDescBy(PlatformRows(ns), WeightedVolume)
  }

  /** `aggregateByPlatform`. One row per distinct platform, non-increasing in
      attributed volume with ties in first-insertion order, each row's means taken
      over that platform's members, and the attributed volumes adding up to the
      volume of the niches that list at least one platform. */
  method AggregateByPlatform(niches: seq<Niche>) returns (metrics: seq<PlatformMetric>)
    ensures metrics == Aggregated(niches)
    ensures SortedDesc(metrics, WeightedVolume)
    ensures forall v :: Ties(metrics, WeightedVolume, v) == Ties(PlatformRows(niches), WeightedVolume, v)
    ensures SumOf(metrics, WeightedVolume) == SumOf(niches, AttributedVolume)
  {
    var keys, acc := Accumulate(niches);
    FoldRows(niches, keys, acc);
    var rows := Entries(keys, acc);
    metrics := SortDescBy(rows, WeightedVolume);
    SortDescBySorted(rows, WeightedVolume);
    SortDescByPreservesSum(rows, WeightedVolume, WeightedVolume);
    forall v ensures Ties(metrics, WeightedVolume, v) == Ties(rows, WeightedVolume, v) {
      SortDescByStable(rows, WeightedVolume, v);
    }
  }

  /** Each row's means lie between any bounds on the conversion rates and trending
      scores of the niches that list its platform; in particular between their
      minimum and maximum. */
  lemma RowMeansBetween(ns: seq<Niche>, p: Platform, cLo: real, cHi: real, tLo: real, tHi: real)
    requires p in FlatPlatforms(ns)
    requires forall i | 0 <= i < |ns| && p in ns[i].platforms ::
      cLo <= ns[i].conversionRate <= cHi && tLo <= ns[i].trendingScore <= tHi
    ensures cLo <= Row(ns, p).avgConversion <= cHi
    ensures tLo <= Row(ns, p).avgTrend <= tHi
  {
    var ms := Members(ns, p);
    MembersNonEmpty(ns, p);
    forall k | 0 <= k < |ms|
      ensures cLo <= ms[k].conversionRate <= cHi && tLo <= ms[k].trendingScore <= tHi
    {
      MemberListed(ns, p, ms[k]);
    }
    MeanBetween(ms, ConversionRate, cLo, cHi);
    MeanBetween(ms, TrendingScore, tLo, tHi);
  }

  /** A member of a platform's entry is a catalog niche that lists the platform. */
  lemma MemberListed(ns: seq<Niche>, p: Platform, x: Niche)
    requires x in Members(ns, p)
    ensures exists i | 0 <= i < |ns| :: ns[i] == x && p in ns[i].platforms
  {
    MembersMembership(ns, p, x);
    var i :| 0 <= i < |ns| && ns[i] == x;
  }

  /** With no negative search volume, no platform is attributed a negative volume. */
  lemma RowVolumeNonNegative(ns: seq<Niche>, p: Platform)
    requires p in FlatPlatforms(ns)
    requires forall i | 0 <= i < |ns| :: 0.0 <= ns[i].searchVolume
    ensures 0.0 <= Row(ns, p).weightedVolume
  {
    var ms := Members(ns, p);
    forall k | 0 <= k < |ms|
      ensures 0.0 <= SplitVolume(ms[k])
    {
      MemberListed(ns, p, ms[k]);
      var i :| 0 <= i < |ns| && ns[i] == ms[k] && p in ns[i].platforms;
      SplitVolumeNonNegative(ns[i]);
    }
    SumOfNonNegative(ms, SplitVolume);
    MembersNonEmpty(ns, p);
    assert Row(ns, p).weightedVolume == SumOf(ms, SplitVolume);
  }

  lemma SplitVolumeNonNegative(n: Niche)
    requires 0.0 <= n.searchVolume
    ensures 0.0 <= SplitVolume(n)
  {
  }

  // ----- The platform cards -----

  /** `platformMetrics.reduce((acc, item) => acc + item.weightedVolume, 0)`. */
  function TotalVolume(metrics: seq<PlatformMetric>): real
  {
    SumOf(metrics, WeightedVolume)
  }

  /** The panel's total is the volume of the niches that list at least one platform. */
  lemma TotalVolumeAttributed(ns: seq<Niche>)
    ensures TotalVolume(Aggregated(ns)) == SumOf(ns, AttributedVolume)
  {
    FoldRows(ns, Fold(ns).keys, Fold(ns).entries);
    SortDescByPreservesSum(PlatformRows(ns), WeightedVolume, WeightedVolume);
  }

  /** `(platform.weightedVolume / totalVolume) * 100` as written: with a zero total the
      quotient is not a finite number (`0 / 0` is NaN, any other volume gives an
      infinity), shown here as `None`. */
  function RawShare(volume: real, total: real): (r: Option<real>)
    ensures r.None? <==> total == 0.0
    ensures r.Some? ==> r.value * total == volume * 100.0
  {
    if total == 0.0 then None else Some(volume / total * 100.0)
  }

  /** The share with the zero total guarded: no volume at all means a share of 0. */
  function Share(volume: real, total: real): (r: real)
    ensures total != 0.0 ==> RawShare(volume, total) == Some(r)
    ensures total == 0.0 ==> r == 0.0
  {
    if total == 0.0 then 0.0 else volume / total * 100.0
  }

  function ShareOf(total: real): PlatformMetric -> real
  {
    (m: PlatformMetric) => Share(m.weightedVolume, total)
  }

  /** Whenever there is any volume, the shares of all cards add up to 100: each card
      shows the guarded share of its row, and those add up to 100. */
  lemma SharesSumTo100(metrics: seq<PlatformMetric>)
    requires TotalVolume(metrics) != 0.0
    ensures forall k | 0 <= k < |metrics| ::
      Cards(metrics)[k].share == Some(ShareOf(TotalVolume(metrics))(metrics[k]))
    ensures SumOf(metrics, ShareOf(TotalVolume(metrics))) == 100.0
  {
    CardSharesGuarded(metrics);
    GuardedSharesSum(metrics);
  }

  lemma GuardedSharesSum(metrics: seq<PlatformMetric>)
    requires TotalVolume(metrics) != 0.0
    ensures SumOf(metrics, ShareOf(TotalVolume(metrics))) == 100.0
  {
    var total := TotalVolume(metrics);
    var c := 100.0 / total;
    forall i | 0 <= i < |metrics|
      ensures ShareOf(total)(metrics[i]) == c * WeightedVolume(metrics[i])
    {
      ScaledShare(metrics[i].weightedVolume, total);
    }
    SumOfScale(metrics, WeightedVolume, ShareOf(total), c);
    assert c * total == 100.0;
  }

  lemma ScaledShare(v: real, total: real)
    requires total != 0.0
    ensures Share(v, total) == (100.0 / total) * v
  {
  }

  /** With no negative volume every share is between 0 and 100. */
  lemma ShareBounds(metrics: seq<PlatformMetric>, k: nat)
    requires k < |metrics|
    requires forall i | 0 <= i < |metrics| :: 0.0 <= metrics[i].weightedVolume
    ensures 0.0 <= Share(metrics[k].weightedVolume, TotalVolume(metrics)) <= 100.0
  {
    var total := TotalVolume(metrics);
    SumOfElementBound(metrics, WeightedVolume, k);
    if total != 0.0 {
      DivideBounds(metrics[k].weightedVolume, total, 0.0, 1.0);
    }
  }

  /** `Math.round`: the nearest integer, halves rounded up. */
  function Round(x: real): (r: int)
    ensures x - 0.5 < r as real <= x + 0.5
  {
    (x + 0.5).Floor
  }

  /** `Math.min(100, share)`: the width of the progress bar, in percent. */
  function ProgressWidth(share: real): (r: real)
    ensures r <= 100.0
    ensures r == share || (r == 100.0 && share > 100.0)
  {
    if share < 100.0 then share else 100.0
  }

  /** `Math.max(9, Math.round(45 - platform.avgTrend / 2))`: the refresh cadence in
      days, never below 9, and exactly 9 for the platforms trending above 71. */
  function RefreshDays(avgTrend: real): (r: int)
    ensures r >= 9
    ensures r == 9 <==> avgTrend > 71.0
    ensures r > 9 ==> r == Round(45.0 - avgTrend / 2.0)
  {
    var days := Round(45.0 - avgTrend / 2.0);
    if days < 9 then 9 else days
  }

  /** What one card shows, besides the means it copies from its row. The share and the
      bar width are `None` where the page computes something that is not a finite
      number. */
  datatype PlatformCard = PlatformCard(platform: Platform, share: Option<real>, width: Option<real>, refreshDays: int)

  /** One card as written: the unguarded share, and `Math.min(100, share)` of it. */
  function Card(m: PlatformMetric, total: real): PlatformCard
  {
    var share := RawShare(m.weightedVolume, total);
    var width := if share.Some? then Some(ProgressWidth(share.value)) else None;
    PlatformCard(m.platform, share, width, RefreshDays(m.avgTrend))
  }

  /** `platformMetrics.map(...)`: one card per row, in the rows' order. */
  function Cards(metrics: seq<PlatformMetric>): (r: seq<PlatformCard>)
    ensures |r| == |metrics|
    ensures forall k | 0 <= k < |r| :: r[k].platform == metrics[k].platform
  {
    seq(|metrics|, k requires 0 <= k < |metrics| => Card(metrics[k], TotalVolume(metrics)))
  }

  lemma CardSharesGuarded(metrics: seq<PlatformMetric>)
    requires TotalVolume(metrics) != 0.0
    ensures forall k | 0 <= k < |metrics| ::
      Cards(metrics)[k].share == Some(ShareOf(TotalVolume(metrics))(metrics[k]))
  {
  }

  /** With no negative search volume in the catalog, every card's cadence is at least
      9 days; its share is defined exactly when the total volume is not zero, and then
      lies in [0, 100] with the bar exactly as wide as the share. */
  lemma CardsInRange(ns: seq<Niche>)
    requires forall i | 0 <= i < |ns| :: 0.0 <= ns[i].searchVolume
    ensures forall c | c in Cards(Aggregated(ns)) ::
      && c.refreshDays >= 9
      && (c.share.None? <==> TotalVolume(Aggregated(ns)) == 0.0)
      && (c.share.Some? ==> 0.0 <= c.share.value <= 100.0 && c.width == c.share)
  {
    var metrics := Aggregated(ns);
    AggregatedVolumesNonNegative(ns);
    forall k | 0 <= k < |metrics| && TotalVolume(metrics) != 0.0
      ensures 0.0 <= Cards(metrics)[k].share.value <= 100.0
    {
      ShareBounds(metrics, k);
    }
  }

  lemma AggregatedVolumesNonNegative(ns: seq<Niche>)
    requires forall i | 0 <= i < |ns| :: 0.0 <= ns[i].searchVolume
    ensures forall k | 0 <= k < |Aggregated(ns)| :: 0.0 <= Aggregated(ns)[k].weightedVolume
  {
    var rows := PlatformRows(ns);
    DedupElements(FlatPlatforms(ns));
    forall k | 0 <= k < |rows|
      ensures 0.0 <= rows[k].weightedVolume
    {
      var u := Dedup(FlatPlatforms(ns));
      assert u[k] in u;
      RowVolumeNonNegative(ns, u[k]);
    }
    forall k | 0 <= k < |Aggregated(ns)|
      ensures 0.0 <= Aggregated(ns)[k].weightedVolume
    {
      SortDescByPermutes(rows, WeightedVolume);
      assert Aggregated(ns)[k] in multiset(rows);
    }
  }

  /** As written, a catalog whose only platform-listing niche has no search volume
      gets a card whose share and bar width are not numbers. */
  lemma ZeroVolumeShareUndefined(n: Niche)
    requires n.searchVolume == 0.0 && n.platforms == ["etsy"]
    ensures |Aggregated([n])| == 1
    ensures RawShare(Aggregated([n])[0].weightedVolume, TotalVolume(Aggregated([n]))) == None
    ensures Cards(Aggregated([n]))[0].share == None && Cards(Aggregated([n]))[0].width == None
  {
    TotalVolumeAttributed([n]);
    assert FlatPlatforms([n]) == ["etsy"] by {
      assert [n][..0] == [];
    }
    assert Dedup(["etsy"]) == ["etsy"] by {
      assert ["etsy"][..0] == [];
    }
    assert SumOf([n], AttributedVolume) == 0.0 by {
      assert [n][..0] == [];
    }
  }
}
