/** What selection comes down to, in terms of tags: the policy whose best match has the most tags, then the
    most exact ones, then the latest, then the one whose name comes first. */
module PolicySpecificity {
  import opened Basics
  import opened TagSelectors
  import opened Names
  import opened PolicyModel

  /** A matching selector, or a source and a destination together: how many tags, and how many exact ones. */
  datatype Match = Match(tags: nat, exact: nat)

  function MatchOf(s: Tags, d: Tags): Match {
    Match(|s| + |d|, ExactCount(s) + ExactCount(d))
  }

  predicate NotBehind(m: Match, p: Policy, m': Match, p': Policy) {
    || m.tags > m'.tags
    || (m.tags == m'.tags && m.exact > m'.exact)
    || (m == m' && p.created > p'.created)
    || (m == m' && p.created == p'.created && !Less(p'.name, p.name))
  }

  // ---------- what matches ----------

  /** Some inbound of the dataplane has all tags of the selector, or its gateway has. */
  ghost predicate SelectsDataplane(s: Tags, dp: Dataplane) {
    || (exists i :: 0 <= i < |dp.inbound| && HasTags(dp.inbound[i].tags, s))
    || (dp.gateway.Some? && HasTags(dp.gateway.value, s))
  }

  ghost predicate HasTags(tags: Tags, s: Tags) {
    forall k :: k in s ==> k in tags && s[k] in {tags[k], MATCH_ALL}
  }

  /** The selector has no tag but the service, and that is this service or the wildcard. */
  ghost predicate SelectsService(d: Tags, service: string) {
    forall k :: k in d ==> k == SERVICE_TAG && d[k] in {service, MATCH_ALL}
  }

  ghost predicate MatchingPair(p: Policy, dp: Dataplane, service: string, s: Tags, d: Tags) {
    s in p.Sources() && SelectsDataplane(s, dp) && d in p.Destinations() && SelectsService(d, service)
  }

  lemma MatchingTags(s: Tags, tags: Tags)
    ensures Matches(s, tags) <==> HasTags(tags, s)
  {}

  lemma DataplaneHits(s: Tags, dp: Dataplane)
    ensures Hits(s, ADataplane(dp)) <==> SelectsDataplane(s, dp)
    ensures Hits(s, AnyDataplane(dp)) <==> s == map[] || SelectsDataplane(s, dp)
  {
    hide Matches, HasTags;
    forall tags
      ensures Matches(s, tags) <==> HasTags(tags, s)
    {
      MatchingTags(s, tags);
    }
  }

  lemma ServiceHits(d: Tags, service: string)
    ensures Hits(d, AService(service)) <==> SelectsService(d, service)
  {
    var tags := map[SERVICE_TAG := service];
    assert forall k :: k in tags <==> k == SERVICE_TAG;
  }

  // ---------- selection ----------

  /** Nothing that applies comes before what is selected. */
  lemma SelectedIsFirst(ps: seq<Policy>, q: Question, p: Policy, p': Policy)
    requires Select(ps, q) == Some(p) && p' in ps && Applies(p', q)
    ensures p in ps && Applies(p, q) && Compare(p, p', q) >= 0
    ensures Compare(p, p', q) == 0 ==> !Less(p'.name, p.name)
  {
    var sorted := SortedPolicies(ps);
    SortedOk(ps);
    hide SortedPolicies, Applies, Compare, BestOfSorted, Less;
    var k := SelectionIsFirstMax(sorted, q);
    SamePermutation(sorted, ps, p);
    SamePermutation(sorted, ps, p');
    var j :| 0 <= j < |sorted| && sorted[j] == p';
    LessIsTotal(p.name, p.name);
    assert k < j ==> !Less(NameOf(sorted[j]), NameOf(sorted[k]));
  }

  /** The rank of a policy, as that of its best matching pair. */
  lemma BestPair(p: Policy, dp: Dataplane, service: string) returns (s: Tags, d: Tags)
    requires Applies(p, ToService(dp, service))
    ensures MatchingPair(p, dp, service, s, d) && BestRank(p, ToService(dp, service)) == RankOf(s).CombinedWith(RankOf(d))
  {
    hide Hits, Applies, BestRank, RankOf;
    s, d := ConnectionRankIsOfAPair(p, dp, service);
    DataplaneHits(s, dp);
    ServiceHits(d, service);
    CombinePreservesOrder(RankOf(s), RankOf(d), RankOf(d));
  }

  lemma PairApplies(p: Policy, dp: Dataplane, service: string, s: Tags, d: Tags)
    requires MatchingPair(p, dp, service, s, d)
    ensures Applies(p, ToService(dp, service)) && BestRank(p, ToService(dp, service)).CompareTo(RankOf(s).CombinedWith(RankOf(d))) >= 0
  {
    DataplaneHits(s, dp);
    ServiceHits(d, service);
    hide Hits, Applies, BestRank, RankOf, SelectsDataplane, SelectsService;
    ConnectionRankIsBestPair(p, dp, service, s, d);
    CombinePreservesOrder(RankOf(s), RankOf(d), RankOf(d));
  }

  /** From ranks to tags. */
  lemma NotBehindByRank(p: Policy, r: Rank, m: Match, p': Policy, best': Rank, r': Rank, m': Match)
    requires best'.CompareTo(r') >= 0 && r.CompareTo(best') >= 0
    requires r.CompareTo(best') == 0 ==> p.created > p'.created || (p.created == p'.created && !Less(p'.name, p.name))
    requires r.CompareTo(r') > 0 <==> m.tags > m'.tags || (m.tags == m'.tags && m.exact > m'.exact)
    requires r.CompareTo(r') == 0 <==> m.tags == m'.tags && m.exact == m'.exact
    ensures NotBehind(m, p, m', p')
  {
    CompareIsTotalOrder(r, best', r');
    CompareIsTotalOrder(r', r, best');
    hide Less;
  }

  /** The policy selected for connections from a dataplane to a service has a matching pair of a source and
      a destination which, among all matching pairs of all policies, has the most tags, and among those the
      most exact ones; what is still equal was not created later, and if it was created at the same time its
      name does not come first. */
  lemma SelectedConnection(ps: seq<Policy>, dp: Dataplane, service: string, p: Policy, p': Policy, s': Tags, d': Tags) returns (s: Tags, d: Tags)
    requires Select(ps, ToService(dp, service)) == Some(p) && p' in ps && MatchingPair(p', dp, service, s', d')
    ensures p in ps && MatchingPair(p, dp, service, s, d) && NotBehind(MatchOf(s, d), p, MatchOf(s', d'), p')
  {
    hide Select, Applies, BestRank, RankOf, MatchingPair, NotBehind;
    var q := ToService(dp, service);
    PairApplies(p', dp, service, s', d');
    SelectedIsFirst(ps, q, p, p');
    s, d := BestPair(p, dp, service);
    MoreTagsRankHigher(s, d, s', d');
    NotBehindByRank(p, BestRank(p, q), MatchOf(s, d), p', BestRank(p', q), RankOf(s').CombinedWith(RankOf(d')), MatchOf(s', d'));
  }

  /** A policy is selected for a connection exactly if one has a matching pair. */
  lemma SomeConnection(ps: seq<Policy>, dp: Dataplane, service: string)
    ensures Select(ps, ToService(dp, service)).Some? <==> exists p, s, d :: p in ps && MatchingPair(p, dp, service, s, d)
  {
    var q := ToService(dp, service);
    NothingSelected(ps, q);
    hide Select, Applies, BestRank, RankOf, MatchingPair;
    if Select(ps, q).Some? {
      var p :| p in ps && Applies(p, q);
      var s, d := BestPair(p, dp, service);
    }
    if p, s, d :| p in ps && MatchingPair(p, dp, service, s, d) {
      PairApplies(p, dp, service, s, d);
    }
  }

  lemma NothingSelected(ps: seq<Policy>, q: Question)
    ensures Select(ps, q).Some? <==> exists p :: p in ps && Applies(p, q)
  {
    var sorted := SortedPolicies(ps);
    SortedOk(ps);
    hide SortedPolicies, Applies, BestOfSorted;
    var k := SelectionIsFirstMax(sorted, q);
    forall p: Policy
      ensures p in ps <==> p in sorted
    {
      SamePermutation(sorted, ps, p);
    }
  }

  // ---------- policies for inbounds and for dataplanes ----------

  /** What may make a policy apply to an inbound or to a dataplane: a destination or selector, or, for a
      dataplane, the lack of any selector, which counts as an empty one. */
  ghost predicate SingleMatch(p: Policy, q: Question, s: Tags) {
    match q
    case ToService(_, _) => false
    case ToInbound(tags) => s in p.Destinations() && HasTags(tags, s)
    case OfDataplane(dp) => if p.Selectors() == [] then s == map[] else s in p.Selectors() && (s == map[] || SelectsDataplane(s, dp))
  }

  lemma EmptyRank()
    ensures RankOf(map[]) == ZERO_RANK && ExactCount(map[]) == 0
  {
    RankCounts(map[]);
  }

  lemma SingleRanks(p: Policy, q: Question, r: Rank)
    requires !q.ToService?
    ensures r in Ranks(p, q) <==> exists s :: SingleMatch(p, q, s) && RankOf(s) == r
  {
    EmptyRank();
    match q
    case ToInbound(tags) =>
      RanksComeFromSelectors(p.Destinations(), SomeTags(tags), r);
      forall s
        ensures Matches(s, tags) <==> HasTags(tags, s)
      {
        MatchingTags(s, tags);
      }
      hide Matches, HasTags, MatchingRanks, RankOf;
    case OfDataplane(dp) =>
      RanksComeFromSelectors(p.Selectors(), AnyDataplane(dp), r);
      forall s
        ensures Hits(s, AnyDataplane(dp)) <==> s == map[] || SelectsDataplane(s, dp)
      {
        DataplaneHits(s, dp);
      }
      hide Hits, SelectsDataplane, MatchingRanks, RankOf;
      if p.Selectors() == [] {
        assert Ranks(p, q) == [ZERO_RANK];
        assert SingleMatch(p, q, map[]);
      }
  }

  lemma SingleOrder(s: Tags, s': Tags)
    ensures var order, m, m' := RankOf(s).CompareTo(RankOf(s')), MatchOf(s, map[]), MatchOf(s', map[]);
            && (order > 0 <==> m.tags > m'.tags || (m.tags == m'.tags && m.exact > m'.exact))
            && (order == 0 <==> m.tags == m'.tags && m.exact == m'.exact)
  {
    EmptyRank();
    hide RankOf, ExactCount;
    RankCounts(s);
    RankCounts(s');
  }

  lemma SingleApplies(p: Policy, q: Question, s: Tags)
    requires SingleMatch(p, q, s)
    ensures Applies(p, q) && BestRank(p, q).CompareTo(RankOf(s)) >= 0
  {
    assert !q.ToService?;
    hide SingleMatch, RankOf, Ranks;
    SingleRanks(p, q, RankOf(s));
    HighestIsMax(Ranks(p, q));
    CompareIsTotalOrder(RankOf(s), BestRank(p, q), RankOf(s));
  }

  lemma BestSingle(p: Policy, q: Question) returns (s: Tags)
    requires !q.ToService? && Applies(p, q)
    ensures SingleMatch(p, q, s) && RankOf(s) == BestRank(p, q)
  {
    HighestIsMax(Ranks(p, q));
    hide SingleMatch, RankOf, Ranks, Highest;
    SingleRanks(p, q, BestRank(p, q));
    s :| SingleMatch(p, q, s) && RankOf(s) == BestRank(p, q);
  }

  /** The same for the policy selected for an inbound or for a dataplane, where selectors match singly. */
  lemma SelectedSingle(ps: seq<Policy>, q: Question, p: Policy, p': Policy, s': Tags) returns (s: Tags)
    requires !q.ToService? && Select(ps, q) == Some(p) && p' in ps && SingleMatch(p', q, s')
    ensures p in ps && SingleMatch(p, q, s) && NotBehind(MatchOf(s, map[]), p, MatchOf(s', map[]), p')
  {
    hide Select, Applies, BestRank, RankOf, SingleMatch, NotBehind;
    SingleApplies(p', q, s');
    SelectedIsFirst(ps, q, p, p');
    s := BestSingle(p, q);
    SingleOrder(s, s');
    NotBehindByRank(p, BestRank(p, q), MatchOf(s, map[]), p', BestRank(p', q), RankOf(s'), MatchOf(s', map[]));
  }
}
