/** The policy for a dataplane as a whole. */
module DataplaneMatcher {
  import opened Basics
  import opened TagSelectors
  import opened PolicyModel
  import opened PolicyMatcher
  import opened InboundMatcher

  /** What the loops know: nothing seen yet, or the best candidate so far. */
  ghost predicate Keeps(seen: seq<Candidate>, best: Option<nat>, rank: Rank, ps: seq<Policy>) {
    if seen == [] then best.None? && rank == ZERO_RANK
    else
      && best.Some? && best.value < |ps|
      && FirstBest(seen) == Some(Candidate(best.value, ps[best.value].created, rank))
  }

  /** An empty selector, or no selectors at all: a match with rank zero. The best rank is left alone,
      which is right because it is zero already when the policy changes here. */
  method MatchEverything(ps: seq<Policy>, i: nat, best: Option<nat>, bestRank: Rank, ghost seen: seq<Candidate>)
    returns (newBest: Option<nat>)
    requires i < |ps| && Keeps(seen, best, bestRank, ps)
    ensures Keeps(seen + [Candidate(i, ps[i].created, ZERO_RANK)], newBest, bestRank, ps)
  {
    FirstBestSnoc(seen, Candidate(i, ps[i].created, ZERO_RANK));
    FirstBestSome(seen);
    ZeroIsLowest(bestRank);
    CompareIsTotalOrder(ZERO_RANK, bestRank, bestRank);
    newBest := best;
    if best.None? || (ZERO_RANK.CompareTo(bestRank) == 0 && ps[i].created > ps[best.value].created) {
      newBest := Some(i);
    }
  }

  /** A selector with tags: its rank is above zero, so there is a best policy whenever the code asks
      for its age. */
  method MatchSome(ps: seq<Policy>, i: nat, rank: Rank, best: Option<nat>, bestRank: Rank, ghost seen: seq<Candidate>)
    returns (newBest: Option<nat>, newRank: Rank)
    requires i < |ps| && Keeps(seen, best, bestRank, ps) && rank != ZERO_RANK
    ensures Keeps(seen + [Candidate(i, ps[i].created, rank)], newBest, newRank, ps)
  {
    FirstBestSnoc(seen, Candidate(i, ps[i].created, rank));
    FirstBestSome(seen);
    ZeroIsLowest(rank);
    newBest, newRank := best, bestRank;
    if rank.CompareTo(bestRank) > 0 || (rank.CompareTo(bestRank) == 0 && ps[i].created > ps[best.value].created) {
      newBest, newRank := Some(i), rank;
    }
  }

  method ConsiderSelectors(ps: seq<Policy>, i: nat, dp: Dataplane, best: Option<nat>, bestRank: Rank, ghost seen: seq<Candidate>)
    returns (newBest: Option<nat>, newRank: Rank)
    requires i < |ps| && Keeps(seen, best, bestRank, ps)
    ensures Keeps(seen + CandidatesOf(i, ps[i].created, Ranks(ps[i], OfDataplane(dp))), newBest, newRank, ps)
  {
    newBest, newRank := best, bestRank;
    var selectors := ps[i].Selectors();
    ghost var ranks := [];
    assert CandidatesOf(i, ps[i].created, [ZERO_RANK]) == [Candidate(i, ps[i].created, ZERO_RANK)];
    CandidatesOfNone(seen, i, ps[i].created);
    MatchingNone(AnyDataplane(dp));
    hide Keeps, MatchingRanks, Highest, CandidatesOf, MatchesDataplane;
    if |selectors| == 0 {
      newBest := MatchEverything(ps, i, newBest, newRank, seen);
      return;
    }
    for d := 0 to |selectors|
      invariant ranks == MatchingRanks(selectors[..d], AnyDataplane(dp))
      invariant Keeps(seen + CandidatesOf(i, ps[i].created, ranks), newBest, newRank, ps)
    {
      MatchingRanksSnoc(selectors, AnyDataplane(dp), d);
      RankIsZero(selectors[d]);
      if Hits(selectors[d], AnyDataplane(dp)) {
        ghost var candidate := Candidate(i, ps[i].created, RankOf(selectors[d]));
        CandidatesOfSnoc(seen, candidate, ranks);
        ghost var before := seen + CandidatesOf(i, ps[i].created, ranks);
        if |selectors[d]| == 0 {
          newBest := MatchEverything(ps, i, newBest, newRank, before);
        } else {
          var rank := ComputeRank(selectors[d]);
          newBest, newRank := MatchSome(ps, i, rank, newBest, newRank, before);
        }
        ranks := ranks + [RankOf(selectors[d])];
      }
    }
    assert selectors[..|selectors|] == selectors;
  }

  /** The selected policy; no nil best policy is ever asked for its age. */
  method SelectDataplanePolicy(dp: Dataplane, policies: array<Policy>) returns (best: Option<Policy>)
    modifies policies
    ensures policies[..] == SortedPolicies(old(policies[..]))
    ensures best == Select(old(policies[..]), OfDataplane(dp))
  {
    SortInPlace(policies);
    var sorted := policies[..];
    ghost var q := OfDataplane(dp);
    hide SortedPolicies, Ranks;
    var bestPolicy: Option<nat>, bestRank := None, ZERO_RANK;
    for i := 0 to |sorted|
      invariant policies[..] == sorted
      invariant Keeps(Candidates(sorted[..i], q), bestPolicy, bestRank, sorted)
    {
      CandidatesSnoc(sorted, i, q);
      bestPolicy, bestRank := ConsiderSelectors(sorted, i, dp, bestPolicy, bestRank, Candidates(sorted[..i], q));
    }
    assert sorted[..|sorted|] == sorted;
    FirstBestSome(Candidates(sorted, q));
    best := if bestPolicy.Some? then Some(sorted[bestPolicy.value]) else None;
  }
}
