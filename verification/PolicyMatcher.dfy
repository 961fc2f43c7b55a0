/** The loops that select policies, proved to find what `PolicyModel` says is selected. */
module PolicyMatcher {
  import opened Basics
  import opened TagSelectors
  import opened Names
  import opened PolicyModel

  const PASS_THROUGH_SERVICE := "pass_through"

  /** The services to select policies for, handed out one by one. An iterator over the outbounds of
      a dataplane adds the implicit pass-through service at the end. */
  class ServiceIterator {
    const services: seq<string>
    const passThrough: bool
    var idx: nat

    ghost function All(): seq<string> {
      if passThrough then services + [PASS_THROUGH_SERVICE] else services
    }

    ghost predicate Valid()
      reads this
    {
      idx <= |All()|
    }

    ghost function Remaining(): seq<string>
      reads this
      requires Valid()
    {
      All()[idx..]
    }

    constructor ToOutboundServicesOf(dp: Dataplane)
      ensures Valid() && Remaining() == dp.outbound + [PASS_THROUGH_SERVICE]
    {
      services, passThrough, idx := dp.outbound, true, 0;
    }

    constructor ToServices(list: seq<string>)
      ensures Valid() && Remaining() == list
    {
      services, passThrough, idx := list, false, 0;
    }

    method Next() returns (service: string, ok: bool)
      requires Valid()
      modifies this
      ensures Valid()
      ensures ok <==> old(Remaining()) != []
      ensures ok ==> old(Remaining()) == [service] + Remaining()
      ensures !ok ==> service == "" && Remaining() == []
    {
      if passThrough {
        if |services| < idx {
          return "", false;
        }
        if |services| == idx {
          idx := idx + 1;
          return PASS_THROUGH_SERVICE, true;
        }
      } else if |services| <= idx {
        return "", false;
      }
      service, ok := services[idx], true;
      idx := idx + 1;
    }
  }

  lemma {:induction false} InsertAt(p: Policy, s: seq<Policy>, k: nat)
    requires k <= |s| && (forall m :: 0 <= m < k ==> Less(NameOf(s[m]), NameOf(p))) && (k < |s| ==> !Less(NameOf(s[k]), NameOf(p)))
    ensures Insert(p, s, NameOf) == s[..k] + [p] + s[k..]
  {
    hide Less;
    if k > 0 {
      InsertAt(p, s[1..], k - 1);
      assert s[..k] + [p] + s[k..] == [s[0]] + (s[1..][..k - 1] + [p] + s[1..][k - 1..]);
    }
  }

  /** Move a policy past all behind it that have smaller names, by swapping neighbours. */
  method MovePast(policies: array<Policy>, i: nat) returns (j: nat)
    requires i < policies.Length
    modifies policies
    ensures i <= j < policies.Length && policies[j] == old(policies[i])
    ensures forall m :: 0 <= m < i || j < m < policies.Length ==> policies[m] == old(policies[m])
    ensures forall m :: i <= m < j ==> policies[m] == old(policies[m + 1]) && Less(NameOf(policies[m]), NameOf(policies[j]))
    ensures j + 1 < policies.Length ==> !Less(NameOf(policies[j + 1]), NameOf(policies[j]))
  {
    hide Less;
    j := i;
    while j + 1 < policies.Length && Less(policies[j + 1].name, policies[j].name)
      invariant i <= j < policies.Length && policies[j] == old(policies[i])
      invariant forall m :: 0 <= m < i || j < m < policies.Length ==> policies[m] == old(policies[m])
      invariant forall m :: i <= m < j ==> policies[m] == old(policies[m + 1]) && Less(NameOf(policies[m]), NameOf(policies[j]))
    {
      policies[j], policies[j + 1] := policies[j + 1], policies[j];
      j := j + 1;
    }
  }

  /** Put one policy in its place among the sorted policies behind it. */
  method InsertInPlace(policies: array<Policy>, i: nat)
    requires i < policies.Length
    modifies policies
    ensures policies[..i] == old(policies[..i])
    ensures policies[i..] == Insert(old(policies[i]), old(policies[i + 1..]), NameOf)
  {
    hide Less, Insert;
    ghost var p, s := policies[i], policies[i + 1..];
    var j := MovePast(policies, i);
    ghost var k := j - i;
    assert forall m :: 0 <= m < k ==> s[m] == policies[i + m];
    assert k < |s| ==> s[k] == policies[j + 1];
    InsertAt(p, s, k);
    assert policies[i..] == s[..k] + [p] + s[k..];
  }

  /** `sort.Stable` by name, in place, by swaps of neighbours. */
  method SortInPlace(policies: array<Policy>)
    modifies policies
    ensures policies[..] == SortedPolicies(old(policies[..]))
  {
    ghost var given := policies[..];
    var i := policies.Length;
    while i > 0
      invariant 0 <= i <= policies.Length && policies[..i] == given[..i]
      invariant policies[i..] == SortByName(given[i..], NameOf)
    {
      i := i - 1;
      ghost var rest := policies[i + 1..];
      assert given[..i + 1][i] == policies[..i + 1][i];
      assert given[i..][0] == given[i] && given[i..][1..] == given[i + 1..];
      assert policies[..i] == policies[..i + 1][..i] && given[..i] == given[..i + 1][..i];
      InsertInPlace(policies, i);
    }
    assert policies[0..] == policies[..] && given[0..] == given;
  }

  // ---------- connections to services ----------

  /** A policy that has a source matching the dataplane, and the rank of the best one. */
  datatype BySource = BySource(index: nat, rank: Rank)

  function SourceCandidates(ps: seq<Policy>, dp: Dataplane): (cs: seq<BySource>)
    ensures forall c :: c in cs ==> c.index < |ps|
  {
    if ps == [] then []
    else
      var i := |ps| - 1;
      var rank := SourceRank(ps[i], dp);
      SourceCandidates(ps[..i], dp) + (if rank.Some? then [BySource(i, rank.value)] else [])
  }

  function DestinationCandidates(cs: seq<BySource>, ps: seq<Policy>, service: string): seq<Candidate>
    requires forall c :: c in cs ==> c.index < |ps|
  {
    if cs == [] then []
    else
      var last := cs[|cs| - 1];
      var p := ps[last.index];
      DestinationCandidates(cs[..|cs| - 1], ps, service)
      + CandidatesOf(last.index, p.created, Combined(MatchingRanks(p.Destinations(), AService(service)), last.rank))
  }

  lemma {:induction false} OnlyPrefixMatters(cs: seq<BySource>, ps: seq<Policy>, n: nat, service: string)
    requires n <= |ps| && forall c :: c in cs ==> c.index < n
    ensures DestinationCandidates(cs, ps[..n], service) == DestinationCandidates(cs, ps, service)
  {
    if cs != [] {
      OnlyPrefixMatters(cs[..|cs| - 1], ps, n, service);
    }
  }

  /** Filtering by source first and then by destination considers the same candidates. */
  lemma {:induction false} TwoStages(ps: seq<Policy>, dp: Dataplane, service: string)
    ensures DestinationCandidates(SourceCandidates(ps, dp), ps, service) == Candidates(ps, ToService(dp, service))
  {
    if ps != [] {
      var i := |ps| - 1;
      TwoStages(ps[..i], dp, service);
      var before := SourceCandidates(ps[..i], dp);
      OnlyPrefixMatters(before, ps, i, service);
      hide SourceRank, MatchingRanks;
      var rank := SourceRank(ps[i], dp);
      if rank.Some? {
        var added := before + [BySource(i, rank.value)];
        assert added[..|added| - 1] == before;
        assert SourceCandidates(ps, dp) == added;
      } else {
        assert SourceCandidates(ps, dp) == before;
      }
    }
  }

  lemma MatchingRanksSnoc(selectors: seq<Tags>, target: Target, k: nat)
    requires k < |selectors|
    ensures MatchingRanks(selectors[..k + 1], target)
         == if Hits(selectors[k], target) then MatchingRanks(selectors[..k], target) + [RankOf(selectors[k])]
            else MatchingRanks(selectors[..k], target)
  {
    assert selectors[..k + 1][..k] == selectors[..k];
  }

  lemma MatchingNone(target: Target)
    ensures MatchingRanks([], target) == []
  {}

  lemma HighestSnoc(ranks: seq<Rank>, r: Rank)
    ensures Highest(ranks + [r]) == Higher(Highest(ranks), r)
  {
    assert (ranks + [r])[..|ranks|] == ranks;
  }

  method BestSource(p: Policy, dp: Dataplane) returns (matches: bool, best: Rank)
    ensures SourceRank(p, dp) == if matches then Some(best) else None
  {
    matches, best := false, ZERO_RANK;
    var sources := p.Sources();
    for k := 0 to |sources|
      invariant Highest(MatchingRanks(sources[..k], ADataplane(dp))) == if matches then Some(best) else None
    {
      MatchingRanksSnoc(sources, ADataplane(dp), k);
      if Hits(sources[k], ADataplane(dp)) {
        var rank := ComputeRank(sources[k]);
        HighestSnoc(MatchingRanks(sources[..k], ADataplane(dp)), rank);
        if !matches || rank.CompareTo(best) > 0 {
          best := rank;
        }
        matches := true;
      }
    }
    assert sources[..|sources|] == sources;
  }

  lemma CandidatesOfSnoc(seen: seq<Candidate>, c: Candidate, ranks: seq<Rank>)
    ensures seen + CandidatesOf(c.index, c.created, ranks + [c.rank]) == seen + CandidatesOf(c.index, c.created, ranks) + [c]
  {}

  lemma CandidatesOfNone(seen: seq<Candidate>, index: nat, created: int)
    ensures seen + CandidatesOf(index, created, []) == seen
  {}

  lemma CombinedSnoc(ranks: seq<Rank>, r: Rank, source: Rank)
    ensures Combined(ranks + [r], source) == Combined(ranks, source) + [r.CombinedWith(source)]
  {}

  /** Let the destinations of one policy compete against the best so far. */
  method ConsiderDestinations(p: Policy, c: BySource, service: string, ghost seen: seq<Candidate>, soFar: Option<Candidate>)
    returns (best: Option<Candidate>)
    requires soFar == FirstBest(seen)
    ensures best == FirstBest(seen + CandidatesOf(c.index, p.created, Combined(MatchingRanks(p.Destinations(), AService(service)), c.rank)))
  {
    best := soFar;
    var destinations := p.Destinations();
    ghost var ranks := [];
    assert Combined(ranks, c.rank) == [];
    CandidatesOfNone(seen, c.index, p.created);
    MatchingNone(AService(service));
    hide MatchingRanks, FirstBest, Combined, CandidatesOf, Hits;
    for d := 0 to |destinations|
      invariant ranks == MatchingRanks(destinations[..d], AService(service))
      invariant best == FirstBest(seen + CandidatesOf(c.index, p.created, Combined(ranks, c.rank)))
    {
      MatchingRanksSnoc(destinations, AService(service), d);
      if Hits(destinations[d], AService(service)) {
        var rank := ComputeRank(destinations[d]);
        var aggregate := rank.CombinedWith(c.rank);
        var candidate := Candidate(c.index, p.created, aggregate);
        CombinedSnoc(ranks, rank, c.rank);
        CandidatesOfSnoc(seen, candidate, Combined(ranks, c.rank));
        FirstBestSnoc(seen + CandidatesOf(c.index, p.created, Combined(ranks, c.rank)), candidate);
        ranks := ranks + [rank];
        if best.None? || aggregate.CompareTo(best.value.rank) > 0
           || (aggregate.CompareTo(best.value.rank) == 0 && p.created > best.value.created) {
          best := Some(candidate);
        }
      }
    }
    assert destinations[..|destinations|] == destinations;
  }

  lemma DestinationCandidatesSnoc(cs: seq<BySource>, ps: seq<Policy>, service: string, c: nat)
    requires (forall c :: c in cs ==> c.index < |ps|) && c < |cs|
    ensures DestinationCandidates(cs[..c + 1], ps, service)
         == DestinationCandidates(cs[..c], ps, service)
          + CandidatesOf(cs[c].index, ps[cs[c].index].created, Combined(MatchingRanks(ps[cs[c].index].Destinations(), AService(service)), cs[c].rank))
  {
    hide CandidatesOf, Combined, MatchingRanks;
    assert cs[..c + 1][..c] == cs[..c];
  }

  lemma NoDestinationsYet(ps: seq<Policy>, service: string)
    ensures FirstBest(DestinationCandidates([], ps, service)) == None
  {}

  method SelectForService(sorted: seq<Policy>, dp: Dataplane, bySource: seq<BySource>, service: string) returns (best: Option<Candidate>)
    requires bySource == SourceCandidates(sorted, dp)
    ensures best == FirstBest(Candidates(sorted, ToService(dp, service)))
  {
    hide *;
    best := None;
    TwoStages(sorted, dp, service);
    NoDestinationsYet(sorted, service);
    assert bySource[..0] == [];
    for c := 0 to |bySource|
      invariant best == FirstBest(DestinationCandidates(bySource[..c], sorted, service))
    {
      DestinationCandidatesSnoc(bySource, sorted, service, c);
      best := ConsiderDestinations(sorted[bySource[c].index], bySource[c], service,
                                   DestinationCandidates(bySource[..c], sorted, service), best);
    }
    assert bySource[..|bySource|] == bySource;
  }

  method FilterBySource(sorted: seq<Policy>, dp: Dataplane) returns (bySource: seq<BySource>)
    ensures bySource == SourceCandidates(sorted, dp)
  {
    bySource := [];
    for i := 0 to |sorted|
      invariant bySource == SourceCandidates(sorted[..i], dp)
    {
      assert sorted[..i + 1][..i] == sorted[..i];
      var matches, rank := BestSource(sorted[i], dp);
      if matches {
        bySource := bySource + [BySource(i, rank)];
      }
    }
    assert sorted[..|sorted|] == sorted;
  }

  /** The services of `done` that have a candidate are mapped to their best one. */
  ghost predicate ChosenFor(chosen: map<string, Candidate>, done: seq<string>, sorted: seq<Policy>, dp: Dataplane) {
    && (forall s :: s in chosen ==> s in done && FirstBest(Candidates(sorted, ToService(dp, s))) == Some(chosen[s]))
    && (forall s :: s in done && s !in chosen ==> FirstBest(Candidates(sorted, ToService(dp, s))).None?)
  }

  method SelectForServices(sorted: seq<Policy>, dp: Dataplane, bySource: seq<BySource>, destinations: ServiceIterator)
    returns (chosen: map<string, Candidate>)
    requires destinations.Valid() && bySource == SourceCandidates(sorted, dp)
    modifies destinations
    ensures destinations.Valid() && destinations.Remaining() == []
    ensures ChosenFor(chosen, old(destinations.Remaining()), sorted, dp)
  {
    hide Candidates, FirstBest, SourceCandidates;
    chosen := map[];
    ghost var done: seq<string> := [];
    ghost var all := destinations.Remaining();
    var service, ok := destinations.Next();
    assert ChosenFor(chosen, done, sorted, dp);
    hide ChosenFor;
    while ok
      invariant destinations.Valid()
      invariant ok ==> all == done + [service] + destinations.Remaining()
      invariant !ok ==> destinations.Remaining() == [] && all == done
      invariant ChosenFor(chosen, done, sorted, dp)
      decreases if ok then |destinations.Remaining()| + 1 else 0
    {
      if service in chosen {
        ChosenAgain(chosen, done, sorted, dp, service);
      } else {
        var best := SelectForService(sorted, dp, bySource, service);
        ChosenGrows(chosen, done, sorted, dp, service, best);
        if best.Some? {
          chosen := chosen[service := best.value];
        }
      }
      done := done + [service];
      service, ok := destinations.Next();
    }
  }

  lemma ChosenAgain(chosen: map<string, Candidate>, done: seq<string>, sorted: seq<Policy>, dp: Dataplane, service: string)
    requires ChosenFor(chosen, done, sorted, dp) && service in chosen
    ensures ChosenFor(chosen, done + [service], sorted, dp)
  {
    hide Candidates, FirstBest;
  }

  lemma ChosenGrows(chosen: map<string, Candidate>, done: seq<string>, sorted: seq<Policy>, dp: Dataplane, service: string, best: Option<Candidate>)
    requires ChosenFor(chosen, done, sorted, dp) && service !in chosen
    requires best == FirstBest(Candidates(sorted, ToService(dp, service)))
    ensures ChosenFor(if best.Some? then chosen[service := best.value] else chosen, done + [service], sorted, dp)
  {
    hide Candidates, FirstBest;
  }

  lemma ChosenIsSelected(chosen: map<string, Candidate>, services: seq<string>, ps: seq<Policy>, dp: Dataplane, s: string)
    requires ChosenFor(chosen, services, SortedPolicies(ps), dp) && s in services
    ensures s in chosen <==> Select(ps, ToService(dp, s)).Some?
    ensures s in chosen ==>
              && chosen[s].index < |SortedPolicies(ps)|
              && Select(ps, ToService(dp, s)) == Some(SortedPolicies(ps)[chosen[s].index])
  {
    BestIndexOk(SortedPolicies(ps), ToService(dp, s));
    hide Candidates, FirstBest, SortedPolicies;
  }

  /** Each service is mapped to the policy selected for it, and is absent if there is none; the order
      and repetition of services do not matter. */
  method SelectConnectionPolicies(dp: Dataplane, destinations: ServiceIterator, policies: array<Policy>)
    returns (m: map<string, Policy>)
    requires destinations.Valid()
    modifies destinations, policies
    ensures policies[..] == SortedPolicies(old(policies[..]))
    ensures destinations.Valid() && destinations.Remaining() == []
    ensures forall s :: s in m <==> s in old(destinations.Remaining()) && Select(old(policies[..]), ToService(dp, s)).Some?
    ensures forall s :: s in m ==> Select(old(policies[..]), ToService(dp, s)) == Some(m[s])
  {
    hide Select, SortedPolicies, SourceCandidates;
    ghost var services := destinations.Remaining();
    ghost var given := policies[..];
    SortInPlace(policies);
    var sorted := policies[..];
    var bySource := FilterBySource(sorted, dp);
    var chosen := SelectForServices(sorted, dp, bySource, destinations);
    assert forall s :: s in chosen ==> s in services;
    hide ChosenFor;
    forall s | s in services
      ensures s in chosen <==> Select(given, ToService(dp, s)).Some?
      ensures s in chosen ==> chosen[s].index < |sorted| && Select(given, ToService(dp, s)) == Some(sorted[chosen[s].index])
    {
      ChosenIsSelected(chosen, services, given, dp, s);
    }
    m := map s | s in chosen :: sorted[chosen[s].index];
  }

  // ---------- connections to inbounds ----------

  /** The first selector to match, in the order of the loops, is empty: its rank is zero, so it does
      not exceed the initial rank, and the code then asks the missing best policy for its age. */
  predicate NilDereference(cs: seq<Candidate>) {
    cs != [] && cs[0].rank == ZERO_RANK
  }

  lemma {:induction false} CandidatesPrefix(ps: seq<Policy>, q: Question, n: nat)
    requires n <= |ps|
    ensures Candidates(ps[..n], q) <= Candidates(ps, q)
    decreases |ps| - n
  {
    if n == |ps| {
      assert ps[..n] == ps;
    } else {
      CandidatesPrefix(ps, q, n + 1);
      assert ps[..n + 1][..n] == ps[..n];
    }
  }

  lemma ZeroIsLowest(r: Rank)
    ensures r.CompareTo(ZERO_RANK) >= 0
    ensures r.CompareTo(ZERO_RANK) == 0 <==> r == ZERO_RANK
  {}

  /** What the inner loops know: the best candidate so far, whose rank is above zero. */
  ghost predicate BestSoFar(seen: seq<Candidate>, best: Option<nat>, rank: Rank, ps: seq<Policy>) {
    if seen == [] then best.None? && rank == ZERO_RANK
    else
      && best.Some? && best.value < |ps| && rank != ZERO_RANK
      && FirstBest(seen) == Some(Candidate(best.value, ps[best.value].created, rank))
  }

  lemma FirstBestSome(cs: seq<Candidate>)
    ensures FirstBest(cs).None? <==> cs == []
  {
    if cs != [] {
      FirstBestSnoc(cs[..|cs| - 1], cs[|cs| - 1]);
    }
  }

  /** One matching selector: either the code fails, or the best so far is updated. */
  method Compete(ps: seq<Policy>, i: nat, rank: Rank, best: Option<nat>, bestRank: Rank, ghost seen: seq<Candidate>)
    returns (failed: bool, newBest: Option<nat>, newRank: Rank)
    requires i < |ps| && BestSoFar(seen, best, bestRank, ps)
    ensures failed <==> seen == [] && rank == ZERO_RANK
    ensures !failed ==> BestSoFar(seen + [Candidate(i, ps[i].created, rank)], newBest, newRank, ps)
  {
    ZeroIsLowest(rank);
    FirstBestSnoc(seen, Candidate(i, ps[i].created, rank));
    FirstBestSome(seen);
    CompareIsTotalOrder(rank, bestRank, ZERO_RANK);
    failed, newBest, newRank := false, best, bestRank;
    if rank.CompareTo(bestRank) > 0 {
      newBest, newRank := Some(i), rank;
    } else if rank.CompareTo(bestRank) == 0 {
      if best.None? {
        failed := true;
      } else if ps[i].created > ps[best.value].created {
        newBest, newRank := Some(i), rank;
      }
    }
  }

  /** Let the destinations of policy `i` compete for an inbound. */
  method ConsiderForInbound(ps: seq<Policy>, i: nat, tags: Tags, best: Option<nat>, bestRank: Rank, ghost seen: seq<Candidate>)
    returns (failed: bool, newBest: Option<nat>, newRank: Rank)
    requires i < |ps| && BestSoFar(seen, best, bestRank, ps) && seen == Candidates(ps[..i], ToInbound(tags))
    ensures failed <==> seen == [] && NilDereference(CandidatesOf(i, ps[i].created, Ranks(ps[i], ToInbound(tags))))
    ensures !failed ==> BestSoFar(seen + CandidatesOf(i, ps[i].created, Ranks(ps[i], ToInbound(tags))), newBest, newRank, ps)
  {
    failed, newBest, newRank := false, best, bestRank;
    var destinations := ps[i].Destinations();
    ghost var ranks := [];
    CandidatesOfNone(seen, i, ps[i].created);
    MatchingNone(SomeTags(tags));
    hide BestSoFar, FirstBest, MatchingRanks, Candidates, CandidatesOf, Hits, NilDereference;
    for d := 0 to |destinations|
      invariant ranks == MatchingRanks(destinations[..d], SomeTags(tags))
      invariant BestSoFar(seen + CandidatesOf(i, ps[i].created, ranks), newBest, newRank, ps)
      invariant seen == [] ==> !FirstRankIsZero(ranks)
    {
      MatchingRanksSnoc(destinations, SomeTags(tags), d);
      if Hits(destinations[d], SomeTags(tags)) {
        var rank := ComputeRank(destinations[d]);
        ghost var candidate := Candidate(i, ps[i].created, rank);
        CandidatesOfSnoc(seen, candidate, ranks);
        failed, newBest, newRank := Compete(ps, i, rank, newBest, newRank, seen + CandidatesOf(i, ps[i].created, ranks));
        if failed {
          FirstIsZero(ps, i, tags, d, seen, ranks);
          return;
        }
        ranks := ranks + [rank];
      }
    }
    assert destinations[..|destinations|] == destinations;
    CandidatesOfFirst(i, ps[i].created, ranks);
  }

  predicate FirstRankIsZero(ranks: seq<Rank>) {
    ranks != [] && ranks[0] == ZERO_RANK
  }

  lemma CandidatesOfFirst(index: nat, created: int, ranks: seq<Rank>)
    ensures NilDereference(CandidatesOf(index, created, ranks)) <==> FirstRankIsZero(ranks)
  {}

  lemma FirstIsZero(ps: seq<Policy>, i: nat, tags: Tags, d: nat, seen: seq<Candidate>, ranks: seq<Rank>)
    requires i < |ps| && d < |ps[i].Destinations()| && ranks == MatchingRanks(ps[i].Destinations()[..d], SomeTags(tags))
    requires seen + CandidatesOf(i, ps[i].created, ranks) == [] && Hits(ps[i].Destinations()[d], SomeTags(tags))
    requires RankOf(ps[i].Destinations()[d]) == ZERO_RANK
    ensures seen == [] && NilDereference(CandidatesOf(i, ps[i].created, Ranks(ps[i], ToInbound(tags))))
  {
    assert |seen| + |ranks| == 0;
    MatchingRanksSnoc(ps[i].Destinations(), SomeTags(tags), d);
    MatchingRanksPrefix(ps[i].Destinations(), SomeTags(tags), d + 1);
    hide MatchingRanks;
  }

  /** One inbound: the code fails exactly on a nil dereference, and otherwise finds the selected policy. */
  method SelectForInbound(sorted: seq<Policy>, tags: Tags) returns (failed: bool, best: Option<nat>)
    ensures failed <==> NilDereference(Candidates(sorted, ToInbound(tags)))
    ensures !failed && best.None? ==> BestOfSorted(sorted, ToInbound(tags)).None?
    ensures !failed && best.Some? ==> best.value < |sorted| && BestOfSorted(sorted, ToInbound(tags)) == Some(sorted[best.value])
  {
    var bestRank := ZERO_RANK;
    best := None;
    ghost var q := ToInbound(tags);
    hide Ranks;
    for i := 0 to |sorted|
      invariant BestSoFar(Candidates(sorted[..i], q), best, bestRank, sorted)
      invariant !NilDereference(Candidates(sorted[..i], q))
    {
      CandidatesSnoc(sorted, i, q);
      CandidatesPrefix(sorted, q, i + 1);
      failed, best, bestRank := ConsiderForInbound(sorted, i, tags, best, bestRank, Candidates(sorted[..i], q));
      if failed {
        return;
      }
    }
    assert sorted[..|sorted|] == sorted;
    FirstBestSome(Candidates(sorted, q));
    failed := false;
  }

  lemma CandidatesSnoc(ps: seq<Policy>, i: nat, q: Question)
    requires i < |ps|
    ensures Candidates(ps[..i + 1], q) == Candidates(ps[..i], q) + CandidatesOf(i, ps[i].created, Ranks(ps[i], q))
  {
    assert ps[..i + 1][..i] == ps[..i];
  }

  lemma {:induction false} MatchingRanksPrefix(selectors: seq<Tags>, target: Target, n: nat)
    requires n <= |selectors|
    ensures MatchingRanks(selectors[..n], target) <= MatchingRanks(selectors, target)
    decreases |selectors| - n
  {
    if n == |selectors| {
      assert selectors[..n] == selectors;
    } else {
      MatchingRanksPrefix(selectors, target, n + 1);
      MatchingRanksSnoc(selectors, target, n);
    }
  }
}
