/** Which policy is the best match: what the selection loops compute, and what that means. */
module PolicyModel {
  import opened Basics
  import opened TagSelectors
  import opened Names

  /** An inbound interface; reading it from the dataplane may fail. */
  datatype Interface = Interface(ip: string, port: nat, workloadPort: nat)

  datatype Inbound = Inbound(tags: Tags, iface: Result<Interface, string>)

  datatype Dataplane = Dataplane(inbound: seq<Inbound>, gateway: Option<Tags>, outbound: seq<string>)

  /** Where a traffic route sends a share of the connections. */
  datatype Destination = Destination(weight: nat, tags: Tags)

  /** Connection policies choose by source and destination, dataplane policies by dataplane. Only
      traffic routes have a `conf`. */
  datatype Policy =
    | ConnectionPolicy(name: string, created: int, sources: seq<Tags>, destinations: seq<Tags>, conf: seq<Destination>)
    | DataplanePolicy(name: string, created: int, selectors: seq<Tags>)
  {
    function Sources(): seq<Tags> { if ConnectionPolicy? then sources else [] }
    function Destinations(): seq<Tags> { if ConnectionPolicy? then destinations else [] }
    function Selectors(): seq<Tags> { if DataplanePolicy? then selectors else [] }
    function Conf(): seq<Destination> { if ConnectionPolicy? then conf else [] }
  }

  /** What a selector is held against: a dataplane, a service, or the tags of one inbound.
      `AnyDataplane` is a dataplane for which an empty selector counts as a match by itself. */
  datatype Target = ADataplane(dataplane: Dataplane) | AnyDataplane(dataplane: Dataplane) | AService(service: string) | SomeTags(tags: Tags)

  /** `Dataplane.MatchTags`: some inbound matches, or the gateway does. */
  predicate MatchesDataplane(selector: Tags, dp: Dataplane) {
    || (exists i :: 0 <= i < |dp.inbound| && Matches(selector, dp.inbound[i].tags))
    || (dp.gateway.Some? && Matches(selector, dp.gateway.value))
  }

  predicate Hits(selector: Tags, target: Target) {
    match target
    case ADataplane(dp) => MatchesDataplane(selector, dp)
    case AnyDataplane(dp) => selector == map[] || MatchesDataplane(selector, dp)
    case AService(service) => Matches(selector, map[SERVICE_TAG := service])
    case SomeTags(tags) => Matches(selector, tags)
  }

  // ---------- the highest rank ----------

  function MatchingRanks(selectors: seq<Tags>, target: Target): seq<Rank> {
    if selectors == [] then []
    else
      var last := selectors[|selectors| - 1];
      MatchingRanks(selectors[..|selectors| - 1], target) + (if Hits(last, target) then [RankOf(last)] else [])
  }

  lemma {:induction false} RanksComeFromSelectors(selectors: seq<Tags>, target: Target, r: Rank)
    ensures r in MatchingRanks(selectors, target) <==> exists s :: s in selectors && Hits(s, target) && RankOf(s) == r
  {
    if selectors != [] {
      var init, last := selectors[..|selectors| - 1], selectors[|selectors| - 1];
      RanksComeFromSelectors(init, target, r);
      assert selectors == init + [last];
    }
  }

  function Higher(best: Option<Rank>, r: Rank): Option<Rank> {
    if best.None? || r.CompareTo(best.value) > 0 then Some(r) else best
  }

  function Highest(ranks: seq<Rank>): Option<Rank> {
    if ranks == [] then None else Higher(Highest(ranks[..|ranks| - 1]), ranks[|ranks| - 1])
  }

  lemma {:induction false} HighestIsMax(ranks: seq<Rank>)
    ensures Highest(ranks).None? <==> ranks == []
    ensures ranks != [] ==> Highest(ranks).value in ranks
    ensures forall r :: r in ranks ==> Highest(ranks).Some? && r.CompareTo(Highest(ranks).value) <= 0
  {
    if ranks != [] {
      HighestIsMax(ranks[..|ranks| - 1]);
      assert ranks == ranks[..|ranks| - 1] + [ranks[|ranks| - 1]];
    }
  }

  // ---------- what is asked of a policy ----------

  /** Which policy governs connections from a dataplane to a service, connections to an inbound with
      certain tags, or a dataplane as a whole? */
  datatype Question = ToService(from: Dataplane, service: string) | ToInbound(tags: Tags) | OfDataplane(dataplane: Dataplane)

  function Combined(ranks: seq<Rank>, source: Rank): (r: seq<Rank>)
    ensures |r| == |ranks| && forall i :: 0 <= i < |r| ==> r[i] == ranks[i].CombinedWith(source)
  {
    seq(|ranks|, i requires 0 <= i < |ranks| => ranks[i].CombinedWith(source))
  }

  function SourceRank(p: Policy, dp: Dataplane): Option<Rank> {
    Highest(MatchingRanks(p.Sources(), ADataplane(dp)))
  }

  /** The ranks a policy is considered with, in the order in which the loops meet them. */
  function Ranks(p: Policy, q: Question): seq<Rank> {
    match q
    case ToService(dp, service) =>
      var source := SourceRank(p, dp);
      if source.None? then [] else Combined(MatchingRanks(p.Destinations(), AService(service)), source.value)
    case ToInbound(tags) => MatchingRanks(p.Destinations(), SomeTags(tags))
    case OfDataplane(dp) => if p.Selectors() == [] then [ZERO_RANK] else MatchingRanks(p.Selectors(), AnyDataplane(dp))
  }

  predicate Applies(p: Policy, q: Question) {
    Ranks(p, q) != []
  }

  function BestRank(p: Policy, q: Question): Rank
    requires Applies(p, q)
  {
    HighestIsMax(Ranks(p, q));
    Highest(Ranks(p, q)).value
  }

  lemma BetterSource(s: Rank, source: Rank, d: Rank, best: Rank)
    requires s.CompareTo(source) <= 0 && d.CombinedWith(source).CompareTo(best) <= 0
    ensures best.CompareTo(d.CombinedWith(s)) >= 0
  {}

  /** For a connection, a policy applies if some source matches the dataplane and some destination
      the service; its rank is the highest that a matching pair of a source and a destination has. */
  lemma ConnectionRankIsBestPair(p: Policy, dp: Dataplane, service: string, s: Tags, d: Tags)
    requires s in p.Sources() && Hits(s, ADataplane(dp)) && d in p.Destinations() && Hits(d, AService(service))
    ensures Applies(p, ToService(dp, service))
    ensures BestRank(p, ToService(dp, service)).CompareTo(RankOf(d).CombinedWith(RankOf(s))) >= 0
  {
    var sources, destinations := MatchingRanks(p.Sources(), ADataplane(dp)), MatchingRanks(p.Destinations(), AService(service));
    RanksComeFromSelectors(p.Sources(), ADataplane(dp), RankOf(s));
    RanksComeFromSelectors(p.Destinations(), AService(service), RankOf(d));
    HighestIsMax(sources);
    hide MatchingRanks, Highest, Hits;
    var source := SourceRank(p, dp).value;
    var k :| 0 <= k < |destinations| && destinations[k] == RankOf(d);
    var all := Ranks(p, ToService(dp, service));
    assert all == Combined(destinations, source);
    HighestIsMax(all);
    assert all[k].CompareTo(BestRank(p, ToService(dp, service))) <= 0;
    hide *;
    BetterSource(RankOf(s), source, RankOf(d), BestRank(p, ToService(dp, service)));
  }

  /** The other half: the rank is that of some matching pair. */
  lemma ConnectionRankIsOfAPair(p: Policy, dp: Dataplane, service: string) returns (s: Tags, d: Tags)
    requires Applies(p, ToService(dp, service))
    ensures s in p.Sources() && Hits(s, ADataplane(dp)) && d in p.Destinations() && Hits(d, AService(service))
    ensures BestRank(p, ToService(dp, service)) == RankOf(d).CombinedWith(RankOf(s))
  {
    var sources, destinations := MatchingRanks(p.Sources(), ADataplane(dp)), MatchingRanks(p.Destinations(), AService(service));
    var all := Ranks(p, ToService(dp, service));
    HighestIsMax(sources);
    HighestIsMax(all);
    var source := SourceRank(p, dp).value;
    hide MatchingRanks, Highest;
    RanksComeFromSelectors(p.Sources(), ADataplane(dp), source);
    s :| s in p.Sources() && Hits(s, ADataplane(dp)) && RankOf(s) == source;
    var k :| 0 <= k < |all| && all[k] == BestRank(p, ToService(dp, service));
    RanksComeFromSelectors(p.Destinations(), AService(service), destinations[k]);
    d :| d in p.Destinations() && Hits(d, AService(service)) && RankOf(d) == destinations[k];
  }

  /** A policy applies to an inbound if some destination matches its tags. It applies to a dataplane
      if it has no selectors, an empty one, or one that matches. */
  lemma WhenPoliciesApply(p: Policy, tags: Tags, dp: Dataplane)
    ensures Applies(p, ToInbound(tags)) <==> exists d :: d in p.Destinations() && Matches(d, tags)
    ensures Applies(p, OfDataplane(dp)) <==>
            p.Selectors() == [] || exists s :: s in p.Selectors() && (s == map[] || MatchesDataplane(s, dp))
  {
    SomeRank(p.Destinations(), SomeTags(tags));
    SomeRank(p.Selectors(), AnyDataplane(dp));
    hide MatchingRanks, MatchesDataplane, Matches;
  }

  lemma {:induction false} SomeRank(selectors: seq<Tags>, target: Target)
    ensures MatchingRanks(selectors, target) != [] <==> exists s :: s in selectors && Hits(s, target)
  {
    if selectors != [] {
      var init, last := selectors[..|selectors| - 1], selectors[|selectors| - 1];
      SomeRank(init, target);
      assert selectors == init + [last];
    }
  }

  // ---------- the first of the best candidates ----------

  /** A policy, given by its position in the sorted list, and a rank it is considered with. */
  datatype Candidate = Candidate(index: nat, created: int, rank: Rank)

  /** Strictly more specific, or as specific and created later. */
  predicate Better(a: Candidate, b: Candidate) {
    var order := a.rank.CompareTo(b.rank);
    order > 0 || (order == 0 && a.created > b.created)
  }

  function Pick(best: Option<Candidate>, c: Candidate): Option<Candidate> {
    if best.None? || Better(c, best.value) then Some(c) else best
  }

  /** What a loop that keeps the best candidate so far ends with. */
  function FirstBest(cs: seq<Candidate>): Option<Candidate> {
    if cs == [] then None else Pick(FirstBest(cs[..|cs| - 1]), cs[|cs| - 1])
  }

  lemma FirstBestSnoc(cs: seq<Candidate>, c: Candidate)
    ensures FirstBest(cs + [c]) == Pick(FirstBest(cs), c)
  {
    assert (cs + [c])[..|cs|] == cs;
  }

  /** Candidate `m` is not worse than any other and better than every earlier one. */
  ghost predicate IsFirstBest(cs: seq<Candidate>, m: int) {
    && 0 <= m < |cs|
    && (forall j :: 0 <= j < m ==> Better(cs[m], cs[j]))
    && (forall j :: 0 <= j < |cs| ==> !Better(cs[j], cs[m]))
  }

  lemma {:induction false} FirstBestIsMax(cs: seq<Candidate>) returns (m: nat)
    requires cs != []
    ensures IsFirstBest(cs, m) && FirstBest(cs) == Some(cs[m])
  {
    var init, last := cs[..|cs| - 1], cs[|cs| - 1];
    if init == [] {
      m := 0;
    } else {
      m := FirstBestIsMax(init);
      assert forall j :: 0 <= j < |init| ==> cs[j] == init[j];
      if Better(last, init[m]) {
        m := |cs| - 1;
      }
    }
  }

  function CandidatesOf(index: nat, created: int, ranks: seq<Rank>): (cs: seq<Candidate>)
    ensures |cs| == |ranks| && forall i :: 0 <= i < |cs| ==> cs[i] == Candidate(index, created, ranks[i])
  {
    seq(|ranks|, i requires 0 <= i < |ranks| => Candidate(index, created, ranks[i]))
  }

  function Candidates(ps: seq<Policy>, q: Question): seq<Candidate> {
    if ps == [] then []
    else
      var i := |ps| - 1;
      Candidates(ps[..i], q) + CandidatesOf(i, ps[i].created, Ranks(ps[i], q))
  }

  /** A candidate stands for a policy that applies and does not overstate its rank. */
  ghost predicate Truthful(ps: seq<Policy>, q: Question, c: Candidate) {
    && c.index < |ps| && c.created == ps[c.index].created
    && Applies(ps[c.index], q) && c.rank.CompareTo(BestRank(ps[c.index], q)) <= 0
  }

  /** Candidates tell the truth and come in the order of their policies. */
  ghost predicate Sound(ps: seq<Policy>, q: Question, cs: seq<Candidate>) {
    && (forall k :: 0 <= k < |cs| ==> Truthful(ps, q, cs[k]))
    && (forall j, k :: 0 <= j < k < |cs| ==> cs[j].index <= cs[k].index)
  }

  /** Every policy that applies is a candidate with its best rank. */
  ghost predicate Complete(ps: seq<Policy>, q: Question, cs: seq<Candidate>) {
    forall i :: 0 <= i < |ps| && Applies(ps[i], q) ==> Candidate(i, ps[i].created, BestRank(ps[i], q)) in cs
  }

  lemma CandidatesLast(ps: seq<Policy>, q: Question)
    requires ps != []
    ensures var i := |ps| - 1; Candidates(ps, q) == Candidates(ps[..i], q) + CandidatesOf(i, ps[i].created, Ranks(ps[i], q))
  {
    hide Ranks, CandidatesOf;
  }

  /** The candidates of one policy. */
  lemma OnePolicyIsSound(ps: seq<Policy>, i: nat, q: Question)
    requires i < |ps|
    ensures var cs := CandidatesOf(i, ps[i].created, Ranks(ps[i], q));
            forall k :: 0 <= k < |cs| ==> cs[k].index == i && Truthful(ps, q, cs[k])
  {
    HighestIsMax(Ranks(ps[i], q));
    hide Ranks, Highest;
  }

  lemma TruthfulGrows(ps: seq<Policy>, n: nat, q: Question, c: Candidate)
    requires n <= |ps| && Truthful(ps[..n], q, c)
    ensures Truthful(ps, q, c) && c.index < n
  {
    hide Applies, BestRank;
    assert ps[..n][c.index] == ps[c.index];
  }

  lemma SoundGrows(ps: seq<Policy>, n: nat, q: Question, before: seq<Candidate>, more: seq<Candidate>)
    requires n <= |ps| && Sound(ps[..n], q, before)
    requires forall k :: 0 <= k < |more| ==> more[k].index == n && Truthful(ps, q, more[k])
    ensures Sound(ps, q, before + more)
  {
    forall k | 0 <= k < |before|
      ensures Truthful(ps, q, before[k]) && before[k].index < n
    {
      TruthfulGrows(ps, n, q, before[k]);
    }
    hide Truthful;
  }

  lemma {:induction false} CandidatesAreSound(ps: seq<Policy>, q: Question)
    ensures Sound(ps, q, Candidates(ps, q))
  {
    if ps != [] {
      hide *;
      var i := |ps| - 1;
      CandidatesAreSound(ps[..i], q);
      CandidatesLast(ps, q);
      OnePolicyIsSound(ps, i, q);
      SoundGrows(ps, i, q, Candidates(ps[..i], q), CandidatesOf(i, ps[i].created, Ranks(ps[i], q)));
    }
  }

  lemma BestIsCandidate(p: Policy, index: nat, q: Question)
    requires Applies(p, q)
    ensures Candidate(index, p.created, BestRank(p, q)) in CandidatesOf(index, p.created, Ranks(p, q))
  {
    var ranks := Ranks(p, q);
    HighestIsMax(ranks);
    hide Ranks, Highest;
    var k :| 0 <= k < |ranks| && ranks[k] == BestRank(p, q);
    assert CandidatesOf(index, p.created, ranks)[k] == Candidate(index, p.created, BestRank(p, q));
  }

  lemma CompleteGrows(ps: seq<Policy>, q: Question, before: seq<Candidate>, more: seq<Candidate>)
    requires ps != [] && Complete(ps[..|ps| - 1], q, before)
    requires var i := |ps| - 1; Applies(ps[i], q) ==> Candidate(i, ps[i].created, BestRank(ps[i], q)) in more
    ensures Complete(ps, q, before + more)
  {
    hide Applies, BestRank;
    forall j | 0 <= j < |ps| && Applies(ps[j], q)
      ensures Candidate(j, ps[j].created, BestRank(ps[j], q)) in before + more
    {
      if j < |ps| - 1 {
        assert ps[..|ps| - 1][j] == ps[j];
      }
    }
  }

  lemma {:induction false} CandidatesAreComplete(ps: seq<Policy>, q: Question)
    ensures Complete(ps, q, Candidates(ps, q))
  {
    if ps != [] {
      hide *;
      var i := |ps| - 1;
      CandidatesAreComplete(ps[..i], q);
      CandidatesLast(ps, q);
      if Applies(ps[i], q) {
        BestIsCandidate(ps[i], i, q);
      }
      CompleteGrows(ps, q, Candidates(ps[..i], q), CandidatesOf(i, ps[i].created, Ranks(ps[i], q)));
    }
  }

  // ---------- the selected policy ----------

  lemma BestIndexOk(ps: seq<Policy>, q: Question)
    ensures var best := FirstBest(Candidates(ps, q)); best.Some? ==> best.value.index < |ps|
  {
    var cs := Candidates(ps, q);
    if cs != [] {
      CandidatesAreSound(ps, q);
      var m := FirstBestIsMax(cs);
    }
  }

  /** What the loops find over policies that are already sorted. */
  function BestOfSorted(sorted: seq<Policy>, q: Question): Option<Policy> {
    BestIndexOk(sorted, q);
    var best := FirstBest(Candidates(sorted, q));
    if best.Some? then Some(sorted[best.value.index]) else None
  }

  function NameOf(p: Policy): string {
    p.name
  }

  function SortedPolicies(ps: seq<Policy>): seq<Policy> {
    SortByName(ps, NameOf)
  }

  function Select(ps: seq<Policy>, q: Question): Option<Policy> {
    BestOfSorted(SortedPolicies(ps), q)
  }

  /** How two policies that apply compare: by rank, then by creation time. */
  function Compare(a: Policy, b: Policy, q: Question): int
    requires Applies(a, q) && Applies(b, q)
  {
    var order := BestRank(a, q).CompareTo(BestRank(b, q));
    if order != 0 then order else a.created - b.created
  }

  lemma BestHasItsRank(ps: seq<Policy>, q: Question, cs: seq<Candidate>, m: nat)
    requires Sound(ps, q, cs) && Complete(ps, q, cs) && IsFirstBest(cs, m)
    ensures cs[m].index < |ps| && Applies(ps[cs[m].index], q) && cs[m].rank == BestRank(ps[cs[m].index], q)
  {
    var k := cs[m].index;
    hide Applies, BestRank;
    var a :| 0 <= a < |cs| && cs[a] == Candidate(k, ps[k].created, BestRank(ps[k], q));
    assert !Better(cs[a], cs[m]);
    CompareIsTotalOrder(cs[m].rank, cs[a].rank, cs[a].rank);
  }

  lemma BestIsNotBeaten(ps: seq<Policy>, q: Question, cs: seq<Candidate>, m: nat, j: nat)
    requires Sound(ps, q, cs) && Complete(ps, q, cs) && IsFirstBest(cs, m)
    requires j < |ps| && Applies(ps[j], q)
    ensures cs[m].index < |ps| && Applies(ps[cs[m].index], q)
    ensures Compare(ps[cs[m].index], ps[j], q) >= 0
    ensures j < cs[m].index ==> Compare(ps[cs[m].index], ps[j], q) > 0
  {
    hide Applies, BestRank, Better, Complete;
    BestHasItsRank(ps, q, cs, m);
    var k := cs[m].index;
    assert cs[m].created == ps[k].created by {
      assert Truthful(ps, q, cs[m]);
    }
    hide Truthful;
    var b := CandidateAt(ps, q, cs, j);
    assert j < k ==> b < m;
    hide Sound;
    assert !Better(cs[b], cs[m]) && (j < k ==> Better(cs[m], cs[b]));
    hide IsFirstBest;
    BetterCompares(ps[k], ps[j], q, cs[m], cs[b]);
  }

  lemma CandidateAt(ps: seq<Policy>, q: Question, cs: seq<Candidate>, j: nat) returns (b: nat)
    requires Complete(ps, q, cs) && j < |ps| && Applies(ps[j], q)
    ensures b < |cs| && cs[b] == Candidate(j, ps[j].created, BestRank(ps[j], q))
  {
    hide Applies, BestRank;
    b :| 0 <= b < |cs| && cs[b] == Candidate(j, ps[j].created, BestRank(ps[j], q));
  }

  lemma BetterCompares(a: Policy, b: Policy, q: Question, ca: Candidate, cb: Candidate)
    requires Applies(a, q) && Applies(b, q)
    requires ca.created == a.created && ca.rank == BestRank(a, q) && cb.created == b.created && cb.rank == BestRank(b, q)
    ensures !Better(cb, ca) <==> Compare(a, b, q) >= 0
    ensures Better(ca, cb) <==> Compare(a, b, q) > 0
  {
    hide Applies, BestRank;
    CompareIsTotalOrder(ca.rank, cb.rank, cb.rank);
  }

  /** Position `k` holds a policy that applies; nothing that applies compares higher, and what
      compares equal comes later. */
  ghost predicate IsFirstMax(ps: seq<Policy>, q: Question, k: int) {
    && 0 <= k < |ps| && Applies(ps[k], q)
    && forall j :: 0 <= j < |ps| && Applies(ps[j], q) ==>
         && Compare(ps[k], ps[j], q) >= 0
         && (j < k ==> Compare(ps[k], ps[j], q) > 0)
  }

  lemma NoCandidates(ps: seq<Policy>, q: Question, cs: seq<Candidate>)
    requires Sound(ps, q, cs) && Complete(ps, q, cs)
    ensures cs == [] <==> forall j :: 0 <= j < |ps| ==> !Applies(ps[j], q)
  {
    hide Applies, BestRank;
    if cs != [] {
      assert Applies(ps[cs[0].index], q);
    }
  }

  lemma FirstBestIsFirstMax(ps: seq<Policy>, q: Question, cs: seq<Candidate>, m: nat)
    requires Sound(ps, q, cs) && Complete(ps, q, cs) && IsFirstBest(cs, m)
    ensures IsFirstMax(ps, q, cs[m].index)
  {
    BestHasItsRank(ps, q, cs, m);
    var k := cs[m].index;
    hide Sound, Complete, IsFirstBest, Applies, BestRank, Compare;
    forall j | 0 <= j < |ps| && Applies(ps[j], q)
      ensures Compare(ps[k], ps[j], q) >= 0
      ensures j < k ==> Compare(ps[k], ps[j], q) > 0
    {
      BestIsNotBeaten(ps, q, cs, m, j);
    }
  }

  /** The selection is a true maximum, and nothing is selected exactly if nothing applies. */
  lemma SelectionIsFirstMax(sorted: seq<Policy>, q: Question) returns (k: nat)
    ensures BestOfSorted(sorted, q).Some? ==> IsFirstMax(sorted, q, k) && BestOfSorted(sorted, q).value == sorted[k]
    ensures BestOfSorted(sorted, q).None? <==> forall j :: 0 <= j < |sorted| ==> !Applies(sorted[j], q)
  {
    hide Sound, Complete, IsFirstMax, Applies;
    var cs := Candidates(sorted, q);
    CandidatesAreSound(sorted, q);
    CandidatesAreComplete(sorted, q);
    NoCandidates(sorted, q, cs);
    k := 0;
    if cs != [] {
      var m := FirstBestIsMax(cs);
      k := cs[m].index;
      hide IsFirstBest;
      FirstBestIsFirstMax(sorted, q, cs, m);
    }
  }

  // ---------- the simple specification ----------

  /** `a` beats `b`: higher rank, else created later, else the smaller name. */
  predicate Beats(a: Policy, b: Policy, q: Question)
    requires Applies(a, q) && Applies(b, q)
  {
    var order := Compare(a, b, q);
    order > 0 || (order == 0 && Less(a.name, b.name))
  }

  /** Among all given policies that apply, `p` beats every other. */
  ghost predicate IsBest(ps: seq<Policy>, q: Question, p: Policy) {
    && p in ps && Applies(p, q)
    && forall other :: other in ps && other != p && Applies(other, q) ==> Beats(p, other, q)
  }

  predicate DistinctNames(ps: seq<Policy>) {
    forall i, j :: 0 <= i < |ps| && 0 <= j < |ps| && i != j ==> ps[i].name != ps[j].name
  }

  lemma DistinctByName(ps: seq<Policy>, a: Policy, b: Policy)
    requires DistinctNames(ps) && a in ps && b in ps && a.name == b.name
    ensures a == b
  {
    var i :| 0 <= i < |ps| && ps[i] == a;
    var j :| 0 <= j < |ps| && ps[j] == b;
  }

  lemma FirstMaxBeats(ps: seq<Policy>, sorted: seq<Policy>, q: Question, k: nat, other: Policy)
    requires DistinctNames(ps) && multiset(ps) == multiset(sorted) && Sorted(sorted, NameOf)
    requires IsFirstMax(sorted, q, k) && other in ps && other != sorted[k] && Applies(other, q)
    ensures Beats(sorted[k], other, q)
  {
    hide Applies, Compare, Less;
    SamePermutation(sorted, ps, other);
    SamePermutation(sorted, ps, sorted[k]);
    var j :| 0 <= j < |sorted| && sorted[j] == other;
    LessIsTotal(sorted[k].name, other.name);
    if sorted[k].name == other.name {
      DistinctByName(ps, sorted[k], other);
    }
    assert j > k ==> !Less(NameOf(sorted[j]), NameOf(sorted[k]));
  }

  lemma SortedOk(ps: seq<Policy>)
    ensures multiset(SortedPolicies(ps)) == multiset(ps) && Sorted(SortedPolicies(ps), NameOf)
  {
    SortPermutes(ps, NameOf);
    SortSorts(ps, NameOf);
  }

  lemma FirstMaxIsBest(ps: seq<Policy>, sorted: seq<Policy>, q: Question, k: nat)
    requires DistinctNames(ps) && multiset(ps) == multiset(sorted) && Sorted(sorted, NameOf) && IsFirstMax(sorted, q, k)
    ensures IsBest(ps, q, sorted[k])
  {
    SamePermutation(sorted, ps, sorted[k]);
    hide Applies, Compare, Beats, Sorted, DistinctNames;
    forall other | other in ps && other != sorted[k] && Applies(other, q)
      ensures Beats(sorted[k], other, q)
    {
      FirstMaxBeats(ps, sorted, q, k, other);
    }
  }

  lemma SelectedIsBest(ps: seq<Policy>, q: Question)
    requires DistinctNames(ps)
    ensures Select(ps, q).Some? ==> IsBest(ps, q, Select(ps, q).value)
    ensures Select(ps, q).None? <==> forall p :: p in ps ==> !Applies(p, q)
  {
    var sorted := SortedPolicies(ps);
    hide Applies, BestOfSorted, SortedPolicies, Sorted, Compare, IsBest, IsFirstMax, DistinctNames;
    SortedOk(ps);
    var k := SelectionIsFirstMax(sorted, q);
    forall p: Policy
      ensures p in ps <==> p in sorted
    {
      SamePermutation(sorted, ps, p);
    }
    if BestOfSorted(sorted, q).Some? {
      FirstMaxIsBest(ps, sorted, q, k);
    }
  }

  lemma BestIsUnique(ps: seq<Policy>, q: Question, a: Policy, b: Policy)
    requires IsBest(ps, q, a) && IsBest(ps, q, b)
    ensures a == b
  {
    LessIsTotal(a.name, b.name);
    CompareIsTotalOrder(BestRank(a, q), BestRank(b, q), BestRank(b, q));
  }

  /** Selection agrees with the simple specification, in both directions. */
  lemma SelectionIsMaximum(ps: seq<Policy>, q: Question, p: Policy)
    requires DistinctNames(ps)
    ensures Select(ps, q) == Some(p) <==> IsBest(ps, q, p)
  {
    SelectedIsBest(ps, q);
    if IsBest(ps, q, p) && Select(ps, q).Some? {
      BestIsUnique(ps, q, p, Select(ps, q).value);
    }
  }

  /** With distinct names the selection does not depend on the order in which policies are given. */
  lemma SelectionIgnoresOrder(ps: seq<Policy>, qs: seq<Policy>, q: Question)
    requires DistinctNames(ps) && multiset(ps) == multiset(qs)
    ensures Select(ps, q) == Select(qs, q)
  {
    DistinctNamesPermute(ps, qs);
    hide Select, Applies, Beats;
    SelectedIsBest(ps, q);
    SelectedIsBest(qs, q);
    forall p: Policy
      ensures p in ps <==> p in qs
    {
      SamePermutation(ps, qs, p);
    }
    if Select(ps, q).Some? {
      var p := Select(ps, q).value;
      assert IsBest(qs, q, p);
      BestIsUnique(qs, q, p, Select(qs, q).value);
    }
  }

  lemma DistinctNamesPermute(ps: seq<Policy>, qs: seq<Policy>)
    requires DistinctNames(ps) && multiset(ps) == multiset(qs)
    ensures DistinctNames(qs)
  {
    forall i, j | 0 <= i < j < |qs|
      ensures qs[i].name != qs[j].name
    {
      SamePermutation(ps, qs, qs[i]);
      SamePermutation(ps, qs, qs[j]);
      if qs[i].name == qs[j].name {
        DistinctByName(ps, qs[i], qs[j]);
        OccursTwice(qs, i, j);
        var a :| 0 <= a < |ps| && ps[a] == qs[i];
        OccursOnce(ps, a);
      }
    }
  }

  lemma OccursTwice(ps: seq<Policy>, i: nat, j: nat)
    requires i < j < |ps| && ps[i] == ps[j]
    ensures multiset(ps)[ps[i]] >= 2
  {
    assert ps == ps[..i] + [ps[i]] + ps[i + 1..j] + [ps[j]] + ps[j + 1..];
  }

  lemma OccursOnce(ps: seq<Policy>, a: nat)
    requires a < |ps| && DistinctNames(ps)
    ensures multiset(ps)[ps[a]] == 1
  {
    var p, before, after := ps[a], ps[..a], ps[a + 1..];
    assert ps == before + [p] + after;
    assert p !in before;
    assert forall k :: 0 <= k < |after| ==> after[k] == ps[a + 1 + k];
    assert p !in after;
    assert p !in multiset(before) && p !in multiset(after);
  }
}
