/** Policies for the inbounds of a dataplane. */
module InboundMatcher {
  import opened Basics
  import opened TagSelectors
  import opened Names
  import opened PolicyModel
  import opened PolicyMatcher

  /** `Crashed` is the nil dereference, which ends the call with a panic. */
  datatype Outcome = Selected(policies: map<Interface, Policy>) | Failed(error: string) | Crashed

  /** `GetInboundInterfaces`: all interfaces, or the first error. */
  method InboundInterfaces(inbound: seq<Inbound>) returns (r: Result<seq<Interface>, string>)
    ensures r.Ok? <==> forall i :: 0 <= i < |inbound| ==> inbound[i].iface.Ok?
    ensures r.Ok? ==> |r.value| == |inbound| && forall i :: 0 <= i < |inbound| ==> inbound[i].iface == Ok(r.value[i])
    ensures r.Err? ==> exists i :: 0 <= i < |inbound| && inbound[i].iface == Err(r.error) && forall j :: 0 <= j < i ==> inbound[j].iface.Ok?
  {
    var ifaces: seq<Interface> := [];
    for i := 0 to |inbound|
      invariant |ifaces| == i && forall j :: 0 <= j < i ==> inbound[j].iface == Ok(ifaces[j])
    {
      if inbound[i].iface.Err? {
        return Err(inbound[i].iface.error);
      }
      ifaces := ifaces + [inbound[i].iface.value];
    }
    return Ok(ifaces);
  }

  predicate CrashesOn(sorted: seq<Policy>, tags: Tags) {
    NilDereference(Candidates(sorted, ToInbound(tags)))
  }

  function AddInbound(m: map<Interface, Policy>, iface: Interface, best: Option<Policy>): map<Interface, Policy> {
    if best.Some? then m[iface := best.value] else m
  }

  function InboundMap(sorted: seq<Policy>, inbound: seq<Inbound>, ifaces: seq<Interface>): map<Interface, Policy>
    requires |inbound| == |ifaces|
  {
    if inbound == [] then map[]
    else
      var n := |inbound| - 1;
      AddInbound(InboundMap(sorted, inbound[..n], ifaces[..n]), ifaces[n], BestOfSorted(sorted, ToInbound(inbound[n].tags)))
  }

  lemma InboundMapSnoc(sorted: seq<Policy>, inbound: seq<Inbound>, ifaces: seq<Interface>, i: nat)
    requires i < |inbound| == |ifaces|
    ensures InboundMap(sorted, inbound[..i + 1], ifaces[..i + 1])
         == AddInbound(InboundMap(sorted, inbound[..i], ifaces[..i]), ifaces[i], BestOfSorted(sorted, ToInbound(inbound[i].tags)))
  {
    hide BestOfSorted;
    assert inbound[..i + 1][..i] == inbound[..i] && ifaces[..i + 1][..i] == ifaces[..i];
  }

  method SelectForInbounds(sorted: seq<Policy>, inbound: seq<Inbound>, ifaces: seq<Interface>)
    returns (crashed: bool, m: map<Interface, Policy>)
    requires |inbound| == |ifaces|
    ensures crashed <==> exists i :: 0 <= i < |inbound| && CrashesOn(sorted, inbound[i].tags)
    ensures !crashed ==> m == InboundMap(sorted, inbound, ifaces)
  {
    hide BestOfSorted, Candidates, NilDereference;
    m := map[];
    assert m == InboundMap(sorted, inbound[..0], ifaces[..0]);
    hide InboundMap;
    for i := 0 to |inbound|
      invariant m == InboundMap(sorted, inbound[..i], ifaces[..i])
      invariant forall j :: 0 <= j < i ==> !CrashesOn(sorted, inbound[j].tags)
    {
      var failed, best := SelectForInbound(sorted, inbound[i].tags);
      if failed {
        return true, map[];
      }
      if best.Some? {
        m := m[ifaces[i] := sorted[best.value]];
      }
      InboundMapSnoc(sorted, inbound, ifaces, i);
    }
    assert inbound[..|inbound|] == inbound && ifaces[..|inbound|] == ifaces;
    crashed := false;
  }

  ghost predicate AreInterfaces(ifaces: seq<Interface>, inbound: seq<Inbound>) {
    |ifaces| == |inbound| && forall i :: 0 <= i < |inbound| ==> inbound[i].iface == Ok(ifaces[i])
  }

  method SelectInboundConnectionPolicies(dp: Dataplane, policies: array<Policy>) returns (r: Outcome)
    modifies policies
    ensures policies[..] == SortedPolicies(old(policies[..]))
    ensures r.Failed? <==> exists i :: 0 <= i < |dp.inbound| && dp.inbound[i].iface.Err?
    ensures !r.Failed? ==> (r.Crashed? <==> exists i :: 0 <= i < |dp.inbound| && CrashesOn(policies[..], dp.inbound[i].tags))
    ensures r.Selected? ==> exists ifaces ::
              AreInterfaces(ifaces, dp.inbound) && r.policies == InboundMap(policies[..], dp.inbound, ifaces)
  {
    hide SortedPolicies, BestOfSorted, CrashesOn, InboundMap;
    SortInPlace(policies);
    var parsed := InboundInterfaces(dp.inbound);
    if parsed.Err? {
      return Failed(parsed.error);
    }
    var crashed, m := SelectForInbounds(policies[..], dp.inbound, parsed.value);
    assert AreInterfaces(parsed.value, dp.inbound);
    r := if crashed then Crashed else Selected(m);
  }

  /** Inbound `i` decides about its interface: it has a policy, and no later inbound on the same
      interface has one. */
  ghost predicate Decides(sorted: seq<Policy>, inbound: seq<Inbound>, ifaces: seq<Interface>, i: int)
    requires |inbound| == |ifaces|
  {
    && 0 <= i < |inbound| && BestOfSorted(sorted, ToInbound(inbound[i].tags)).Some?
    && forall j :: i < j < |inbound| && ifaces[j] == ifaces[i] ==> BestOfSorted(sorted, ToInbound(inbound[j].tags)).None?
  }

  /** What the result holds: a decided interface has the policy selected for the inbound that
      decides about it... */
  lemma {:induction false} DecidedIsPresent(sorted: seq<Policy>, inbound: seq<Inbound>, ifaces: seq<Interface>, i: nat)
    requires |inbound| == |ifaces| && Decides(sorted, inbound, ifaces, i)
    ensures ifaces[i] in InboundMap(sorted, inbound, ifaces)
    ensures BestOfSorted(sorted, ToInbound(inbound[i].tags)) == Some(InboundMap(sorted, inbound, ifaces)[ifaces[i]])
  {
    hide BestOfSorted;
    var n := |inbound| - 1;
    if i < n {
      DecidesBefore(sorted, inbound, ifaces, i);
      DecidedIsPresent(sorted, inbound[..n], ifaces[..n], i);
    }
  }

  /** ...and no other interface has one. */
  lemma {:induction false} PresentIsDecided(sorted: seq<Policy>, inbound: seq<Inbound>, ifaces: seq<Interface>, iface: Interface) returns (i: nat)
    requires |inbound| == |ifaces| && iface in InboundMap(sorted, inbound, ifaces)
    ensures Decides(sorted, inbound, ifaces, i) && ifaces[i] == iface
  {
    hide BestOfSorted;
    var n := |inbound| - 1;
    if BestOfSorted(sorted, ToInbound(inbound[n].tags)).Some? && ifaces[n] == iface {
      i := n;
    } else {
      i := PresentIsDecided(sorted, inbound[..n], ifaces[..n], iface);
      DecidesBefore(sorted, inbound, ifaces, i);
    }
  }

  lemma DecidesBefore(sorted: seq<Policy>, inbound: seq<Inbound>, ifaces: seq<Interface>, i: int)
    requires |inbound| == |ifaces| && 0 <= i < |inbound|
    requires var n := |inbound| - 1; BestOfSorted(sorted, ToInbound(inbound[n].tags)).None? || ifaces[n] != ifaces[i]
    ensures var n := |inbound| - 1; Decides(sorted, inbound, ifaces, i) <==> Decides(sorted, inbound[..n], ifaces[..n], i)
  {
    hide BestOfSorted;
  }

  /** With distinct interfaces every inbound gets the policy selected for its own tags. */
  lemma DistinctInterfaces(sorted: seq<Policy>, inbound: seq<Inbound>, ifaces: seq<Interface>, i: nat)
    requires |inbound| == |ifaces| && i < |inbound|
    requires forall j, k :: 0 <= j < k < |ifaces| ==> ifaces[j] != ifaces[k]
    ensures var m, best := InboundMap(sorted, inbound, ifaces), BestOfSorted(sorted, ToInbound(inbound[i].tags));
            best == if ifaces[i] in m then Some(m[ifaces[i]]) else None
  {
    hide BestOfSorted;
    if BestOfSorted(sorted, ToInbound(inbound[i].tags)).Some? {
      DecidedIsPresent(sorted, inbound, ifaces, i);
    } else if ifaces[i] in InboundMap(sorted, inbound, ifaces) {
      var j := PresentIsDecided(sorted, inbound, ifaces, ifaces[i]);
    }
  }

  // ---------- when the code crashes ----------

  predicate NoneMatches(selectors: seq<Tags>, tags: Tags) {
    forall d :: 0 <= d < |selectors| ==> !Matches(selectors[d], tags)
  }

  lemma {:induction false} NoRanks(selectors: seq<Tags>, tags: Tags)
    ensures MatchingRanks(selectors, SomeTags(tags)) == [] <==> NoneMatches(selectors, tags)
  {
    if selectors != [] {
      NoRanks(selectors[..|selectors| - 1], tags);
    }
  }

  predicate NobodyMatches(ps: seq<Policy>, tags: Tags) {
    forall p :: 0 <= p < |ps| ==> NoneMatches(ps[p].Destinations(), tags)
  }

  lemma NobodyMatchesLast(ps: seq<Policy>, tags: Tags)
    requires ps != []
    ensures var i := |ps| - 1; NobodyMatches(ps, tags) <==> NobodyMatches(ps[..i], tags) && NoneMatches(ps[i].Destinations(), tags)
  {
    hide NoneMatches;
    var i := |ps| - 1;
    assert forall p :: 0 <= p < i ==> ps[..i][p] == ps[p];
  }

  lemma NoCandidatesOf(p: Policy, i: nat, tags: Tags)
    ensures CandidatesOf(i, p.created, Ranks(p, ToInbound(tags))) == [] <==> NoneMatches(p.Destinations(), tags)
  {
    NoRanks(p.Destinations(), tags);
    hide MatchingRanks, NoneMatches;
  }

  lemma {:induction false} NoCandidatesFor(ps: seq<Policy>, tags: Tags)
    ensures Candidates(ps, ToInbound(tags)) == [] <==> NobodyMatches(ps, tags)
  {
    if ps != [] {
      hide *;
      var i := |ps| - 1;
      NoCandidatesFor(ps[..i], tags);
      CandidatesLast(ps, ToInbound(tags));
      NoCandidatesOf(ps[i], i, tags);
      NobodyMatchesLast(ps, tags);
    }
  }

  lemma {:induction false} FirstRank(selectors: seq<Tags>, tags: Tags, d: nat)
    requires d < |selectors| && Matches(selectors[d], tags) && NoneMatches(selectors[..d], tags)
    ensures var ranks := MatchingRanks(selectors, SomeTags(tags)); ranks != [] && ranks[0] == RankOf(selectors[d])
  {
    NoRanks(selectors[..d], tags);
    MatchingRanksSnoc(selectors, SomeTags(tags), d);
    MatchingRanksPrefix(selectors, SomeTags(tags), d + 1);
  }

  /** Destination `d` of policy `p` is the first selector that matches. */
  ghost predicate FirstMatch(ps: seq<Policy>, tags: Tags, p: int, d: int) {
    && 0 <= p < |ps| && 0 <= d < |ps[p].Destinations()|
    && Matches(ps[p].Destinations()[d], tags) && NoneMatches(ps[p].Destinations()[..d], tags)
    && NobodyMatches(ps[..p], tags)
  }

  lemma FirstMatchIsFirstCandidate(ps: seq<Policy>, tags: Tags, p: nat, d: nat)
    requires FirstMatch(ps, tags, p, d)
    ensures var cs := Candidates(ps, ToInbound(tags)); cs != [] && cs[0].rank == RankOf(ps[p].Destinations()[d])
  {
    NoCandidatesFor(ps[..p], tags);
    FirstRank(ps[p].Destinations(), tags, d);
    CandidatesSnoc(ps, p, ToInbound(tags));
    CandidatesPrefix(ps, ToInbound(tags), p + 1);
    hide MatchingRanks;
  }

  lemma {:induction false} SomeSelectorIsFirst(selectors: seq<Tags>, tags: Tags) returns (d: nat)
    requires !NoneMatches(selectors, tags)
    ensures d < |selectors| && Matches(selectors[d], tags) && NoneMatches(selectors[..d], tags)
  {
    var n := |selectors| - 1;
    if NoneMatches(selectors[..n], tags) {
      assert forall k :: 0 <= k < n ==> selectors[..n][k] == selectors[k];
      d := n;
    } else {
      d := SomeSelectorIsFirst(selectors[..n], tags);
      assert selectors[..n][..d] == selectors[..d];
    }
  }

  lemma {:induction false} SomePolicyIsFirst(ps: seq<Policy>, tags: Tags) returns (p: nat)
    requires !NobodyMatches(ps, tags)
    ensures p < |ps| && !NoneMatches(ps[p].Destinations(), tags) && NobodyMatches(ps[..p], tags)
  {
    hide NoneMatches;
    var n := |ps| - 1;
    NobodyMatchesLast(ps, tags);
    hide NobodyMatches;
    if NobodyMatches(ps[..n], tags) {
      p := n;
    } else {
      p := SomePolicyIsFirst(ps[..n], tags);
      assert ps[..n][..p] == ps[..p];
    }
  }

  lemma RankIsZero(s: Tags)
    ensures RankOf(s) == ZERO_RANK <==> s == map[]
  {
    KeysSplit(s);
    if RankOf(s) == ZERO_RANK {
      assert |s.Keys| == 0;
      assert s.Keys == {};
    }
  }

  /** The call crashes exactly if the first selector to match is the empty one; in particular never
      if no policy has an empty destination selector. */
  lemma CrashCondition(sorted: seq<Policy>, tags: Tags)
    ensures CrashesOn(sorted, tags) <==> exists p, d :: FirstMatch(sorted, tags, p, d) && sorted[p].Destinations()[d] == map[]
  {
    forall p, d | FirstMatch(sorted, tags, p, d)
      ensures CrashesOn(sorted, tags) <==> sorted[p].Destinations()[d] == map[]
    {
      FirstMatchIsFirstCandidate(sorted, tags, p, d);
      RankIsZero(sorted[p].Destinations()[d]);
    }
    if CrashesOn(sorted, tags) {
      NoCandidatesFor(sorted, tags);
      var p := SomePolicyIsFirst(sorted, tags);
      var d := SomeSelectorIsFirst(sorted[p].Destinations(), tags);
      assert FirstMatch(sorted, tags, p, d);
    }
  }

  /** An input that crashes the code: one policy, in whatever order and whatever the inbound, whose
      first destination selector is empty. */
  lemma EmptySelectorCrashes(p: Policy, tags: Tags)
    requires p.Destinations() != [] && p.Destinations()[0] == map[]
    ensures CrashesOn([p], tags)
  {
    assert FirstMatch([p], tags, 0, 0);
    CrashCondition([p], tags);
  }

  /** Validation of policies requires at least one tag in every destination selector, so validated
      policies, in whatever order they are given, never crash the code. */
  lemma NonEmptySelectorsNeverCrash(policies: seq<Policy>, tags: Tags)
    requires forall p, d :: p in policies && d in p.Destinations() ==> d != map[]
    ensures !CrashesOn(SortedPolicies(policies), tags)
  {
    var sorted := SortedPolicies(policies);
    SortPermutes(policies, NameOf);
    forall p | p in sorted
      ensures p in policies
    {
      SamePermutation(sorted, policies, p);
    }
    hide SortedPolicies;
    forall p, d | FirstMatch(sorted, tags, p, d)
      ensures sorted[p].Destinations()[d] != map[]
    {
      assert sorted[p] in policies && sorted[p].Destinations()[d] in sorted[p].Destinations();
    }
    CrashCondition(sorted, tags);
  }
}
