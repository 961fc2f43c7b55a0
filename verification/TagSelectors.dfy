/** Tag selectors: matching, ranks, and which of two selectors is more specific. */
module TagSelectors {
  import Sets

  type Tags = map<string, string>

  const SERVICE_TAG := "service"
  const MATCH_ALL := "*"

  /** `TagSelector.Matches`. */
  predicate Matches(selector: Tags, tags: Tags) {
    forall t :: t in selector ==> t in tags && (selector[t] == tags[t] || selector[t] == MATCH_ALL)
  }

  method MatchesTags(selector: Tags, tags: Tags) returns (ok: bool)
    ensures ok <==> Matches(selector, tags)
  {
    var todo := selector.Keys;
    while todo != {}
      invariant todo <= selector.Keys
      invariant forall t :: t in selector && t !in todo ==> t in tags && (selector[t] == tags[t] || selector[t] == MATCH_ALL)
      decreases todo
    {
      var tag :| tag in todo;
      if tag !in tags {
        return false;
      }
      if selector[tag] != tags[tag] && selector[tag] != MATCH_ALL {
        return false;
      }
      todo := todo - {tag};
    }
    return true;
  }

  datatype Rank = Rank(exact: nat, wildcard: nat) {
    function CombinedWith(other: Rank): Rank {
      Rank(exact + other.exact, wildcard + other.wildcard)
    }

    function CompareTo(other: Rank): int {
      var total, otherTotal := exact + wildcard, other.exact + other.wildcard;
      if total == otherTotal then exact - other.exact else total - otherTotal
    }
  }

  const ZERO_RANK := Rank(0, 0)

  function ExactKeys(s: Tags): set<string> {
    set t | t in s && s[t] != MATCH_ALL
  }

  function WildcardKeys(s: Tags): set<string> {
    set t | t in s && s[t] == MATCH_ALL
  }

  /** `TagSelector.Rank`: how many tags match exactly and how many by wildcard. */
  function RankOf(s: Tags): Rank {
    Rank(|ExactKeys(s)|, |WildcardKeys(s)|)
  }

  method ComputeRank(s: Tags) returns (r: Rank)
    ensures r == RankOf(s)
  {
    r := ZERO_RANK;
    var todo := s.Keys;
    ghost var exact: set<string>, wildcard: set<string> := {}, {};
    while todo != {}
      invariant todo <= s.Keys
      invariant exact == (set t | t in s && t !in todo && s[t] != MATCH_ALL)
      invariant wildcard == (set t | t in s && t !in todo && s[t] == MATCH_ALL)
      invariant r == Rank(|exact|, |wildcard|)
      decreases todo
    {
      var tag :| tag in todo;
      if s[tag] == MATCH_ALL {
        r := Rank(r.exact, r.wildcard + 1);
        wildcard := wildcard + {tag};
      } else {
        r := Rank(r.exact + 1, r.wildcard);
        exact := exact + {tag};
      }
      todo := todo - {tag};
    }
    assert exact == ExactKeys(s) && wildcard == WildcardKeys(s);
  }

  /** `CompareTo` is a total order: it is zero only between equal ranks, changes sign when its
      arguments are exchanged, and is transitive. */
  lemma CompareIsTotalOrder(a: Rank, b: Rank, c: Rank)
    ensures a.CompareTo(b) == 0 <==> a == b
    ensures a.CompareTo(b) == -b.CompareTo(a)
    ensures a.CompareTo(b) >= 0 && b.CompareTo(c) >= 0 ==> a.CompareTo(c) >= 0
  {}

  /** `CombinedWith` preserves the order, and the empty rank changes nothing. */
  lemma CombinePreservesOrder(a: Rank, b: Rank, c: Rank)
    ensures a.CombinedWith(c).CompareTo(b.CombinedWith(c)) == a.CompareTo(b)
    ensures a.CombinedWith(ZERO_RANK) == a && a.CombinedWith(b) == b.CombinedWith(a)
  {}

  /** Selector `s` has all tags of `t`, with equal values wherever `t` is exact. */
  predicate Refines(s: Tags, t: Tags) {
    forall k :: k in t ==> k in s && (t[k] == MATCH_ALL || s[k] == t[k])
  }

  /** A tag set that `s` matches and that tells `s` and `t` apart if anything does. */
  function Probe(s: Tags, t: Tags): Tags {
    map k | k in s :: if s[k] != MATCH_ALL then s[k] else if k in t then t[k] + "x" else ""
  }

  /** Refining is exactly being more specific: whatever `s` matches, `t` matches too. */
  lemma RefinesMeansMoreSpecific(s: Tags, t: Tags)
    ensures Refines(s, t) <==> forall tags: Tags :: Matches(s, tags) ==> Matches(t, tags)
  {
    if !Refines(s, t) {
      var probe := Probe(s, t);
      assert Matches(s, probe);
      var k :| k in t && !(k in s && (t[k] == MATCH_ALL || s[k] == t[k]));
      if k in s && s[k] == MATCH_ALL {
        assert |t[k] + "x"| != |t[k]|;
      }
      assert !Matches(t, probe);
    }
  }

  lemma KeysSplit(s: Tags)
    ensures |ExactKeys(s)| + |WildcardKeys(s)| == |s.Keys|
  {
    assert ExactKeys(s) !! WildcardKeys(s);
    assert ExactKeys(s) + WildcardKeys(s) == s.Keys;
  }

  /** A more specific selector ranks at least as high, and equally high only if it is the same one. */
  lemma RefinesRanksHigher(s: Tags, t: Tags)
    requires Refines(s, t)
    ensures RankOf(s).CompareTo(RankOf(t)) >= 0
    ensures RankOf(s).CompareTo(RankOf(t)) == 0 <==> s == t
  {
    KeysSplit(s);
    KeysSplit(t);
    Sets.SubsetIsSmaller(t.Keys, s.Keys);
    Sets.SubsetIsSmaller(ExactKeys(t), ExactKeys(s));
    if RankOf(s) == RankOf(t) {
      Sets.SubsetOfSameSize(t.Keys, s.Keys);
      Sets.SubsetOfSameSize(ExactKeys(t), ExactKeys(s));
      forall k | k in s
        ensures k in t && s[k] == t[k]
      {
        assert k in t.Keys;
        assert k in ExactKeys(s) <==> k in ExactKeys(t);
      }
      assert s == t;
    }
  }

  /** How many of the tags have a value other than the wildcard. */
  function ExactCount(s: Tags): nat {
    |set t | t in s && s[t] != MATCH_ALL|
  }

  /** What ranks compare, for a selector or two together: first how many tags there are, then how many of
      them are exact. */
  lemma MoreTagsRankHigher(s: Tags, d: Tags, s': Tags, d': Tags)
    ensures var order := RankOf(s).CombinedWith(RankOf(d)).CompareTo(RankOf(s').CombinedWith(RankOf(d')));
            var tags, tags' := |s| + |d|, |s'| + |d'|;
            var exact, exact' := ExactCount(s) + ExactCount(d), ExactCount(s') + ExactCount(d');
            && (order > 0 <==> tags > tags' || (tags == tags' && exact > exact'))
            && (order == 0 <==> tags == tags' && exact == exact')
  {
    hide RankOf, ExactCount;
    RankCounts(s);
    RankCounts(d);
    RankCounts(s');
    RankCounts(d');
  }

  lemma RankCounts(s: Tags)
    ensures RankOf(s).exact == ExactCount(s) && RankOf(s).exact + RankOf(s).wildcard == |s|
  {
    KeysSplit(s);
    assert |s| == |s.Keys|;
  }
}
