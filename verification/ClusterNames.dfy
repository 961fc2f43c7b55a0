/** Names of destination clusters, and when they tell destinations apart. */
module ClusterNames {
  import opened Strings
  import opened TagSelectors
  import opened Names

  function Pair(key: string, value: string): string {
    key + "=" + value
  }

  function Itself(s: string): string {
    s
  }

  predicate CleanText(s: string) {
    ',' !in s && '=' !in s && '{' !in s && '}' !in s
  }

  /** No tag uses a character that the names use as punctuation. */
  predicate Clean(tags: Tags) {
    forall k :: k in tags ==> CleanText(k) && CleanText(tags[k])
  }

  /** The keys of all tags but the service, each once, in some order. */
  ghost predicate Enumerates(keys: seq<string>, tags: Tags) {
    && (forall k :: k in keys <==> k in tags && k != SERVICE_TAG)
    && Distinct(keys)
  }

  function PairsFor(keys: seq<string>, tags: Tags): (pairs: seq<string>)
    requires forall k :: k in keys ==> k in tags
    ensures |pairs| == |keys| && forall i :: 0 <= i < |keys| ==> pairs[i] == Pair(keys[i], tags[keys[i]])
  {
    seq(|keys|, i requires 0 <= i < |keys| => Pair(keys[i], tags[keys[i]]))
  }

  /** The pairs of all tags but the service, sorted; two tags may print as the same pair. */
  ghost predicate IsPairs(pairs: seq<string>, tags: Tags) {
    && Sorted(pairs, Itself)
    && exists keys :: Enumerates(keys, tags) && multiset(pairs) == multiset(PairsFor(keys, tags))
  }

  predicate Distinct(keys: seq<string>) {
    forall i, j :: 0 <= i < j < |keys| ==> keys[i] != keys[j]
  }

  function Compose(service: string, pairs: seq<string>): string {
    if pairs == [] then service else service + "{" + Join(pairs, ',') + "}"
  }

  ghost predicate IsClusterName(name: string, service: string, tags: Tags) {
    exists pairs :: IsPairs(pairs, tags) && name == Compose(service, pairs)
  }

  // ---------- the code ----------

  method GetDestinationClusterName(service: string, selector: Tags) returns (name: string)
    ensures IsClusterName(name, service, selector)
  {
    var pairs: seq<string> := [];
    ghost var keys: seq<string> := [];
    var todo := selector.Keys;
    while todo != {}
      invariant todo <= selector.Keys && Distinct(keys)
      invariant forall k :: k in keys <==> k in selector && k !in todo && k != SERVICE_TAG
      invariant pairs == PairsFor(keys, selector)
      decreases todo
    {
      var key :| key in todo;
      todo := todo - {key};
      if key == SERVICE_TAG {
        continue;
      }
      keys := keys + [key];
      pairs := pairs + [Pair(key, selector[key])];
    }
    assert Enumerates(keys, selector);
    SortPermutes(pairs, Itself);
    SortSorts(pairs, Itself);
    if |pairs| == 0 {
      assert IsPairs(pairs, selector) && Compose(service, pairs) == service;
      return service;
    }
    var sorted := SortByName(pairs, Itself);
    assert IsPairs(sorted, selector);
    SamePermutation(sorted, pairs, pairs[0]);
    hide IsPairs, SortByName, Join;
    name := service + "{" + Join(sorted, ',') + "}";
    assert name == Compose(service, sorted);
  }

  lemma PairsAre(pairs: seq<string>, tags: Tags, p: string)
    requires IsPairs(pairs, tags)
    ensures p in pairs <==> exists k :: k in tags && k != SERVICE_TAG && p == Pair(k, tags[k])
  {
    var keys :| Enumerates(keys, tags) && multiset(pairs) == multiset(PairsFor(keys, tags));
    var all := PairsFor(keys, tags);
    SamePermutation(pairs, all, p);
    hide Pair, Sorted;
    if p in all {
      var i :| 0 <= i < |all| && all[i] == p;
      assert keys[i] in keys;
    }
    if k :| k in tags && k != SERVICE_TAG && p == Pair(k, tags[k]) {
      var i :| 0 <= i < |keys| && keys[i] == k;
      assert all[i] == p;
    }
  }

  // ---------- names tell clean destinations apart ----------

  lemma PairsDiffer(k: string, v: string, k': string, v': string)
    requires '=' !in k && '=' !in k' && '=' !in v && '=' !in v' && Pair(k, v) == Pair(k', v')
    ensures k == k' && v == v'
  {
    SplitAfter(k, v, '=');
    SplitAfter(k', v', '=');
    SplitAfter(v, "", '=');
    SplitAfter(v', "", '=');
    hide Split;
    assert [k] + [v] == [k'] + [v'];
    assert ([k] + [v])[0] == k && ([k'] + [v'])[0] == k' && ([k] + [v])[1] == v && ([k'] + [v'])[1] == v';
  }

  predicate CleanPairs(pairs: seq<string>) {
    forall i :: 0 <= i < |pairs| ==> ',' !in pairs[i] && '{' !in pairs[i]
  }

  lemma PairsAreClean(pairs: seq<string>, tags: Tags)
    requires IsPairs(pairs, tags) && Clean(tags)
    ensures CleanPairs(pairs)
  {
    forall i | 0 <= i < |pairs|
      ensures ',' !in pairs[i] && '{' !in pairs[i]
    {
      PairsAre(pairs, tags, pairs[i]);
      var k :| k in tags && k != SERVICE_TAG && pairs[i] == Pair(k, tags[k]);
    }
  }

  /** A name falls apart at the brace into the service and, if there are any, the pairs. */
  lemma SplitName(service: string, pairs: seq<string>)
    requires '{' !in service && CleanPairs(pairs)
    ensures Split(Compose(service, pairs), '{') == if pairs == [] then [service] else [service, Join(pairs, ',') + "}"]
  {
    if pairs == [] {
      SplitAfter(service, "", '{');
    } else {
      var rest := Join(pairs, ',') + "}";
      JoinKeepsOut(pairs, ',', '{');
      SplitAfter(service, rest, '{');
      SplitAfter(rest, "", '{');
      hide Split, Join;
      assert Compose(service, pairs) == service + "{" + rest;
    }
  }

  lemma ComposeIsInjective(s: string, ps: seq<string>, s': string, ps': seq<string>)
    requires '{' !in s && '{' !in s' && CleanPairs(ps) && CleanPairs(ps') && Compose(s, ps) == Compose(s', ps')
    ensures s == s' && ps == ps'
  {
    hide Compose, Split;
    SplitName(s, ps);
    SplitName(s', ps');
    var parts, parts' := if ps == [] then [s] else [s, Join(ps, ',') + "}"], if ps' == [] then [s'] else [s', Join(ps', ',') + "}"];
    assert parts == parts';
    assert parts[0] == s && parts'[0] == s';
    if ps != [] {
      var a, b := Join(ps, ','), Join(ps', ',');
      assert parts[1] == a + "}" && parts'[1] == b + "}";
      assert (a + "}")[..|a|] == a && (b + "}")[..|b|] == b;
      SplitOfJoin(ps, ',');
      SplitOfJoin(ps', ',');
    }
  }

  lemma SamePairsSameTag(pairs: seq<string>, tags: Tags, tags': Tags, k: string)
    requires IsPairs(pairs, tags) && IsPairs(pairs, tags') && Clean(tags) && Clean(tags') && k in tags && k != SERVICE_TAG
    ensures k in tags' && tags'[k] == tags[k]
  {
    var p := Pair(k, tags[k]);
    PairsAre(pairs, tags, p);
    PairsAre(pairs, tags', p);
    var k' :| k' in tags' && k' != SERVICE_TAG && p == Pair(k', tags'[k']);
    PairsDiffer(k, tags[k], k', tags'[k']);
  }

  /** Two destinations with clean tags get the same cluster name only if they have the same tags. */
  lemma NamesTellApart(name: string, tags: Tags, tags': Tags)
    requires SERVICE_TAG in tags && SERVICE_TAG in tags' && Clean(tags) && Clean(tags')
    requires IsClusterName(name, tags[SERVICE_TAG], tags) && IsClusterName(name, tags'[SERVICE_TAG], tags')
    ensures tags == tags'
  {
    var pairs :| IsPairs(pairs, tags) && name == Compose(tags[SERVICE_TAG], pairs);
    var pairs' :| IsPairs(pairs', tags') && name == Compose(tags'[SERVICE_TAG], pairs');
    PairsAreClean(pairs, tags);
    PairsAreClean(pairs', tags');
    assert CleanText(tags[SERVICE_TAG]) && CleanText(tags'[SERVICE_TAG]);
    hide IsPairs, Compose, Clean, CleanPairs;
    ComposeIsInjective(tags[SERVICE_TAG], pairs, tags'[SERVICE_TAG], pairs');
    forall k | k in tags && k != SERVICE_TAG
      ensures k in tags' && tags'[k] == tags[k]
    {
      SamePairsSameTag(pairs, tags, tags', k);
    }
    forall k | k in tags' && k != SERVICE_TAG
      ensures k in tags && tags[k] == tags'[k]
    {
      SamePairsSameTag(pairs, tags', tags, k);
    }
  }

  /** The characters that validation allows in names of tags. */
  predicate IsTagChar(c: char) {
    'a' <= c <= 'z' || 'A' <= c <= 'Z' || '0' <= c <= '9' || c in ['.', '-', '_', ':']
  }

  /** Tags that validation lets pass, as far as their characters are concerned. */
  predicate Validated(tags: Tags) {
    forall k :: k in tags ==> Every(k, IsTagChar) && (Every(tags[k], IsTagChar) || tags[k] == MATCH_ALL)
  }

  lemma ValidatedIsClean(tags: Tags)
    requires Validated(tags)
    ensures Clean(tags)
  {
    forall k | k in tags
      ensures CleanText(k) && CleanText(tags[k])
    {
      TagCharsAreClean(k);
      if tags[k] != MATCH_ALL {
        TagCharsAreClean(tags[k]);
      }
    }
  }

  lemma TagCharsAreClean(s: string)
    requires Every(s, IsTagChar)
    ensures CleanText(s)
  {
    forall c | c in s
      ensures IsTagChar(c)
    {
      var i :| 0 <= i < |s| && s[i] == c;
    }
  }

  lemma OnePair(key: string, value: string, service: string)
    requires key != SERVICE_TAG
    ensures IsPairs([Pair(key, value)], map[SERVICE_TAG := service, key := value])
  {
    var tags := map[SERVICE_TAG := service, key := value];
    hide Pair;
    assert Enumerates([key], tags) && PairsFor([key], tags) == [Pair(key, value)];
  }

  lemma TwoPairs(key: string, value: string, key': string, value': string, service: string)
    requires key != SERVICE_TAG && key' != SERVICE_TAG && key != key' && !Less(Pair(key', value'), Pair(key, value))
    ensures IsPairs([Pair(key, value), Pair(key', value')], map[SERVICE_TAG := service, key := value, key' := value'])
  {
    var tags := map[SERVICE_TAG := service, key := value, key' := value'];
    hide Pair, Less;
    assert Enumerates([key, key'], tags) && PairsFor([key, key'], tags) == [Pair(key, value), Pair(key', value')];
  }

  /** Without validation different destinations can have the same name: a value may look like the end
      of one pair and the whole of another. */
  lemma NamesMayCollide(key: string, value: string, key': string, value': string, service: string) returns (name: string)
    requires key != SERVICE_TAG && key' != SERVICE_TAG && key != key' && !Less(Pair(key', value'), Pair(key, value))
    ensures var one, two := map[SERVICE_TAG := service, key := value + "," + Pair(key', value')], map[SERVICE_TAG := service, key := value, key' := value'];
            one != two && IsClusterName(name, service, one) && IsClusterName(name, service, two)
  {
    var value'' := value + "," + Pair(key', value');
    var one, two := map[SERVICE_TAG := service, key := value''], map[SERVICE_TAG := service, key := value, key' := value'];
    assert key' !in one && key' in two;
    OnePair(key, value'', service);
    TwoPairs(key, value, key', value', service);
    var ps, qs := [Pair(key, value'')], [Pair(key, value), Pair(key', value')];
    assert qs[1..] == [Pair(key', value')];
    assert Join(ps, ',') == Join(qs, ',') by {
      assert key + "=" + (value + "," + Pair(key', value')) == key + "=" + value + "," + Pair(key', value');
    }
    name := Compose(service, ps);
    hide IsPairs, Join, Pair;
    assert name == Compose(service, qs);
  }

  // ---------- names do not depend on the order of tags ----------

  lemma WithoutOne(a: seq<string>, j: nat)
    requires j < |a|
    ensures multiset(a[..j] + a[j + 1..]) == multiset(a) - multiset{a[j]}
  {
    assert a == a[..j] + [a[j]] + a[j + 1..];
  }

  lemma PairsWithout(keys: seq<string>, j: nat, tags: Tags)
    requires j < |keys| && forall k :: k in keys ==> k in tags
    ensures forall k :: k in keys[..j] + keys[j + 1..] ==> k in tags
    ensures multiset(PairsFor(keys[..j] + keys[j + 1..], tags)) == multiset(PairsFor(keys, tags)) - multiset{Pair(keys[j], tags[keys[j]])}
  {
    var all := PairsFor(keys, tags);
    hide Pair;
    assert PairsFor(keys[..j] + keys[j + 1..], tags) == all[..j] + all[j + 1..];
    WithoutOne(all, j);
  }

  function Without(keys: seq<string>, j: nat): seq<string>
    requires j < |keys|
  {
    keys[..j] + keys[j + 1..]
  }

  lemma WithoutPermutes(a: seq<string>, b: seq<string>) returns (j: nat)
    requires multiset(a) == multiset(b) && a != []
    ensures j < |b| && b[j] == a[0] && multiset(Without(a, 0)) == multiset(Without(b, j)) && |Without(a, 0)| == |a| - 1
  {
    SamePermutation(a, b, a[0]);
    j :| 0 <= j < |b| && b[j] == a[0];
    WithoutOne(a, 0);
    WithoutOne(b, j);
  }

  lemma PairsPermuteStep(a: seq<string>, b: seq<string>, j: nat, tags: Tags)
    requires (forall k :: k in a ==> k in tags) && (forall k :: k in b ==> k in tags) && a != [] && j < |b| && b[j] == a[0]
    requires (forall k :: k in Without(a, 0) ==> k in tags) && (forall k :: k in Without(b, j) ==> k in tags)
    requires multiset(PairsFor(Without(a, 0), tags)) == multiset(PairsFor(Without(b, j), tags))
    ensures multiset(PairsFor(a, tags)) == multiset(PairsFor(b, tags))
  {
    var p := Pair(a[0], tags[a[0]]);
    assert p == PairsFor(a, tags)[0] && p == PairsFor(b, tags)[j];
    assert p in multiset(PairsFor(a, tags)) && p in multiset(PairsFor(b, tags));
    hide Pair, PairsFor;
    PairsWithout(a, 0, tags);
    PairsWithout(b, j, tags);
    PutBack(multiset(PairsFor(a, tags)), multiset(PairsFor(b, tags)), p);
  }

  lemma {:induction false} PairsPermute(a: seq<string>, b: seq<string>, tags: Tags)
    requires multiset(a) == multiset(b) && (forall k :: k in a ==> k in tags) && (forall k :: k in b ==> k in tags)
    ensures multiset(PairsFor(a, tags)) == multiset(PairsFor(b, tags))
    decreases |a|
  {
    if a == [] {
      SamePermutation(a, b, "");
    } else {
      hide PairsFor;
      var j := WithoutPermutes(a, b);
      PairsPermute(Without(a, 0), Without(b, j), tags);
      PairsPermuteStep(a, b, j, tags);
    }
  }

  lemma PutBack(a: multiset<string>, b: multiset<string>, x: string)
    requires x in a && x in b && a - multiset{x} == b - multiset{x}
    ensures a == b
  {
    assert a == (a - multiset{x}) + multiset{x};
    assert b == (b - multiset{x}) + multiset{x};
  }

  lemma {:induction false} DistinctBag(a: seq<string>, x: string)
    requires Distinct(a)
    ensures multiset(a)[x] == if x in a then 1 else 0
  {
    if a != [] {
      var init, last := a[..|a| - 1], a[|a| - 1];
      assert a == init + [last];
      DistinctBag(init, x);
    }
  }

  lemma SameBag(a: seq<string>, b: seq<string>)
    requires Distinct(a) && Distinct(b) && forall x :: x in a <==> x in b
    ensures multiset(a) == multiset(b)
  {
    forall x: string
      ensures multiset(a)[x] == multiset(b)[x]
    {
      DistinctBag(a, x);
      DistinctBag(b, x);
    }
  }

  lemma SmallestComesFirst(a: seq<string>, b: seq<string>)
    requires Sorted(a, Itself) && a != [] && b != [] && b[0] in a
    ensures !Less(b[0], a[0])
  {
    var j :| 0 <= j < |a| && a[j] == b[0];
    LessIsTotal(a[0], a[0]);
    assert j > 0 ==> !Less(Itself(a[j]), Itself(a[0]));
  }

  lemma TailBag(a: seq<string>)
    requires a != []
    ensures multiset(a[1..]) == multiset(a) - multiset{a[0]}
  {
    assert a == [a[0]] + a[1..];
  }

  lemma TailSorted(a: seq<string>)
    requires a != [] && Sorted(a, Itself)
    ensures Sorted(a[1..], Itself)
  {
    hide Less;
  }

  lemma {:induction false} SortedIsUnique(a: seq<string>, b: seq<string>)
    requires Sorted(a, Itself) && Sorted(b, Itself) && multiset(a) == multiset(b)
    ensures a == b
  {
    SamePermutation(a, b, "");
    if a != [] {
      SamePermutation(a, b, a[0]);
      SamePermutation(a, b, b[0]);
      SmallestComesFirst(a, b);
      SmallestComesFirst(b, a);
      LessIsTotal(a[0], b[0]);
      hide Less, Sorted;
      TailBag(a);
      TailBag(b);
      TailSorted(a);
      TailSorted(b);
      SortedIsUnique(a[1..], b[1..]);
      assert a == [a[0]] + a[1..] && b == [b[0]] + b[1..];
    }
  }

  /** The name of a destination is unique, in whatever order its tags are visited. */
  lemma NameIsUnique(name: string, name': string, service: string, tags: Tags)
    requires IsClusterName(name, service, tags) && IsClusterName(name', service, tags)
    ensures name == name'
  {
    var pairs :| IsPairs(pairs, tags) && name == Compose(service, pairs);
    var pairs' :| IsPairs(pairs', tags) && name' == Compose(service, pairs');
    var keys :| Enumerates(keys, tags) && multiset(pairs) == multiset(PairsFor(keys, tags));
    var keys' :| Enumerates(keys', tags) && multiset(pairs') == multiset(PairsFor(keys', tags));
    hide Compose;
    SameBag(keys, keys');
    PairsPermute(keys, keys', tags);
    SortedIsUnique(pairs, pairs');
  }

  /** With two more tags the name is the service and, in braces, both tags in order. */
  lemma NameWithTags(name: string, key: string, value: string, key': string, value': string, service: string)
    requires key != SERVICE_TAG && key' != SERVICE_TAG && key != key'
    requires !Less(key' + "=" + value', key + "=" + value)
    requires IsClusterName(name, service, map[SERVICE_TAG := service, key := value, key' := value'])
    ensures name == service + "{" + (key + "=" + value) + "," + (key' + "=" + value') + "}"
  {
    TwoPairs(key, value, key', value', service);
    hide IsPairs, Less;
    var pairs := [Pair(key, value), Pair(key', value')];
    ComposeTwo(service, pairs[0], pairs[1]);
    assert IsClusterName(Compose(service, pairs), service, map[SERVICE_TAG := service, key := value, key' := value']);
    hide IsClusterName, Compose;
    NameIsUnique(name, Compose(service, pairs), service, map[SERVICE_TAG := service, key := value, key' := value']);
  }

  lemma ComposeTwo(service: string, a: string, b: string)
    ensures Compose(service, [a, b]) == service + "{" + a + "," + b + "}"
  {
    assert [a, b][1..] == [b];
    assert Join([a, b], ',') == a + [','] + b;
    assert service + "{" + (a + [','] + b) + "}" == service + "{" + a + "," + b + "}";
  }
}
