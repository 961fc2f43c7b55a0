/** Byte-wise order of names and stable sorting by name. */
module Names {

  /** Go's `<` on strings. */
  predicate Less(a: string, b: string) {
    if b == "" then false
    else if a == "" then true
    else a[0] < b[0] || (a[0] == b[0] && Less(a[1..], b[1..]))
  }

  /** The shorter of two strings comes first if the other continues it; otherwise the first difference decides. */
  lemma {:induction false} LessMeans(a: string, b: string)
    ensures Less(a, b) <==> exists k :: 0 <= k <= |a| && k < |b| && a[..k] == b[..k] && (k == |a| || a[k] < b[k])
  {
    assert a[..0] == b[..0];
    if a != "" && b != "" && a[0] == b[0] {
      var a', b' := a[1..], b[1..];
      LessMeans(a', b');
      if k :| 0 <= k <= |a'| && k < |b'| && a'[..k] == b'[..k] && (k == |a'| || a'[k] < b'[k]) {
        assert a[..k + 1] == [a[0]] + a'[..k] && b[..k + 1] == [b[0]] + b'[..k];
        assert a[..k + 1] == b[..k + 1] && (k + 1 == |a| || a[k + 1] < b[k + 1]);
      }
      if k :| 0 <= k <= |a| && k < |b| && a[..k] == b[..k] && (k == |a| || a[k] < b[k]) {
        assert k > 0;
        assert a'[..k - 1] == a[..k][1..] && b'[..k - 1] == b[..k][1..];
        assert a'[..k - 1] == b'[..k - 1] && (k - 1 == |a'| || a'[k - 1] < b'[k - 1]);
      }
    }
  }

  lemma {:induction false} LessIsTotal(a: string, b: string)
    ensures Less(a, b) || Less(b, a) || a == b
    ensures !(Less(a, b) && Less(b, a)) && !Less(a, a)
    decreases |a|
  {
    if a != "" {
      LessIsTotal(a[1..], a[1..]);
      if b != "" {
        LessIsTotal(a[1..], b[1..]);
        if a[0] == b[0] && a[1..] == b[1..] {
          assert a == [a[0]] + a[1..] && b == [b[0]] + b[1..];
        }
      }
    }
  }

  lemma {:induction false} LessIsTransitive(a: string, b: string, c: string)
    requires Less(a, b) && Less(b, c)
    ensures Less(a, c)
    decreases |a|
  {
    if a != "" && a[0] == b[0] && b[0] == c[0] {
      LessIsTransitive(a[1..], b[1..], c[1..]);
    }
  }

  /** No element's name is smaller than that of an earlier one. */
  predicate Sorted<P>(ps: seq<P>, name: P -> string) {
    forall i, j :: 0 <= i < j < |ps| ==> !Less(name(ps[j]), name(ps[i]))
  }

  /** Put `p` in front of the first element whose name is not smaller: it stays ahead of its equals. */
  function Insert<P>(p: P, ps: seq<P>, name: P -> string): seq<P> {
    if ps == [] || !Less(name(ps[0]), name(p)) then [p] + ps else [ps[0]] + Insert(p, ps[1..], name)
  }

  /** `sort.Stable` by name. */
  function SortByName<P>(ps: seq<P>, name: P -> string): seq<P> {
    if ps == [] then [] else Insert(ps[0], SortByName(ps[1..], name), name)
  }

  lemma {:induction false} InsertPermutes<P>(p: P, ps: seq<P>, name: P -> string)
    ensures multiset(Insert(p, ps, name)) == multiset([p] + ps)
  {
    if ps != [] && Less(name(ps[0]), name(p)) {
      InsertPermutes(p, ps[1..], name);
      assert ps == [ps[0]] + ps[1..];
    }
  }

  lemma {:induction false} SortPermutes<P>(ps: seq<P>, name: P -> string)
    ensures multiset(SortByName(ps, name)) == multiset(ps)
  {
    if ps != [] {
      SortPermutes(ps[1..], name);
      InsertPermutes(ps[0], SortByName(ps[1..], name), name);
      assert ps == [ps[0]] + ps[1..];
    }
  }

  lemma SamePermutation<P>(a: seq<P>, b: seq<P>, x: P)
    requires multiset(a) == multiset(b)
    ensures x in a <==> x in b
    ensures |a| == |b|
  {
    assert x in a <==> x in multiset(a);
    assert x in b <==> x in multiset(b);
    assert |multiset(a)| == |a| && |multiset(b)| == |b|;
  }

  lemma NotLessIsTransitive(a: string, b: string, c: string)
    requires !Less(b, a) && !Less(c, b)
    ensures !Less(c, a)
  {
    LessIsTotal(a, b);
    LessIsTotal(b, c);
    LessIsTotal(a, c);
    if Less(a, b) && Less(b, c) {
      LessIsTransitive(a, b, c);
    }
  }

  lemma {:induction false} InsertSorts<P>(p: P, ps: seq<P>, name: P -> string)
    requires Sorted(ps, name)
    ensures Sorted(Insert(p, ps, name), name)
  {
    if ps == [] {
    } else if !Less(name(ps[0]), name(p)) {
      forall j | 0 <= j < |ps|
        ensures !Less(name(ps[j]), name(p))
      {
        if j > 0 {
          NotLessIsTransitive(name(p), name(ps[0]), name(ps[j]));
        }
      }
    } else {
      InsertSorts(p, ps[1..], name);
      var rest := Insert(p, ps[1..], name);
      InsertPermutes(p, ps[1..], name);
      forall j | 0 <= j < |rest|
        ensures !Less(name(rest[j]), name(ps[0]))
      {
        SamePermutation(rest, [p] + ps[1..], rest[j]);
        LessIsTotal(name(ps[0]), name(p));
        if rest[j] != p {
          var k :| 0 <= k < |ps[1..]| && ps[1..][k] == rest[j];
          assert ps[k + 1] == rest[j];
        }
      }
    }
  }

  lemma {:induction false} SortSorts<P>(ps: seq<P>, name: P -> string)
    ensures Sorted(SortByName(ps, name), name)
  {
    if ps != [] {
      SortSorts(ps[1..], name);
      InsertSorts(ps[0], SortByName(ps[1..], name), name);
    }
  }

  /** The elements with a given name, in order. */
  function Named<P>(ps: seq<P>, name: P -> string, n: string): seq<P> {
    if ps == [] then [] else (if name(ps[0]) == n then [ps[0]] else []) + Named(ps[1..], name, n)
  }

  lemma {:induction false} InsertIsStable<P>(p: P, ps: seq<P>, name: P -> string, n: string)
    ensures Named(Insert(p, ps, name), name, n) == Named([p] + ps, name, n)
  {
    assert ([p] + ps)[1..] == ps;
    if ps != [] && Less(name(ps[0]), name(p)) {
      LessIsTotal(name(p), name(p));
      InsertIsStable(p, ps[1..], name, n);
      assert ([p] + ps[1..])[1..] == ps[1..];
      assert ([ps[0]] + Insert(p, ps[1..], name))[1..] == Insert(p, ps[1..], name);
    }
  }

  /** Sorting is stable: policies of the same name keep their order. */
  lemma {:induction false} SortIsStable<P>(ps: seq<P>, name: P -> string, n: string)
    ensures Named(SortByName(ps, name), name, n) == Named(ps, name, n)
  {
    if ps != [] {
      SortIsStable(ps[1..], name, n);
      InsertIsStable(ps[0], SortByName(ps[1..], name), name, n);
      assert ([ps[0]] + SortByName(ps[1..], name))[1..] == SortByName(ps[1..], name);
    }
  }
}
