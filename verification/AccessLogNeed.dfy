/** Every header that a format adds to the capture configuration makes a difference to some line. */
module AccessLogNeed {
  import opened Basics
  import opened AccessLogSyntax
  import opened AccessLogFormat
  import opened AccessLogCapture

  datatype HeaderKind = OfRequest | OfResponse | OfTrailer

  function ListOf(c: Config, kind: HeaderKind): seq<string> {
    match kind
    case OfRequest => c.requestHeaders
    case OfResponse => c.responseHeaders
    case OfTrailer => c.responseTrailers
  }

  function Dropped(names: seq<string>, v: string): (r: seq<string>)
    ensures v !in r && forall n :: n in r <==> n in names && n != v
  {
    if names == [] then []
    else
      assert names == [names[0]] + names[1..];
      (if names[0] == v then [] else [names[0]]) + Dropped(names[1..], v)
  }

  /** The configuration without one header. */
  function Drop(c: Config, kind: HeaderKind, v: string): Config {
    match kind
    case OfRequest => c.(requestHeaders := Dropped(c.requestHeaders, v))
    case OfResponse => c.(responseHeaders := Dropped(c.responseHeaders, v))
    case OfTrailer => c.(responseTrailers := Dropped(c.responseTrailers, v))
  }

  /** An entry that has nothing but one header. */
  function Probe(kind: HeaderKind, headers: map<string, string>): Entry {
    Http(RequestProperties("", "", "", "", "", "", "", "", "", if kind.OfRequest? then headers else map[]),
         if kind.OfResponse? then headers else map[], if kind.OfTrailer? then headers else map[], NoTimestamp, map[])
  }

  function With(v: string): map<string, string> {
    map[v := "x"]
  }

  predicate Reads(f: Fragment, kind: HeaderKind, v: string) {
    v in ListOf(Needs(f), kind)
  }

  lemma OperandsAre(h: Header, v: string)
    ensures v in OperandHeaders(h) <==> v != "" && (v == h.header || v == h.altHeader)
  {}

  lemma HeaderFromMap(h: Header, v: string)
    requires v != ""
    ensures FormatFromMap(h, With(v)) == if v in OperandHeaders(h) then "x" else ""
    ensures FormatFromMap(h, map[]) == ""
  {
    OperandsAre(h, v);
  }

  lemma HeaderFromRequest(h: Header, v: string, headers: map<string, string>)
    requires v != "" && !IsAlwaysCaptured(v) && (headers == With(v) || headers == map[])
    ensures var r := Probe(OfRequest, headers).request;
            FormatHeader(h, GetRequestHeader(r, h.header), GetRequestHeader(r, h.altHeader)) ==
            if headers != map[] && v in OperandHeaders(h) then "x" else ""
  {
    OperandsAre(h, v);
    LookupInProbe(h.header, v, headers);
    LookupInProbe(h.altHeader, v, headers);
    hide GetRequestHeader, IsAlwaysCaptured;
  }

  lemma LookupInProbe(name: string, v: string, headers: map<string, string>)
    requires !IsAlwaysCaptured(v) && (headers == With(v) || headers == map[])
    ensures GetRequestHeader(Probe(OfRequest, headers).request, name) == if headers != map[] && name == v then Some("x") else None
  {}

  lemma RequestHeaderNeeds(h: Header, kind: HeaderKind, v: string)
    requires v != "" && (kind.OfRequest? ==> !IsAlwaysCaptured(v))
    ensures var a, b := FormatFragment(RequestHeader(h), Probe(kind, With(v))), FormatFragment(RequestHeader(h), Probe(kind, map[]));
            && a.Ok? && b.Ok?
            && if Reads(RequestHeader(h), kind, v) then a == Ok("x") && b == Ok("") else a == b
  {
    NotCapturedMembers(OperandHeaders(h), v);
    assert v in With(v) && With(v) != map[];
    if kind.OfRequest? {
      HeaderFromRequest(h, v, With(v));
      HeaderFromRequest(h, v, map[]);
    }
    hide GetRequestHeader, NotAlwaysCaptured, FormatHeader, IsAlwaysCaptured, OperandHeaders;
  }

  /** Without the header a fragment that reads it prints a dash, with it the value; other fragments
      print the same. */
  lemma FragmentNeeds(f: Fragment, kind: HeaderKind, v: string)
    requires v != "" && (kind.OfRequest? ==> !IsAlwaysCaptured(v))
    ensures var a, b := FormatFragment(f, Probe(kind, With(v))), FormatFragment(f, Probe(kind, map[]));
            && a.Ok? && b.Ok?
            && if Reads(f, kind, v) then a == Ok("x") && b == Ok("") else a == b
  {
    hide IsAlwaysCaptured;
    match f
    case RequestHeader(h) => RequestHeaderNeeds(h, kind, v);
    case ResponseHeader(h) => HeaderFromMap(h, v);
    case ResponseTrailer(h) => HeaderFromMap(h, v);
    case _ =>
  }

  lemma SameLengthPrefixes(a: string, b: string, x: string, y: string)
    requires |a| == |b| && (a != b || x != y)
    ensures a + x != b + y
  {
    assert (a + x)[..|a|] == a && (b + y)[..|b|] == b && (a + x)[|a|..] == x && (b + y)[|b|..] == y;
  }

  lemma {:induction false} LineNeeds(fs: seq<Fragment>, kind: HeaderKind, v: string)
    requires v != "" && (kind.OfRequest? ==> !IsAlwaysCaptured(v))
    ensures var a, b := FormatLine(fs, Probe(kind, With(v))), FormatLine(fs, Probe(kind, map[]));
            && a.Ok? && b.Ok? && |a.value| == |b.value|
            && ((exists i :: 0 <= i < |fs| && Reads(fs[i], kind, v)) ==> a != b)
  {
    if fs != [] {
      FragmentNeeds(fs[0], kind, v);
      LineNeeds(fs[1..], kind, v);
      var e, e' := Probe(kind, With(v)), Probe(kind, map[]);
      var a, b := OrDash(FormatFragment(fs[0], e).value), OrDash(FormatFragment(fs[0], e').value);
      var x, y := FormatLine(fs[1..], e), FormatLine(fs[1..], e');
      hide FormatFragment, Probe, Reads, IsAlwaysCaptured;
      assert FormatLine(fs, e) == Ok(a + x.value) && FormatLine(fs, e') == Ok(b + y.value);
      hide FormatLine;
      assert forall i :: 0 < i < |fs| ==> fs[i] == fs[1..][i - 1];
      if a != b || x != y {
        SameLengthPrefixes(a, b, x.value, y.value);
      }
    }
  }

  lemma ProbeCaptured(kind: HeaderKind, v: string, c: Config)
    ensures Captured(Probe(kind, With(v)), Drop(c, kind, v)) == Probe(kind, map[])
  {
    var c' := Drop(c, kind, v);
    assert v !in ListOf(c', kind);
    forall names: seq<string> | v !in names
      ensures Restrict(With(v), names) == map[]
    {}
    assert forall names: seq<string> :: Restrict(map[], names) == map[];
  }

  lemma {:induction false} NewIsRead(fs: seq<Fragment>, c: Config, kind: HeaderKind, v: string)
    requires v in ListOf(Configured(fs, c), kind) && v !in ListOf(c, kind)
    ensures exists i :: 0 <= i < |fs| && Reads(fs[i], kind, v)
  {
    CaptureIsMinimal(fs, c);
    hide Configured, Needs;
    match kind
    case OfRequest =>
      var i :| 0 <= i < |fs| && v in Needs(fs[i]).requestHeaders;
      assert Reads(fs[i], kind, v);
    case OfResponse =>
      var i :| 0 <= i < |fs| && v in Needs(fs[i]).responseHeaders;
      assert Reads(fs[i], kind, v);
    case OfTrailer =>
      var i :| 0 <= i < |fs| && v in Needs(fs[i]).responseTrailers;
      assert Reads(fs[i], kind, v);
  }

  lemma ReadIsNamed(f: Fragment, kind: HeaderKind, v: string)
    requires Reads(f, kind, v)
    ensures v != "" && (kind.OfRequest? ==> !IsAlwaysCaptured(v))
  {
    match f
    case RequestHeader(h) =>
      NotCapturedMembers(OperandHeaders(h), v);
      OperandsAre(h, v);
      hide IsAlwaysCaptured, NotAlwaysCaptured;
    case ResponseHeader(h) => OperandsAre(h, v);
    case ResponseTrailer(h) => OperandsAre(h, v);
    case FilterState(_, _) =>
  }

  /** Capture minimality: for every header or trailer that a format adds to the configuration there is
      an entry whose line changes when that one is dropped from the configuration. */
  lemma EveryCapturedHeaderMatters(fs: seq<Fragment>, c: Config, kind: HeaderKind, v: string)
    requires v in ListOf(Configured(fs, c), kind) && v !in ListOf(c, kind)
    ensures exists e :: FormatLine(fs, Captured(e, Drop(Configured(fs, c), kind, v))) != FormatLine(fs, Captured(e, Configured(fs, c)))
  {
    NewIsRead(fs, c, kind, v);
    var i :| 0 <= i < |fs| && Reads(fs[i], kind, v);
    ReadIsNamed(fs[i], kind, v);
    var e := Probe(kind, With(v));
    ProbeCaptured(kind, v, Configured(fs, c));
    CaptureIsAdequate(fs, e, c);
    hide Configured, Captured, Probe, FormatLine, Drop, Reads, IsAlwaysCaptured;
    LineNeeds(fs, kind, v);
    assert FormatLine(fs, Captured(e, Drop(Configured(fs, c), kind, v))) != FormatLine(fs, Captured(e, Configured(fs, c)));
  }
}
