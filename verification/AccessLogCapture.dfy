/** Deriving the capture configuration of Envoy's HTTP gRPC access log from a format string. */
module AccessLogCapture {
  import opened AccessLogSyntax
  import opened AccessLogFormat

  /** The parts of `HttpGrpcAccessLogConfig` that formats add to. */
  datatype Config = Config(
    requestHeaders: seq<string>, responseHeaders: seq<string>, responseTrailers: seq<string>, filterState: seq<string>)

  predicate NoDuplicates(s: seq<string>) {
    forall i, j :: 0 <= i < j < |s| ==> s[i] != s[j]
  }

  function AppendedToSet(values: seq<string>, dest: seq<string>): seq<string> {
    if values == [] then dest
    else AppendedToSet(values[1..], if values[0] in dest then dest else dest + [values[0]])
  }

  /** What `AppendToSet` guarantees: the old list is a prefix, exactly the new values are added, and
      no duplicate appears. */
  lemma {:induction false} AppendedIsUnion(values: seq<string>, dest: seq<string>)
    ensures dest <= AppendedToSet(values, dest)
    ensures forall v :: v in AppendedToSet(values, dest) <==> v in dest || v in values
    ensures NoDuplicates(dest) ==> NoDuplicates(AppendedToSet(values, dest))
  {
    if values != [] {
      var dest' := if values[0] in dest then dest else dest + [values[0]];
      AppendedIsUnion(values[1..], dest');
      assert values == [values[0]] + values[1..];
    }
  }

  /** `stringList.Contains`. */
  method Contains(list: seq<string>, given: string) returns (found: bool)
    ensures found <==> given in list
  {
    for i := 0 to |list|
      invariant given !in list[..i]
    {
      if list[i] == given {
        return true;
      }
    }
    return false;
  }

  /** `stringList.AppendToSet`. */
  method AppendToSet(values: seq<string>, dest: seq<string>) returns (r: seq<string>)
    ensures r == AppendedToSet(values, dest)
  {
    r := dest;
    assert values[0..] == values;
    for i := 0 to |values|
      invariant AppendedToSet(values[i..], r) == AppendedToSet(values, dest)
    {
      assert values[i..][0] == values[i] && values[i..][1..] == values[i + 1..];
      var found := Contains(r, values[i]);
      if !found {
        r := r + [values[i]];
      }
    }
  }

  /** `HeaderFormatter.GetOperandHeaders`. */
  function OperandHeaders(h: Header): seq<string> {
    (if h.header != "" then [h.header] else []) + (if h.altHeader != "" then [h.altHeader] else [])
  }

  function NotAlwaysCaptured(names: seq<string>): seq<string> {
    if names == [] then []
    else (if IsAlwaysCaptured(names[0]) then [] else [names[0]]) + NotAlwaysCaptured(names[1..])
  }

  lemma {:induction false} NotCapturedMembers(names: seq<string>, v: string)
    ensures v in NotAlwaysCaptured(names) <==> v in names && !IsAlwaysCaptured(v)
  {
    if names != [] {
      NotCapturedMembers(names[1..], v);
      assert names == [names[0]] + names[1..];
      hide IsAlwaysCaptured;
    }
  }

  /** `stringList.Filter` with the predicate used for request headers. */
  method FilterNotCaptured(names: seq<string>) returns (r: seq<string>)
    ensures r == NotAlwaysCaptured(names)
  {
    hide IsAlwaysCaptured;
    r := [];
    assert names[0..] == names;
    for i := 0 to |names|
      invariant r + NotAlwaysCaptured(names[i..]) == NotAlwaysCaptured(names)
    {
      assert names[i..][0] == names[i] && names[i..][1..] == names[i + 1..];
      ghost var rest := NotAlwaysCaptured(names[i + 1..]);
      if !IsAlwaysCaptured(names[i]) {
        assert r + ([names[i]] + rest) == r + [names[i]] + rest;
        r := r + [names[i]];
      } else {
        assert [] + rest == rest;
      }
    }
  }

  /** The headers of each kind that one fragment reads. */
  function Needs(f: Fragment): Config {
    match f
    case RequestHeader(h) => Config(NotAlwaysCaptured(OperandHeaders(h)), [], [], [])
    case ResponseHeader(h) => Config([], OperandHeaders(h), [], [])
    case ResponseTrailer(h) => Config([], [], OperandHeaders(h), [])
    case FilterState(key, _) => Config([], [], [], if key != "" then [key] else [])
    case _ => Config([], [], [], [])
  }

  function Add(needs: Config, c: Config): Config {
    Config(AppendedToSet(needs.requestHeaders, c.requestHeaders), AppendedToSet(needs.responseHeaders, c.responseHeaders),
           AppendedToSet(needs.responseTrailers, c.responseTrailers), AppendedToSet(needs.filterState, c.filterState))
  }

  /** The configuration after all fragments have been asked, in order. */
  function Configured(fs: seq<Fragment>, c: Config): Config {
    if fs == [] then c else Configured(fs[1..], Add(Needs(fs[0]), c))
  }

  class LogConfig {
    var additionalRequestHeaders: seq<string>
    var additionalResponseHeaders: seq<string>
    var additionalResponseTrailers: seq<string>
    var filterStateObjects: seq<string>

    ghost function State(): Config
      reads this
    {
      Config(additionalRequestHeaders, additionalResponseHeaders, additionalResponseTrailers, filterStateObjects)
    }

    /** `ConfigureHttpLog` of one fragment. */
    method ConfigureFragment(f: Fragment)
      modifies this
      ensures State() == Add(Needs(f), old(State()))
    {
      match f
      case RequestHeader(h) =>
        var names := FilterNotCaptured(OperandHeaders(h));
        additionalRequestHeaders := AppendToSet(names, additionalRequestHeaders);
      case ResponseHeader(h) =>
        additionalResponseHeaders := AppendToSet(OperandHeaders(h), additionalResponseHeaders);
      case ResponseTrailer(h) =>
        additionalResponseTrailers := AppendToSet(OperandHeaders(h), additionalResponseTrailers);
      case FilterState(key, _) =>
        if key != "" {
          filterStateObjects := AppendToSet([key], filterStateObjects);
        }
      case _ =>
    }

    /** `AccessLogFormat.ConfigureHttpLog`. */
    method ConfigureHttpLog(fs: seq<Fragment>)
      modifies this
      ensures State() == Configured(fs, old(State()))
    {
      assert fs[0..] == fs;
      for i := 0 to |fs|
        invariant Configured(fs[i..], State()) == Configured(fs, old(State()))
      {
        assert fs[i..][0] == fs[i] && fs[i..][1..] == fs[i + 1..];
        ConfigureFragment(fs[i]);
      }
    }
  }

  // ---------- adequacy ----------

  /** Everything listed in `a` is listed in `b`. */
  ghost predicate Within(a: Config, b: Config) {
    && (forall v :: v in a.requestHeaders ==> v in b.requestHeaders)
    && (forall v :: v in a.responseHeaders ==> v in b.responseHeaders)
    && (forall v :: v in a.responseTrailers ==> v in b.responseTrailers)
    && (forall v :: v in a.filterState ==> v in b.filterState)
  }

  lemma AddWithin(needs: Config, c: Config)
    ensures Within(c, Add(needs, c)) && Within(needs, Add(needs, c))
  {
    AppendedIsUnion(needs.requestHeaders, c.requestHeaders);
    AppendedIsUnion(needs.responseHeaders, c.responseHeaders);
    AppendedIsUnion(needs.responseTrailers, c.responseTrailers);
    AppendedIsUnion(needs.filterState, c.filterState);
  }

  lemma {:induction false} ConfiguredHasAll(fs: seq<Fragment>, c: Config)
    ensures Within(c, Configured(fs, c))
    ensures forall i :: 0 <= i < |fs| ==> Within(Needs(fs[i]), Configured(fs, c))
  {
    if fs != [] {
      AddWithin(Needs(fs[0]), c);
      ConfiguredHasAll(fs[1..], Add(Needs(fs[0]), c));
      forall i | 0 <= i < |fs|
        ensures Within(Needs(fs[i]), Configured(fs, c))
      {
        if i > 0 {
          assert fs[i] == fs[1..][i - 1];
        }
      }
    }
  }

  function Restrict(m: map<string, string>, names: seq<string>): map<string, string> {
    map n | n in m && n in names :: m[n]
  }

  /** What Envoy sends when it captures only the listed headers. */
  function Captured(e: Entry, c: Config): Entry {
    if e.Tcp? then e
    else e.(request := e.request.(headers := Restrict(e.request.headers, c.requestHeaders)),
            responseHeaders := Restrict(e.responseHeaders, c.responseHeaders),
            responseTrailers := Restrict(e.responseTrailers, c.responseTrailers))
  }

  lemma MapLookupCaptured(h: Header, m: map<string, string>, names: seq<string>)
    requires forall v :: v in OperandHeaders(h) ==> v in names
    ensures FormatFromMap(h, Restrict(m, names)) == FormatFromMap(h, m)
  {
    assert h.header != "" ==> h.header in OperandHeaders(h);
    assert h.altHeader != "" ==> h.altHeader in OperandHeaders(h);
  }

  lemma RequestLookupCaptured(r: RequestProperties, names: seq<string>, name: string)
    requires !IsAlwaysCaptured(name) ==> name in names
    ensures GetRequestHeader(r.(headers := Restrict(r.headers, names)), name) == GetRequestHeader(r, name)
  {}

  lemma FragmentCaptured(f: Fragment, e: Entry, c: Config)
    requires Within(Needs(f), c)
    ensures FormatFragment(f, Captured(e, c)) == FormatFragment(f, e)
  {
    if e.Http? {
      match f
      case RequestHeader(h) =>
        assert h.header != "" ==> h.header in OperandHeaders(h);
        assert h.altHeader != "" ==> h.altHeader in OperandHeaders(h);
        NotCapturedMembers(OperandHeaders(h), h.header);
        NotCapturedMembers(OperandHeaders(h), h.altHeader);
        if h.header != "" { RequestLookupCaptured(e.request, c.requestHeaders, h.header); }
        if h.altHeader != "" { RequestLookupCaptured(e.request, c.requestHeaders, h.altHeader); }
      case ResponseHeader(h) => MapLookupCaptured(h, e.responseHeaders, c.responseHeaders);
      case ResponseTrailer(h) => MapLookupCaptured(h, e.responseTrailers, c.responseTrailers);
      case _ =>
    }
  }

  lemma {:induction false} LineCaptured(fs: seq<Fragment>, e: Entry, c: Config)
    requires forall i :: 0 <= i < |fs| ==> Within(Needs(fs[i]), c)
    ensures FormatLine(fs, Captured(e, c)) == FormatLine(fs, e)
  {
    if fs != [] {
      FragmentCaptured(fs[0], e, c);
      LineCaptured(fs[1..], e, c);
    }
  }

  /** Capture adequacy: with the configuration derived from a format, on top of any other, every entry
      formats to the same line (or error) as if all headers and trailers had been captured. */
  lemma CaptureIsAdequate(fs: seq<Fragment>, e: Entry, c: Config)
    ensures FormatLine(fs, Captured(e, Configured(fs, c))) == FormatLine(fs, e)
  {
    ConfiguredHasAll(fs, c);
    LineCaptured(fs, e, Configured(fs, c));
  }

  /** Nothing is captured without need: what is listed was listed before or is read by some fragment. */
  lemma {:induction false} CaptureIsMinimal(fs: seq<Fragment>, c: Config)
    ensures forall v :: v in Configured(fs, c).requestHeaders ==>
              v in c.requestHeaders || exists i :: 0 <= i < |fs| && v in Needs(fs[i]).requestHeaders
    ensures forall v :: v in Configured(fs, c).responseHeaders ==>
              v in c.responseHeaders || exists i :: 0 <= i < |fs| && v in Needs(fs[i]).responseHeaders
    ensures forall v :: v in Configured(fs, c).responseTrailers ==>
              v in c.responseTrailers || exists i :: 0 <= i < |fs| && v in Needs(fs[i]).responseTrailers
  {
    if fs != [] {
      var needs := Needs(fs[0]);
      AppendedIsUnion(needs.requestHeaders, c.requestHeaders);
      AppendedIsUnion(needs.responseHeaders, c.responseHeaders);
      AppendedIsUnion(needs.responseTrailers, c.responseTrailers);
      CaptureIsMinimal(fs[1..], Add(needs, c));
      hide Needs;
      assert forall i :: 0 <= i < |fs| - 1 ==> fs[1..][i] == fs[i + 1];
    }
  }

  /** Lists that began without duplicates stay so, and only grow at the end. */
  lemma {:induction false} ListsStayClean(fs: seq<Fragment>, c: Config)
    ensures c.requestHeaders <= Configured(fs, c).requestHeaders
    ensures c.responseHeaders <= Configured(fs, c).responseHeaders
    ensures c.responseTrailers <= Configured(fs, c).responseTrailers
    ensures NoDuplicates(c.requestHeaders) ==> NoDuplicates(Configured(fs, c).requestHeaders)
    ensures NoDuplicates(c.responseHeaders) ==> NoDuplicates(Configured(fs, c).responseHeaders)
    ensures NoDuplicates(c.responseTrailers) ==> NoDuplicates(Configured(fs, c).responseTrailers)
    ensures NoDuplicates(c.filterState) ==> NoDuplicates(Configured(fs, c).filterState)
  {
    if fs != [] {
      var needs := Needs(fs[0]);
      AppendedIsUnion(needs.requestHeaders, c.requestHeaders);
      AppendedIsUnion(needs.responseHeaders, c.responseHeaders);
      AppendedIsUnion(needs.responseTrailers, c.responseTrailers);
      AppendedIsUnion(needs.filterState, c.filterState);
      hide NoDuplicates, Needs;
      ListsStayClean(fs[1..], Add(needs, c));
    }
  }

  /** Of filter state exactly the objects named by the format are asked for, beside those asked for before. */
  lemma {:induction false} FilterStateIsConfigured(fs: seq<Fragment>, c: Config, key: string)
    ensures key in Configured(fs, c).filterState <==>
            key in c.filterState || exists i :: 0 <= i < |fs| && fs[i].FilterState? && fs[i].key == key && key != ""
  {
    if fs != [] {
      var needs := Needs(fs[0]);
      AppendedIsUnion(needs.filterState, c.filterState);
      assert key in needs.filterState <==> fs[0].FilterState? && fs[0].key == key && key != "";
      hide Needs;
      FilterStateIsConfigured(fs[1..], Add(needs, c), key);
      assert forall i :: 1 <= i < |fs| ==> fs[i] == fs[1..][i - 1];
    }
  }
}
