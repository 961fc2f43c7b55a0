/** What a line shows: which header, how much of it, and when there is no line at all. */
module AccessLogValues {
  import opened Basics
  import opened AccessLogSyntax
  import opened AccessLogRoundTrip
  import opened AccessLogFormat

  // ---------- headers ----------

  /** A property that is empty counts as absent. */
  function PropertyOrNone(value: string): Option<string> {
    if value == "" then None else Some(value)
  }

  /** Which property of the request answers for which header name; all other names are looked up among
      the captured headers, where an empty value counts as present. */
  lemma RequestHeaderSources(r: RequestProperties, name: string)
    ensures GetRequestHeader(r, ":method") == PropertyOrNone(r.requestMethod)
    ensures GetRequestHeader(r, ":scheme") == PropertyOrNone(r.scheme)
    ensures GetRequestHeader(r, ":authority") == PropertyOrNone(r.authority)
    ensures GetRequestHeader(r, ":path") == PropertyOrNone(r.path)
    ensures GetRequestHeader(r, "user-agent") == PropertyOrNone(r.userAgent)
    ensures GetRequestHeader(r, "referer") == PropertyOrNone(r.referer)
    ensures GetRequestHeader(r, "x-forwarded-for") == PropertyOrNone(r.forwardedFor)
    ensures GetRequestHeader(r, "x-request-id") == PropertyOrNone(r.requestId)
    ensures GetRequestHeader(r, "x-envoy-original-path") == PropertyOrNone(r.originalPath)
    ensures !IsAlwaysCaptured(name) ==>
              (GetRequestHeader(r, name).Some? <==> name in r.headers) && (name in r.headers ==> GetRequestHeader(r, name).value == r.headers[name])
  {}

  predicate IsHeaderFragment(f: Fragment) {
    f.RequestHeader? || f.ResponseHeader? || f.ResponseTrailer?
  }

  /** What the entry has under a header name, for the kind of headers that the operator reads. */
  function HeaderIn(f: Fragment, e: Entry, name: string): Option<string>
    requires IsHeaderFragment(f)
  {
    if e.Tcp? then None
    else if f.RequestHeader? then GetRequestHeader(e.request, name)
    else
      var m := if f.ResponseHeader? then e.responseHeaders else e.responseTrailers;
      if name in m then Some(m[name]) else None
  }

  /** `v` is `whole`, or if there is a limit, as much of its beginning as the limit allows. */
  predicate IsLimited(v: string, whole: string, limit: nat) {
    v <= whole && |v| == if 0 < limit < |whole| then limit else |whole|
  }

  /** The main header wins whenever it is named and present, whatever the alternative is; the alternative
      counts exactly if the main one is not named or absent; and only the beginning of either is shown if
      there is a limit. TCP entries have no headers. */
  lemma MainHeaderWins(f: Fragment, e: Entry)
    requires IsHeaderFragment(f)
    ensures FormatFragment(f, e).Ok?
    ensures var v, main, alt := FormatFragment(f, e).value, HeaderIn(f, e, f.f.header), HeaderIn(f, e, f.f.altHeader);
            && (f.f.header != "" && main.Some? ==> IsLimited(v, main.value, f.f.maxLength))
            && ((f.f.header == "" || main.None?) && f.f.altHeader != "" && alt.Some? ==> IsLimited(v, alt.value, f.f.maxLength))
            && ((f.f.header == "" || main.None?) && (f.f.altHeader == "" || alt.None?) ==> v == "")
  {
    hide GetRequestHeader;
  }

  /** The operator of the default format: the original path if Envoy has rewritten it, else the path. */
  lemma OriginalPathFirst(e: Entry)
    requires e.Http? && e.request.path != ""
    ensures FormatLine([RequestHeader(Header("x-envoy-original-path", ":path", 0))], e) ==
            Ok(if e.request.originalPath != "" then e.request.originalPath else e.request.path)
  {
    var f := RequestHeader(Header("x-envoy-original-path", ":path", 0));
    MainHeaderWins(f, e);
    RequestHeaderSources(e.request, "");
    OneFragment(f, e);
    hide GetRequestHeader, FormatFragment, FormatLine;
  }

  // ---------- whole lines ----------

  lemma OneFragment(f: Fragment, e: Entry)
    ensures FormatLine([f], e) ==
            if FormatFragment(f, e).Err? then FormatFragment(f, e)
            else Ok(if FormatFragment(f, e).value == "" then "-" else FormatFragment(f, e).value)
  {
    hide FormatFragment;
    assert [f][1..] == [];
    assert forall v: string :: v + "" == v;
  }

  /** The line of a longer format is the lines of its parts one after the other; the first error wins. */
  lemma {:induction false} LinesConcatenate(fs: seq<Fragment>, gs: seq<Fragment>, e: Entry)
    ensures FormatLine(fs + gs, e) ==
            if FormatLine(fs, e).Err? then FormatLine(fs, e)
            else if FormatLine(gs, e).Err? then FormatLine(gs, e)
            else Ok(FormatLine(fs, e).value + FormatLine(gs, e).value)
  {
    hide FormatFragment;
    if fs == [] {
      assert fs + gs == gs;
      assert forall v: string :: "" + v == v;
    } else {
      LinesConcatenate(fs[1..], gs, e);
      assert (fs + gs)[1..] == fs[1..] + gs;
      if FormatLine(fs, e).Ok? && FormatLine(gs, e).Ok? {
        Associative(OrDash(FormatFragment(fs[0], e).value), FormatLine(fs[1..], e).value, FormatLine(gs, e).value);
      }
    }
  }

  /** Text and placeholders stand for themselves. Of time and fields the line shows what the entry has;
      metadata and filter state are not supported. */
  lemma OtherFragments(f: Fragment, e: Entry)
    requires !IsHeaderFragment(f)
    ensures f.TextSpan? ==> FormatFragment(f, e) == Ok(f.text)
    ensures f.Placeholder? ==> FormatFragment(f, e) == Ok("%" + f.command + "%")
    ensures f.StartTime? && e.startTime.Timestamp? ==> FormatFragment(f, e) == Ok(e.startTime.text)
    ensures f.StartTime? && e.startTime.NoTimestamp? ==> FormatFragment(f, e) == Ok("")
    ensures f.Field? && f.command in e.fields ==> FormatFragment(f, e) == e.fields[f.command]
    ensures f.Field? && f.command !in e.fields ==> FormatFragment(f, e) == Ok("")
    ensures f.DynamicMetadata? || f.FilterState? ==> FormatFragment(f, e).Ok? && "UNSUPPORTED_COMMAND(%" <= FormatFragment(f, e).value
  {}

  /** The fragment cannot be formatted: a time that is out of range, or a field that is. */
  predicate Fails(f: Fragment, e: Entry) {
    || (f.StartTime? && e.startTime.BadTimestamp?)
    || (f.Field? && f.command in e.fields && e.fields[f.command].Err?)
  }

  lemma FragmentFails(f: Fragment, e: Entry)
    ensures FormatFragment(f, e).Err? <==> Fails(f, e)
  {
    hide GetRequestHeader, FormatHeader;
  }

  /** There is a line exactly if no fragment fails. */
  lemma {:induction false} LineOrError(fs: seq<Fragment>, e: Entry)
    ensures FormatLine(fs, e).Err? <==> exists i :: 0 <= i < |fs| && Fails(fs[i], e)
  {
    if fs != [] {
      FragmentFails(fs[0], e);
      LineOrError(fs[1..], e);
      hide FormatFragment, Fails;
      assert forall i :: 1 <= i < |fs| ==> fs[i] == fs[1..][i - 1];
      if i :| 0 <= i < |fs[1..]| && Fails(fs[1..][i], e) {
        assert Fails(fs[i + 1], e);
      }
    }
  }
}
