/** Formatting log entries, binding placeholders, and deriving what Envoy has to capture. */
module AccessLogFormat {
  import opened Basics
  import opened AccessLogSyntax
  import opened AccessLogRoundTrip

  // ---------- log entries ----------

  datatype FormatError = InvalidStartTime | InvalidField

  datatype Timestamp = NoTimestamp | BadTimestamp | Timestamp(text: string)

  /** `HTTPRequestProperties`; an empty string stands for an unset property. */
  datatype RequestProperties = RequestProperties(
    requestMethod: string, scheme: string, authority: string, path: string, userAgent: string, referer: string,
    forwardedFor: string, requestId: string, originalPath: string, headers: map<string, string>)

  /** An HTTP or a TCP log entry. How simple fields are rendered is not modelled: `fields` gives the
      outcome for each command, whatever it is. */
  datatype Entry =
    | Http(request: RequestProperties, responseHeaders: map<string, string>, responseTrailers: map<string, string>,
           startTime: Timestamp, fields: map<string, Result<string, FormatError>>)
    | Tcp(startTime: Timestamp, fields: map<string, Result<string, FormatError>>)

  // ---------- header operators ----------

  function Optional(value: string): Option<string> {
    if value != "" then Some(value) else None
  }

  function Lookup(m: map<string, string>, name: string): Option<string> {
    if name in m then Some(m[name]) else None
  }

  /** `RequestHeaders.Get`: pseudo headers and some regular ones are properties of the request. */
  function GetRequestHeader(r: RequestProperties, name: string): Option<string> {
    match name
    case ":method" => Optional(r.requestMethod)
    case ":scheme" => Optional(r.scheme)
    case ":authority" => Optional(r.authority)
    case ":path" => Optional(r.path)
    case "user-agent" => Optional(r.userAgent)
    case "referer" => Optional(r.referer)
    case "x-forwarded-for" => Optional(r.forwardedFor)
    case "x-request-id" => Optional(r.requestId)
    case "x-envoy-original-path" => Optional(r.originalPath)
    case _ => Lookup(r.headers, name)
  }

  predicate IsAlwaysCaptured(name: string) {
    name in {":method", ":scheme", ":authority", ":path", "user-agent", "referer", "x-forwarded-for", "x-request-id",
             "x-envoy-original-path"}
  }

  /** `HeaderFormatter.Format`, given what the two lookups return. */
  function FormatHeader(f: Header, main: Option<string>, alt: Option<string>): string {
    var first := if f.header != "" then main else None;
    var value := if first.Some? then first.value
                 else if f.altHeader != "" && alt.Some? then alt.value else "";
    if f.maxLength > 0 && |value| > f.maxLength then value[..f.maxLength] else value
  }

  function FormatFromMap(f: Header, m: map<string, string>): string {
    FormatHeader(f, Lookup(m, f.header), Lookup(m, f.altHeader))
  }

  // ---------- formatting ----------

  function FormatStartTime(t: Timestamp): Result<string, FormatError> {
    match t
    case NoTimestamp => Ok("")
    case BadTimestamp => Err(InvalidStartTime)
    case Timestamp(text) => Ok(text)
  }

  function FormatField(fields: map<string, Result<string, FormatError>>, command: string): Result<string, FormatError> {
    if command in fields then fields[command] else Ok("")
  }

  /** `FormatHttpLogEntry` and `FormatTcpLogEntry` of each fragment. */
  function FormatFragment(f: Fragment, e: Entry): Result<string, FormatError> {
    match f
    case TextSpan(text) => Ok(text)
    case RequestHeader(h) =>
      Ok(if e.Http? then FormatHeader(h, GetRequestHeader(e.request, h.header), GetRequestHeader(e.request, h.altHeader)) else "")
    case ResponseHeader(h) => Ok(if e.Http? then FormatFromMap(h, e.responseHeaders) else "")
    case ResponseTrailer(h) => Ok(if e.Http? then FormatFromMap(h, e.responseTrailers) else "")
    case DynamicMetadata(_, _, _) => Ok("UNSUPPORTED_COMMAND(%DYNAMIC_METADATA(NAMESPACE:KEY*):Z%)")
    case FilterState(_, _) => Ok("UNSUPPORTED_COMMAND(%FILTER_STATE(KEY):Z%)")
    case StartTime(_) => FormatStartTime(e.startTime)
    case Field(command) => FormatField(e.fields, command)
    case Placeholder(_) => Ok(Print(f))
  }

  function OrDash(value: string): string {
    if value == "" then "-" else value
  }

  /** A whole line: the first error, or all values in order, a dash for each that is empty. */
  function FormatLine(fs: seq<Fragment>, e: Entry): Result<string, FormatError> {
    if fs == [] then Ok("") else Chain(FormatFragment(fs[0], e), FormatLine(fs[1..], e))
  }

  /** One value, then the rest of the line. */
  function Chain(value: Result<string, FormatError>, rest: Result<string, FormatError>): Result<string, FormatError> {
    match value
    case Err(error) => Err(error)
    case Ok(v) => Append(OrDash(v), rest)
  }

  function Append(done: string, r: Result<string, FormatError>): Result<string, FormatError> {
    match r
    case Err(error) => Err(error)
    case Ok(rest) => Ok(done + rest)
  }

  lemma AppendTwice(a: string, b: string, r: Result<string, FormatError>)
    ensures Append(a, Append(b, r)) == Append(a + b, r)
  {
    if r.Ok? {
      assert a + (b + r.value) == a + b + r.value;
    }
  }

  /** The formatting loop of the source. */
  method FormatLogEntry(fs: seq<Fragment>, e: Entry) returns (r: Result<string, FormatError>)
    ensures r == FormatLine(fs, e)
  {
    hide FormatFragment;
    var line := "";
    assert FormatLine(fs, e) == Append(line, FormatLine(fs[0..], e)) by {
      assert fs[0..] == fs;
      assert FormatLine(fs, e).Ok? ==> "" + FormatLine(fs, e).value == FormatLine(fs, e).value;
    }
    for i := 0 to |fs|
      invariant FormatLine(fs, e) == Append(line, FormatLine(fs[i..], e))
    {
      var value := FormatFragment(fs[i], e);
      assert fs[i..][0] == fs[i] && fs[i..][1..] == fs[i + 1..];
      if value.Err? {
        return Err(value.error);
      }
      AppendTwice(line, OrDash(value.value), FormatLine(fs[i + 1..], e));
      line := line + (if value.value == "" then "-" else value.value);
    }
    assert fs[|fs|..] == [] && line + "" == line;
    return Ok(line);
  }

  // ---------- interpolation ----------

  function Variable(variables: map<string, string>, name: string): string {
    if name in variables then variables[name] else ""
  }

  /** Placeholders become text; everything else stays. */
  function InterpolateFragment(f: Fragment, variables: map<string, string>): Fragment {
    if f.Placeholder? then TextSpan(Variable(variables, f.command)) else f
  }

  function Interpolated(fs: seq<Fragment>, variables: map<string, string>): (r: seq<Fragment>)
    ensures |r| == |fs| && forall i :: 0 <= i < |fs| ==> r[i] == InterpolateFragment(fs[i], variables)
  {
    seq(|fs|, i requires 0 <= i < |fs| => InterpolateFragment(fs[i], variables))
  }

  method Interpolate(fs: seq<Fragment>, variables: map<string, string>) returns (r: seq<Fragment>)
    ensures r == Interpolated(fs, variables)
  {
    r := [];
    for i := 0 to |fs|
      invariant |r| == i && forall j :: 0 <= j < i ==> r[j] == InterpolateFragment(fs[j], variables)
    {
      var f := fs[i];
      if f.Placeholder? {
        f := TextSpan(if f.command in variables then variables[f.command] else "");
      }
      r := r + [f];
    }
  }

  /** Some placeholder of the format is bound to text that satisfies `bad`. */
  ghost predicate BindsTo(fs: seq<Fragment>, variables: map<string, string>, bad: string -> bool) {
    exists i :: 0 <= i < |fs| && fs[i].Placeholder? && bad(Variable(variables, fs[i].command))
  }

  predicate HasPercent(s: string) {
    '%' in s
  }

  predicate IsEmpty(s: string) {
    s == ""
  }

  /** Drop empty text and merge neighbouring text. */
  function Merge(fs: seq<Fragment>): seq<Fragment> {
    if fs == [] then []
    else
      var rest := Merge(fs[1..]);
      if !fs[0].TextSpan? then [fs[0]] + rest
      else if fs[0].text == "" then rest
      else if rest != [] && rest[0].TextSpan? then [TextSpan(fs[0].text + rest[0].text)] + rest[1..]
      else [fs[0]] + rest
  }

  function EmptySpans(fs: seq<Fragment>): nat {
    if fs == [] then 0 else (if fs[0] == TextSpan("") then 1 else 0) + EmptySpans(fs[1..])
  }

  lemma PrintUncons(fs: seq<Fragment>)
    requires fs != []
    ensures PrintFormat(fs) == Print(fs[0]) + PrintFormat(fs[1..])
    ensures fs[0].TextSpan? ==> Print(fs[0]) == fs[0].text
  {}

  lemma PrintCons(f: Fragment, fs: seq<Fragment>)
    ensures PrintFormat([f] + fs) == Print(f) + PrintFormat(fs)
    ensures f.TextSpan? ==> Print(f) == f.text
  {
    assert ([f] + fs)[1..] == fs;
  }

  lemma Associative(a: string, b: string, c: string)
    ensures a + (b + c) == a + b + c
  {}

  /** Merging does not change what is printed. */
  lemma {:induction false} MergePrintsAlike(fs: seq<Fragment>)
    ensures PrintFormat(Merge(fs)) == PrintFormat(fs)
  {
    if fs != [] {
      hide Print, PrintFormat;
      var f, rest := fs[0], Merge(fs[1..]);
      MergePrintsAlike(fs[1..]);
      PrintUncons(fs);
      if f.TextSpan? && f.text != "" && rest != [] && rest[0].TextSpan? {
        assert Merge(fs) == [TextSpan(f.text + rest[0].text)] + rest[1..];
        hide Merge;
        PrintUncons(rest);
        PrintCons(TextSpan(f.text + rest[0].text), rest[1..]);
        Associative(f.text, rest[0].text, PrintFormat(rest[1..]));
      } else if f == TextSpan("") {
        assert "" + PrintFormat(fs[1..]) == PrintFormat(fs[1..]);
      } else {
        PrintCons(f, rest);
      }
    }
  }

  /** Canonical but for empty text, which interpolation may introduce. */
  predicate NearlyCanonical(f: Fragment) {
    Canonical(f) || f == TextSpan("")
  }

  lemma {:induction false} MergeIsCanonical(fs: seq<Fragment>)
    requires forall i :: 0 <= i < |fs| ==> NearlyCanonical(fs[i])
    ensures CanonicalFormat(Merge(fs))
  {
    if fs != [] {
      var rest := Merge(fs[1..]);
      MergeIsCanonical(fs[1..]);
      assert NearlyCanonical(fs[0]);
      if fs[0].TextSpan? && fs[0].text != "" && rest != [] && rest[0].TextSpan? {
        var merged := TextSpan(fs[0].text + rest[0].text);
        assert Canonical(rest[0]);
        assert Canonical(merged);
        hide Canonical;
        assert CanonicalFormat(rest[1..]);
        ConsIsCanonical(merged, rest[1..]);
      } else if fs[0] != TextSpan("") {
        ConsIsCanonical(fs[0], rest);
      }
    }
  }

  /** Text with a `%` in it survives merging. */
  lemma {:induction false} MergeKeepsPercent(fs: seq<Fragment>, i: nat) returns (j: nat)
    requires i < |fs| && fs[i].TextSpan? && '%' in fs[i].text
    ensures j < |Merge(fs)| && Merge(fs)[j].TextSpan? && '%' in Merge(fs)[j].text
  {
    var rest := Merge(fs[1..]);
    if i == 0 {
      j := 0;
    } else {
      var k := MergeKeepsPercent(fs[1..], i - 1);
      var glued := fs[0].TextSpan? && fs[0].text != "" && rest != [] && rest[0].TextSpan?;
      if fs[0] == TextSpan("") {
        j := k;
      } else if glued {
        j := k;
        if k == 0 {
          assert Merge(fs)[0].text == fs[0].text + rest[0].text;
        }
      } else {
        j := k + 1;
      }
    }
  }

  // ---------- lines ----------

  lemma LineCons(f: Fragment, fs: seq<Fragment>, e: Entry)
    ensures FormatLine([f] + fs, e) == Chain(FormatFragment(f, e), FormatLine(fs, e))
  {
    assert ([f] + fs)[1..] == fs;
  }

  lemma TextFormats(text: string, e: Entry)
    ensures FormatFragment(TextSpan(text), e) == Ok(text)
  {}

  lemma Uncons(fs: seq<Fragment>)
    requires fs != []
    ensures fs == [fs[0]] + fs[1..]
  {}

  lemma AppendNothing(r: Result<string, FormatError>)
    ensures Append("", r) == r
  {
    if r.Ok? {
      assert "" + r.value == r.value;
    }
  }

  /** How a merged format's line relates to the original's: the same outcome, but for one dash less
      for each empty span. */
  lemma {:induction false} MergeFormatsAlike(fs: seq<Fragment>, e: Entry)
    ensures FormatLine(Merge(fs), e).Ok? <==> FormatLine(fs, e).Ok?
    ensures FormatLine(fs, e).Err? ==> FormatLine(Merge(fs), e) == FormatLine(fs, e)
    ensures FormatLine(fs, e).Ok? ==> |FormatLine(fs, e).value| == |FormatLine(Merge(fs), e).value| + EmptySpans(fs)
    ensures EmptySpans(fs) == 0 ==> FormatLine(Merge(fs), e) == FormatLine(fs, e)
  {
    if fs != [] {
      var f, rest := fs[0], Merge(fs[1..]);
      MergeFormatsAlike(fs[1..], e);
      Uncons(fs);
      LineCons(f, fs[1..], e);
      if f.TextSpan? {
        TextFormats(f.text, e);
        if f.text != "" && rest != [] && rest[0].TextSpan? {
          Uncons(rest);
          LineCons(rest[0], rest[1..], e);
          LineCons(TextSpan(f.text + rest[0].text), rest[1..], e);
          TextFormats(rest[0].text, e);
          TextFormats(f.text + rest[0].text, e);
          MergeKeepsNonEmpty(fs[1..]);
          AppendTwice(f.text, rest[0].text, FormatLine(rest[1..], e));
        } else {
          LineCons(f, rest, e);
          AppendNothing(FormatLine(rest, e));
        }
      } else {
        LineCons(f, rest, e);
      }
      hide FormatFragment, FormatLine;
    }
  }

  lemma {:induction false} MergeKeepsNonEmpty(fs: seq<Fragment>)
    ensures forall i :: 0 <= i < |Merge(fs)| ==> Merge(fs)[i] != TextSpan("")
  {
    if fs != [] {
      MergeKeepsNonEmpty(fs[1..]);
    }
  }
}
