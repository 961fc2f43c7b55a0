/** The canonical printer, and what it shares with the parser. */
module AccessLogRoundTrip {
  import opened Basics
  import opened Strings
  import opened AccessLogSyntax
  import Decimal

  // ---------- printing ----------

  function PrintLimit(maxLength: nat): string {
    if maxLength != 0 then ":" + Decimal.Format(maxLength) else ""
  }

  /** What `HeaderFormatter.String` puts between the parentheses. */
  function HeaderArgs(f: Header): string {
    if f.header != "" || f.altHeader != "" then f.header + (if f.altHeader != "" then "?" + f.altHeader else "") else ""
  }

  /** The segments after the namespace, each with its colon. */
  function PrintPath(path: seq<string>): string {
    if path == [] then "" else ":" + path[0] + PrintPath(path[1..])
  }

  function PrintCall(command: string, args: string, maxLength: nat): string {
    "%" + command + "(" + args + ")" + PrintLimit(maxLength) + "%"
  }

  function PrintCommand(command: string): string {
    "%" + command + "%"
  }

  /** `String` of each fragment. */
  function Print(f: Fragment): string {
    match f
    case TextSpan(text) => text
    case RequestHeader(h) => PrintCall(CMD_REQ, HeaderArgs(h), h.maxLength)
    case ResponseHeader(h) => PrintCall(CMD_RESP, HeaderArgs(h), h.maxLength)
    case ResponseTrailer(h) => PrintCall(CMD_TRAILER, HeaderArgs(h), h.maxLength)
    case DynamicMetadata(namespace, path, maxLength) => PrintCall(CMD_DYNAMIC_METADATA, namespace + PrintPath(path), maxLength)
    case FilterState(key, maxLength) => PrintCall(CMD_FILTER_STATE, key, maxLength)
    case StartTime(format) => if format == "" then PrintCommand(CMD_START_TIME) else PrintCall(CMD_START_TIME, format, 0)
    case Field(command) => PrintCommand(command)
    case Placeholder(command) => PrintCommand(command)
  }

  /** `AccessLogFormat.String`. */
  function PrintFormat(fs: seq<Fragment>): string {
    if fs == [] then "" else Print(fs[0]) + PrintFormat(fs[1..])
  }

  // ---------- what the parser produces ----------

  predicate HeaderNameOk(s: string) {
    ')' !in s && '?' !in s && !HasNewline(s) && ToLower(s) == s
  }

  predicate HeaderOk(f: Header) {
    HeaderNameOk(f.header) && HeaderNameOk(f.altHeader) && f.maxLength <= MAX_INT
  }

  predicate IsOperatorCommand(command: string) {
    command in [CMD_REQ, CMD_RESP, CMD_TRAILER, CMD_DYNAMIC_METADATA, CMD_FILTER_STATE, CMD_START_TIME]
  }

  predicate CommandOk(command: string) {
    command != "" && Every(command, IsCommandChar) && !IsOperatorCommand(command)
  }

  /** Fragments that the parser can produce. */
  predicate Canonical(f: Fragment) {
    match f
    case TextSpan(text) => text != "" && '%' !in text
    case RequestHeader(h) => HeaderOk(h)
    case ResponseHeader(h) => HeaderOk(h)
    case ResponseTrailer(h) => HeaderOk(h)
    case DynamicMetadata(namespace, path, maxLength) =>
      && ')' !in namespace && ':' !in namespace && maxLength <= MAX_INT
      && forall i :: 0 <= i < |path| ==> ')' !in path[i] && ':' !in path[i]
    case FilterState(key, maxLength) => key != "" && ')' !in key && maxLength <= MAX_INT
    case StartTime(format) => ')' !in format && !HasNewlineDirective(format)
    case Field(command) => CommandOk(command) && !IsPlaceholder(command)
    case Placeholder(command) => CommandOk(command) && IsPlaceholder(command)
  }

  /** Text spans are maximal: no two are adjacent. */
  predicate CanonicalFormat(fs: seq<Fragment>) {
    && (forall i :: 0 <= i < |fs| ==> Canonical(fs[i]))
    && (forall i :: 0 <= i < |fs| - 1 ==> !(fs[i].TextSpan? && fs[i + 1].TextSpan?))
  }

  /** A token has no arguments exactly when it has no parentheses. */
  lemma NoArgumentsMeansNoParens(tok: Token)
    requires tok.WellFormed()
    ensures |tok.Raw()| >= 2 && (tok.limit != "" ==> |tok.Raw()| >= |tok.limit| + 3)
    ensures HasNoArguments(tok.Raw(), tok.command, tok.args, tok.limit) <==> !tok.parens
    ensures tok.Raw()[1..|tok.Raw()| - 1] == tok.command <==> !tok.parens && tok.limit == ""
  {
    RawLength(tok);
    var raw := tok.Raw();
    var middle := (if tok.parens then "(" + tok.args + ")" else "") + (if tok.limit != "" then ":" + tok.limit else "");
    assert raw[1..|raw| - 1] == tok.command + middle;
    if tok.limit != "" {
      assert raw[1..|raw| - 1 - (|tok.limit| + 1)] == tok.command + (if tok.parens then "(" + tok.args + ")" else "");
    }
  }

  lemma EveryNotClosing(s: string)
    ensures Every(s, NotClosing) <==> ')' !in s
  {}

  lemma ParsedHeaderIsOk(tok: Token)
    requires tok.WellFormed() && ParseHeader(tok).Ok?
    ensures HeaderOk(ParseHeader(tok).value)
  {
    var parts := Split(tok.args, '?');
    EveryNotClosing(tok.args);
    SplitKeepsOut(tok.args, '?', ')');
    HeaderNameParsed(parts[0]);
    HeaderNameParsed(if |parts| == 2 then parts[1] else "");
  }

  lemma HeaderNameParsed(s: string)
    requires ')' !in s && '?' !in s && !HasNewline(s)
    ensures HeaderNameOk(ToLower(s))
  {
    LowerIsStable(s);
    LowerKeepsOut(s, ')');
    LowerKeepsOut(s, '?');
    LowerKeepsOut(s, '\0');
    LowerKeepsOut(s, '\r');
    LowerKeepsOut(s, '\n');
  }

  lemma ParsedOperatorIsCanonical(tok: Token)
    requires tok.WellFormed() && ParseOperator(tok).Ok?
    ensures Canonical(ParseOperator(tok).value) && !ParseOperator(tok).value.TextSpan?
  {
    EveryNotClosing(tok.args);
    if tok.command in [CMD_REQ, CMD_RESP, CMD_TRAILER] {
      ParsedHeaderIsOk(tok);
    } else if tok.command == CMD_DYNAMIC_METADATA {
      SplitKeepsOut(tok.args, ':', ')');
    }
  }

  lemma ParseFromText(s: string, n: nat)
    requires s != "" && s[0] != '%' && n == Run(s, NotPercent)
    ensures 0 < n <= |s| && '%' !in s[..n] && (s[n..] != "" ==> s[n..][0] == '%')
    ensures ParseFormat(s) == Prepend([TextSpan(s[..n])], ParseFormat(s[n..]))
  {
    hide MatchToken, ParseOperator;
    assert Every(s[..n], NotPercent);
  }

  lemma ParseFromToken(s: string, tok: Token)
    requires s != "" && s[0] == '%' && MatchToken(s) == Some(tok)
    ensures tok.WellFormed() && 3 <= |tok.Raw()| <= |s|
    ensures ParseOperator(tok).Err? ==> ParseFormat(s) == Err(ParseOperator(tok).error)
    ensures ParseOperator(tok).Ok? ==> ParseFormat(s) == Prepend([ParseOperator(tok).value], ParseFormat(s[|tok.Raw()|..]))
  {
    MatchIsRaw(s);
    hide MatchToken, ParseOperator;
  }

  lemma ConsIsCanonical(f: Fragment, fs: seq<Fragment>)
    requires Canonical(f) && CanonicalFormat(fs)
    requires f.TextSpan? && fs != [] ==> !fs[0].TextSpan?
    ensures CanonicalFormat([f] + fs)
  {
    hide Canonical;
  }

  /** Everything the parser produces is canonical. */
  lemma {:induction false} ParsedIsCanonical(s: string)
    requires ParseFormat(s).Ok?
    ensures CanonicalFormat(ParseFormat(s).value)
    ensures s != "" && s[0] == '%' ==> ParseFormat(s).value != [] && !ParseFormat(s).value[0].TextSpan?
    ensures s == "" ==> ParseFormat(s).value == []
    decreases |s|
  {
    if s == "" {
    } else if s[0] != '%' {
      var n := Run(s, NotPercent);
      ParseFromText(s, n);
      hide ParseFormat, CanonicalFormat;
      ParsedIsCanonical(s[n..]);
      ConsIsCanonical(TextSpan(s[..n]), ParseFormat(s[n..]).value);
    } else {
      assert MatchToken(s).Some?;
      var tok := MatchToken(s).value;
      ParseFromToken(s, tok);
      hide ParseFormat, CanonicalFormat, MatchToken, ParseOperator, Canonical;
      ParsedIsCanonical(s[|tok.Raw()|..]);
      ParsedOperatorIsCanonical(tok);
      ConsIsCanonical(ParseOperator(tok).value, ParseFormat(s[|tok.Raw()|..]).value);
    }
  }

  // ---------- printing a canonical fragment gives a token that parses back ----------

  /** The token that prints as a given operator. */
  function TokenOf(f: Fragment): Token
    requires !f.TextSpan?
  {
    match f
    case RequestHeader(h) => Token(CMD_REQ, true, HeaderArgs(h), LimitOf(h.maxLength))
    case ResponseHeader(h) => Token(CMD_RESP, true, HeaderArgs(h), LimitOf(h.maxLength))
    case ResponseTrailer(h) => Token(CMD_TRAILER, true, HeaderArgs(h), LimitOf(h.maxLength))
    case DynamicMetadata(namespace, path, maxLength) =>
      Token(CMD_DYNAMIC_METADATA, true, Join([namespace] + path, ':'), LimitOf(maxLength))
    case FilterState(key, maxLength) => Token(CMD_FILTER_STATE, true, key, LimitOf(maxLength))
    case StartTime(format) => Token(CMD_START_TIME, format != "", format, "")
    case Field(command) => Token(command, false, "", "")
    case Placeholder(command) => Token(command, false, "", "")
  }

  function LimitOf(maxLength: nat): string {
    if maxLength != 0 then Decimal.Format(maxLength) else ""
  }

  lemma {:induction false} JoinIsPath(namespace: string, path: seq<string>)
    ensures Join([namespace] + path, ':') == namespace + PrintPath(path)
    decreases |path|
  {
    if path == [] {
      assert [namespace] + path == [namespace];
    } else {
      assert ([namespace] + path)[1..] == [path[0]] + path[1..];
      JoinIsPath(path[0], path[1..]);
    }
  }

  lemma CallPrintsAlike(command: string, args: string, maxLength: nat)
    ensures Token(command, true, args, LimitOf(maxLength)).Raw() == PrintCall(command, args, maxLength)
  {
    assert "%" + command + ("(" + args + ")") == "%" + command + "(" + args + ")";
  }

  lemma CommandPrintsAlike(command: string)
    ensures Token(command, false, "", "").Raw() == PrintCommand(command)
  {
    assert "%" + command + "" + "" == "%" + command;
  }

  lemma TokenPrintsAlike(f: Fragment)
    requires !f.TextSpan?
    ensures TokenOf(f).Raw() == Print(f)
  {
    hide PrintCall, PrintCommand;
    var tok := TokenOf(f);
    match f
    case RequestHeader(h) => CallPrintsAlike(CMD_REQ, HeaderArgs(h), h.maxLength);
    case ResponseHeader(h) => CallPrintsAlike(CMD_RESP, HeaderArgs(h), h.maxLength);
    case ResponseTrailer(h) => CallPrintsAlike(CMD_TRAILER, HeaderArgs(h), h.maxLength);
    case DynamicMetadata(namespace, path, maxLength) =>
      JoinIsPath(namespace, path);
      CallPrintsAlike(CMD_DYNAMIC_METADATA, namespace + PrintPath(path), maxLength);
    case FilterState(key, maxLength) => CallPrintsAlike(CMD_FILTER_STATE, key, maxLength);
    case StartTime(format) =>
      CommandPrintsAlike(CMD_START_TIME);
      CallPrintsAlike(CMD_START_TIME, format, 0);
    case Field(command) => CommandPrintsAlike(command);
    case Placeholder(command) => CommandPrintsAlike(command);
  }

  // ---------- the matcher finds the token again ----------

  lemma MatchArgsFinds(tok: Token, rest: string)
    requires tok.WellFormed() && (!tok.parens ==> rest == "" || rest[0] != '(')
    ensures MatchArgs((if tok.parens then "(" + tok.args + ")" else "") + rest) == Some((tok.parens, tok.args, rest))
  {
    if tok.parens {
      var s := "(" + tok.args + ")" + rest;
      assert s[1..] == tok.args + (")" + rest);
      RunStops(tok.args, ")" + rest, NotClosing);
      assert s[1..|tok.args| + 1] == tok.args && s[|tok.args| + 2..] == rest;
    } else {
      assert "" + rest == rest;
    }
  }

  lemma MatchLimitFinds(limit: string, rest: string)
    requires Decimal.AllDigits(limit) && rest != "" && rest[0] == '%'
    ensures MatchLimit((if limit != "" then ":" + limit else "") + rest) == Some((limit, rest))
  {
    if limit != "" {
      var s := ":" + limit + rest;
      assert s[1..] == limit + rest;
      RunStops(limit, rest, Decimal.IsDigit);
    } else {
      assert "" + rest == rest;
    }
  }

  /** A token is found at the start of any text that begins with it. */
  function AfterArgs(tok: Token, rest: string): string {
    (if tok.limit != "" then ":" + tok.limit else "") + ("%" + rest)
  }

  function AfterCommand(tok: Token, rest: string): string {
    (if tok.parens then "(" + tok.args + ")" else "") + AfterArgs(tok, rest)
  }

  lemma RawShape(tok: Token, rest: string)
    ensures tok.Raw() + rest == "%" + (tok.command + AfterCommand(tok, rest))
    ensures AfterArgs(tok, rest) != "" && AfterArgs(tok, rest)[0] != '('
    ensures !tok.parens ==> AfterCommand(tok, rest) == AfterArgs(tok, rest)
    ensures AfterCommand(tok, rest) != "" && !IsCommandChar(AfterCommand(tok, rest)[0])
  {
    var args, limit := if tok.parens then "(" + tok.args + ")" else "", if tok.limit != "" then ":" + tok.limit else "";
    Reassociate("%", tok.command, args, limit, "%", rest);
    assert tok.Raw() == "%" + tok.command + args + limit + "%";
    assert args != "" ==> args[0] == '(';
    assert limit != "" ==> limit[0] == ':';
  }

  lemma Reassociate(a: string, b: string, c: string, d: string, e: string, f: string)
    ensures a + b + c + d + e + f == a + (b + (c + (d + (e + f))))
  {}

  lemma Slices(a: string, b: string)
    ensures var s := "%" + (a + b); s[0] == '%' && s[1..] == a + b && s[1..|a| + 1] == a && s[|a| + 1..] == b
  {}

  lemma MatchFinds(tok: Token, rest: string)
    requires tok.WellFormed()
    ensures MatchToken(tok.Raw() + rest) == Some(tok)
  {
    var called := AfterCommand(tok, rest);
    RawShape(tok, rest);
    Slices(tok.command, called);
    RunStops(tok.command, called, IsCommandChar);
    MatchArgsFinds(tok, AfterArgs(tok, rest));
    MatchLimitFinds(tok.limit, "%" + rest);
    hide Run, MatchArgs, MatchLimit, Every, IsCommandChar;
  }

  // ---------- and the operator parser rebuilds the fragment ----------

  lemma LimitParses(maxLength: nat)
    requires maxLength <= MAX_INT
    ensures Decimal.AllDigits(LimitOf(maxLength)) && ParseLimit(LimitOf(maxLength)) == Ok(maxLength)
  {
    if maxLength != 0 {
      Decimal.ValueOfFormat(maxLength);
    }
  }

  lemma HeaderArgsSplit(h: Header)
    requires '?' !in h.header && '?' !in h.altHeader
    ensures Split(HeaderArgs(h), '?') == if h.altHeader != "" then [h.header, h.altHeader] else [h.header]
    ensures ')' !in h.header && ')' !in h.altHeader ==> ')' !in HeaderArgs(h)
  {
    hide Split;
    SplitAfter(h.header, h.altHeader, '?');
    SplitAfter(h.altHeader, "", '?');
    if h.altHeader != "" {
      assert HeaderArgs(h) == h.header + "?" + h.altHeader;
      hide HeaderArgs;
    } else {
      assert HeaderArgs(h) == h.header;
      hide HeaderArgs;
    }
  }

  lemma HeaderParses(command: string, h: Header)
    requires command != "" && Every(command, IsCommandChar) && HeaderOk(h)
    ensures var tok := Token(command, true, HeaderArgs(h), LimitOf(h.maxLength));
            tok.WellFormed() && ParseHeader(tok) == Ok(h)
  {
    var tok := Token(command, true, HeaderArgs(h), LimitOf(h.maxLength));
    LimitParses(h.maxLength);
    EveryNotClosing(tok.args);
    HeaderArgsSplit(h);
    NoArgumentsMeansNoParens(tok);
    hide HeaderArgs, Split, HasNoArguments, LimitOf, Strings.ToLower;
  }

  lemma MetadataParses(namespace: string, path: seq<string>, maxLength: nat)
    requires Canonical(DynamicMetadata(namespace, path, maxLength))
    ensures var tok := Token(CMD_DYNAMIC_METADATA, true, Join([namespace] + path, ':'), LimitOf(maxLength));
            tok.WellFormed() && ParseDynamicMetadata(tok) == Ok(DynamicMetadata(namespace, path, maxLength))
  {
    var parts := [namespace] + path;
    var tok := Token(CMD_DYNAMIC_METADATA, true, Join(parts, ':'), LimitOf(maxLength));
    LimitParses(maxLength);
    JoinKeepsOut(parts, ':', ')');
    SplitOfJoin(parts, ':');
    EveryNotClosing(tok.args);
    NoArgumentsMeansNoParens(tok);
    assert parts[1..] == path;
  }

  lemma FilterStateParses(key: string, maxLength: nat)
    requires Canonical(FilterState(key, maxLength))
    ensures var tok := Token(CMD_FILTER_STATE, true, key, LimitOf(maxLength));
            tok.WellFormed() && ParseFilterState(tok) == Ok(FilterState(key, maxLength))
  {
    var tok := Token(CMD_FILTER_STATE, true, key, LimitOf(maxLength));
    LimitParses(maxLength);
    EveryNotClosing(key);
    NoArgumentsMeansNoParens(tok);
  }

  lemma FieldParses(command: string)
    requires CommandOk(command)
    ensures var tok := Token(command, false, "", "");
            tok.WellFormed() && ParseField(tok) == Ok(if IsPlaceholder(command) then Placeholder(command) else Field(command))
  {
    NoArgumentsMeansNoParens(Token(command, false, "", ""));
  }

  lemma TokenParses(f: Fragment)
    requires Canonical(f) && !f.TextSpan?
    ensures TokenOf(f).WellFormed() && ParseOperator(TokenOf(f)) == Ok(f)
  {
    hide ParseHeader, ParseDynamicMetadata, ParseFilterState, ParseField;
    match f
    case RequestHeader(h) => HeaderParses(CMD_REQ, h);
    case ResponseHeader(h) => HeaderParses(CMD_RESP, h);
    case ResponseTrailer(h) => HeaderParses(CMD_TRAILER, h);
    case DynamicMetadata(namespace, path, maxLength) => MetadataParses(namespace, path, maxLength);
    case FilterState(key, maxLength) => FilterStateParses(key, maxLength);
    case StartTime(format) => EveryNotClosing(format);
    case Field(command) => FieldParses(command);
    case Placeholder(command) => FieldParses(command);
  }

  // ---------- round trips ----------

  lemma PrintStarts(f: Fragment)
    requires Canonical(f)
    ensures Print(f) != "" && (Print(f)[0] == '%' <==> !f.TextSpan?)
  {
    if f.TextSpan? {
      assert f.text[0] in f.text;
    } else {
      TokenPrintsAlike(f);
    }
  }

  /** Parsing what was printed gives the same fragments. */
  lemma {:induction false} PrintedParses(fs: seq<Fragment>)
    requires CanonicalFormat(fs)
    ensures ParseFormat(PrintFormat(fs)) == Ok(fs)
    decreases |fs|
  {
    if fs != [] {
      var f, rest, s := fs[0], PrintFormat(fs[1..]), PrintFormat(fs);
      PrintedParses(fs[1..]);
      PrintStarts(f);
      assert fs == [f] + fs[1..];
      if f.TextSpan? {
        if |fs| > 1 {
          PrintStarts(fs[1]);
        }
        hide Print, Canonical, ParseFormat;
        RunStops(f.text, rest, NotPercent);
        ParseFromText(s, |f.text|);
        assert s[..|f.text|] == f.text && s[|f.text|..] == rest;
      } else {
        TokenPrintsAlike(f);
        TokenParses(f);
        hide Print, Canonical, ParseFormat, TokenOf, MatchToken, ParseOperator;
        MatchFinds(TokenOf(f), rest);
        ParseFromToken(s, TokenOf(f));
        assert s[|TokenOf(f).Raw()|..] == rest;
      }
    }
  }

  /** Round trip: printing the parsed form of any accepted format string and parsing it again gives
      the same fragments. */
  lemma ParsePrintParse(s: string)
    requires ParseFormat(s).Ok?
    ensures ParseFormat(PrintFormat(ParseFormat(s).value)) == ParseFormat(s)
  {
    ParsedIsCanonical(s);
    PrintedParses(ParseFormat(s).value);
  }

  /** The printed form is a normal form: two formats that parse alike print alike, and printing is
      idempotent. */
  lemma PrintIsNormalForm(s: string, t: string)
    requires ParseFormat(s).Ok? && ParseFormat(t).Ok?
    ensures PrintFormat(ParseFormat(s).value) == PrintFormat(ParseFormat(t).value) <==> ParseFormat(s) == ParseFormat(t)
  {
    ParsePrintParse(s);
    ParsePrintParse(t);
  }

  // ---------- nothing is lost ----------

  datatype Piece = Text(text: string) | Operator(token: Token)

  function RawPiece(p: Piece): string {
    match p
    case Text(text) => text
    case Operator(token) => token.Raw()
  }

  function RawText(pieces: seq<Piece>): string {
    if pieces == [] then "" else RawPiece(pieces[0]) + RawText(pieces[1..])
  }

  lemma RawCons(p: Piece, rest: seq<Piece>)
    ensures RawText([p] + rest) == RawPiece(p) + RawText(rest)
  {
    assert ([p] + rest)[1..] == rest;
  }

  predicate ParsesTo(p: Piece, f: Fragment) {
    match p
    case Text(text) => f == TextSpan(text)
    case Operator(token) => token.WellFormed() && ParseOperator(token) == Ok(f)
  }

  /** Piece by piece, the fragments are what the pieces say. */
  ghost predicate AllParse(pieces: seq<Piece>, fs: seq<Fragment>) {
    |pieces| == |fs| && forall i :: 0 <= i < |pieces| ==> ParsesTo(pieces[i], fs[i])
  }

  lemma AllParseCons(p: Piece, f: Fragment, pieces: seq<Piece>, fs: seq<Fragment>)
    requires ParsesTo(p, f) && AllParse(pieces, fs)
    ensures AllParse([p] + pieces, [f] + fs)
  {
    hide ParsesTo;
  }

  lemma TextStep(s: string) returns (n: nat)
    requires s != "" && s[0] != '%' && ParseFormat(s).Ok?
    ensures 0 < n <= |s| && ParseFormat(s[n..]).Ok?
    ensures ParseFormat(s).value == [TextSpan(s[..n])] + ParseFormat(s[n..]).value
  {
    n := Run(s, NotPercent);
    ParseFromText(s, n);
    hide ParseFormat, Run;
  }

  lemma TokenStep(s: string) returns (tok: Token, f: Fragment)
    requires s != "" && s[0] == '%' && ParseFormat(s).Ok?
    ensures 0 < |tok.Raw()| <= |s| && s == tok.Raw() + s[|tok.Raw()|..] && ParsesTo(Operator(tok), f)
    ensures ParseFormat(s[|tok.Raw()|..]).Ok? && ParseFormat(s).value == [f] + ParseFormat(s[|tok.Raw()|..]).value
  {
    assert MatchToken(s).Some?;
    tok := MatchToken(s).value;
    ParseFromToken(s, tok);
    MatchIsRaw(s);
    hide ParseFormat, ParseOperator, MatchToken;
    f := ParseOperator(tok).value;
    assert s == tok.Raw() + s[|tok.Raw()|..];
  }

  lemma Rejoin(s: string, n: nat)
    requires n <= |s|
    ensures s == s[..n] + s[n..]
  {}

  /** Lossless scan: an accepted string is the concatenation of raw pieces, one per fragment; each
      fragment is what its piece says, text spans are non-empty, free of `%` and never adjacent. */
  lemma {:induction false} ScanIsLossless(s: string) returns (pieces: seq<Piece>)
    requires ParseFormat(s).Ok?
    ensures RawText(pieces) == s
    ensures AllParse(pieces, ParseFormat(s).value)
    ensures CanonicalFormat(ParseFormat(s).value)
    decreases |s|
  {
    ParsedIsCanonical(s);
    if s == "" {
      pieces := [];
    } else if s[0] != '%' {
      hide ParseFormat, RawText, AllParse, CanonicalFormat;
      var n := TextStep(s);
      var rest := ScanIsLossless(s[n..]);
      pieces := [Text(s[..n])] + rest;
      AllParseCons(Text(s[..n]), TextSpan(s[..n]), rest, ParseFormat(s[n..]).value);
      RawCons(Text(s[..n]), rest);
      Rejoin(s, n);
    } else {
      hide ParseFormat, RawText, AllParse, CanonicalFormat, ParsesTo;
      var tok, f := TokenStep(s);
      var rest := ScanIsLossless(s[|tok.Raw()|..]);
      pieces := [Operator(tok)] + rest;
      AllParseCons(Operator(tok), f, rest, ParseFormat(s[|tok.Raw()|..]).value);
      RawCons(Operator(tok), rest);
    }
  }
}
