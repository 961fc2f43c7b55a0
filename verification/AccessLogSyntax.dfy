/** Access-log format strings: tokens, fragments, the parser as a specification, and the printer. */
module AccessLogSyntax {
  import opened Basics
  import opened Strings
  import Decimal

  // ---------- tokens ----------

  predicate IsCommandChar(c: char) {
    'A' <= c <= 'Z' || c == '_' || '0' <= c <= '9'
  }

  predicate NotClosing(c: char) {
    c != ')'
  }

  predicate NotPercent(c: char) {
    c != '%'
  }

  /** A match of the token regular expression. The source sees the same empty `args` whether or not
      there are parentheses; `parens` keeps them apart here. */
  datatype Token = Token(command: string, parens: bool, args: string, limit: string) {
    function Raw(): string {
      "%" + command + (if parens then "(" + args + ")" else "") + (if limit != "" then ":" + limit else "") + "%"
    }

    predicate WellFormed() {
      && command != "" && Every(command, IsCommandChar)
      && Every(args, NotClosing) && (!parens ==> args == "")
      && Decimal.AllDigits(limit)
    }
  }

  /** The optional arguments at the start of `s`: whether there are parentheses, what is between them,
      and what follows. */
  function MatchArgs(s: string): Option<(bool, string, string)> {
    if s == "" || s[0] != '(' then Some((false, "", s))
    else
      var k := Run(s[1..], NotClosing);
      if k + 1 < |s| then Some((true, s[1..k + 1], s[k + 2..])) else None
  }

  function MatchLimit(s: string): Option<(string, string)> {
    if s == "" || s[0] != ':' then Some(("", s))
    else
      var k := Run(s[1..], Decimal.IsDigit);
      if k > 0 then Some((s[1..k + 1], s[k + 1..])) else None
  }

  /** The token regular expression, anchored at the start of `s`. Each choice it offers is decided
      by the next character, so no backtracking is needed. */
  function MatchToken(s: string): Option<Token> {
    if s == "" || s[0] != '%' then None
    else
      var n := Run(s[1..], IsCommandChar);
      if n == 0 then None
      else
        match MatchArgs(s[n + 1..])
        case None => None
        case Some((parens, args, rest)) =>
          match MatchLimit(rest)
          case None => None
          case Some((limit, rest')) =>
            if rest' != "" && rest'[0] == '%' then Some(Token(s[1..n + 1], parens, args, limit)) else None
  }

  // ---------- fragments ----------

  datatype Header = Header(header: string, altHeader: string, maxLength: nat)

  datatype Fragment =
    | TextSpan(text: string)
    | RequestHeader(f: Header)
    | ResponseHeader(f: Header)
    | ResponseTrailer(f: Header)
    | DynamicMetadata(namespace: string, path: seq<string>, maxLength: nat)
    | FilterState(key: string, maxLength: nat)
    | StartTime(format: string)
    | Field(command: string)
    | Placeholder(command: string)

  const CMD_REQ := "REQ"
  const CMD_RESP := "RESP"
  const CMD_TRAILER := "TRAILER"
  const CMD_DYNAMIC_METADATA := "DYNAMIC_METADATA"
  const CMD_FILTER_STATE := "FILTER_STATE"
  const CMD_START_TIME := "START_TIME"

  datatype ParseError =
    | NotAnOperator
    | HeaderRequired
    | TooManyAlternatives
    | NewlineInHeader
    | NamespaceRequired
    | KeyRequired
    | NewlineInStartTime
    | NoArgumentsAllowed
    | LimitOutOfRange

  /** `strconv.Atoi` fails above the largest 64-bit integer. */
  const MAX_INT := 0x7FFF_FFFF_FFFF_FFFF

  /** `hasNoArguments`, with its string slices. */
  predicate HasNoArguments(raw: string, command: string, args: string, limit: string)
    requires |raw| >= 2 && (limit != "" ==> |raw| >= |limit| + 3)
  {
    && args == ""
    && ((limit == "" && raw[1..|raw| - 1] == command)
        || (limit != "" && raw[1..|raw| - 1 - (|limit| + 1)] == command))
  }

  function ParseLimit(limit: string): Result<nat, ParseError>
    requires Decimal.AllDigits(limit)
  {
    if Decimal.Value(limit) > MAX_INT then Err(LimitOutOfRange) else Ok(Decimal.Value(limit))
  }

  predicate HasNewline(s: string) {
    '\0' in s || '\r' in s || '\n' in s
  }

  predicate IsTimeFlag(c: char) {
    c in "-_0^#"
  }

  predicate IsTimeWidth(c: char) {
    '1' <= c <= '9'
  }

  /** A `%`, then flags, then a width, then `n`: a newline directive of the time format. */
  predicate NewlineDirectiveAt(s: string, i: nat)
    requires i < |s|
  {
    && s[i] == '%'
    && var j := i + 1 + Run(s[i + 1..], IsTimeFlag);
    var k := j + Run(s[j..], IsTimeWidth);
    k < |s| && s[k] == 'n'
  }

  predicate HasNewlineDirective(s: string) {
    exists i :: 0 <= i < |s| && NewlineDirectiveAt(s, i)
  }

  function ParseHeader(tok: Token): Result<Header, ParseError>
    requires tok.WellFormed()
  {
    RawLength(tok);
    if HasNoArguments(tok.Raw(), tok.command, tok.args, tok.limit) then Err(HeaderRequired)
    else
      match ParseLimit(tok.limit)
      case Err(e) => Err(e)
      case Ok(maxLength) =>
        var parts := Split(tok.args, '?');
        if |parts| > 2 then Err(TooManyAlternatives)
        else
          var alt := if |parts| == 2 then parts[1] else "";
          if HasNewline(parts[0]) || HasNewline(alt) then Err(NewlineInHeader)
          else Ok(Header(ToLower(parts[0]), ToLower(alt), maxLength))
  }

  function ParseDynamicMetadata(tok: Token): Result<Fragment, ParseError>
    requires tok.WellFormed()
  {
    RawLength(tok);
    match ParseLimit(tok.limit)
    case Err(e) => Err(e)
    case Ok(maxLength) =>
      if HasNoArguments(tok.Raw(), tok.command, tok.args, tok.limit) then Err(NamespaceRequired)
      else
        var parts := Split(tok.args, ':');
        Ok(DynamicMetadata(parts[0], parts[1..], maxLength))
  }

  function ParseFilterState(tok: Token): Result<Fragment, ParseError>
    requires tok.WellFormed()
  {
    RawLength(tok);
    match ParseLimit(tok.limit)
    case Err(e) => Err(e)
    case Ok(maxLength) =>
      if HasNoArguments(tok.Raw(), tok.command, tok.args, tok.limit) || tok.args == "" then Err(KeyRequired)
      else Ok(FilterState(tok.args, maxLength))
  }

  predicate IsPlaceholder(command: string) {
    "KUMA_" <= command
  }

  function ParseField(tok: Token): Result<Fragment, ParseError>
    requires tok.WellFormed()
  {
    RawLength(tok);
    if tok.Raw()[1..|tok.Raw()| - 1] != tok.command then Err(NoArgumentsAllowed)
    else if IsPlaceholder(tok.command) then Ok(Placeholder(tok.command))
    else Ok(Field(tok.command))
  }

  /** `parseCommandOperator`. */
  function ParseOperator(tok: Token): Result<Fragment, ParseError>
    requires tok.WellFormed()
  {
    if tok.command == CMD_REQ then HeaderFragment(ParseHeader(tok), f => RequestHeader(f))
    else if tok.command == CMD_RESP then HeaderFragment(ParseHeader(tok), f => ResponseHeader(f))
    else if tok.command == CMD_TRAILER then HeaderFragment(ParseHeader(tok), f => ResponseTrailer(f))
    else if tok.command == CMD_DYNAMIC_METADATA then ParseDynamicMetadata(tok)
    else if tok.command == CMD_FILTER_STATE then ParseFilterState(tok)
    else if tok.command == CMD_START_TIME then
      if HasNewlineDirective(tok.args) then Err(NewlineInStartTime) else Ok(StartTime(tok.args))
    else ParseField(tok)
  }

  function HeaderFragment(r: Result<Header, ParseError>, make: Header -> Fragment): Result<Fragment, ParseError> {
    match r
    case Err(e) => Err(e)
    case Ok(f) => Ok(make(f))
  }

  lemma RawLength(tok: Token)
    ensures |tok.Raw()| == 2 + |tok.command| + (if tok.parens then |tok.args| + 2 else 0) + (if tok.limit != "" then |tok.limit| + 1 else 0)
    ensures tok.command != "" && tok.limit != "" ==> |tok.Raw()| >= |tok.limit| + 3
  {}

  // ---------- parsing ----------

  function Prepend(fragments: seq<Fragment>, r: Result<seq<Fragment>, ParseError>): Result<seq<Fragment>, ParseError> {
    match r
    case Err(e) => Err(e)
    case Ok(more) => Ok(fragments + more)
  }

  /** The meaning of a format string. */
  function ParseFormat(s: string): Result<seq<Fragment>, ParseError>
    decreases |s|
  {
    if s == "" then Ok([])
    else if s[0] != '%' then
      var n := Run(s, NotPercent);
      Prepend([TextSpan(s[..n])], ParseFormat(s[n..]))
    else
      match MatchToken(s)
      case None => Err(NotAnOperator)
      case Some(tok) =>
        MatchIsRaw(s);
        match ParseOperator(tok)
        case Err(e) => Err(e)
        case Ok(operator) => Prepend([operator], ParseFormat(s[|tok.Raw()|..]))
  }

  // ---------- the token matcher and its inverse ----------

  lemma MatchArgsIsRaw(s: string)
    requires MatchArgs(s).Some?
    ensures var (parens, args, rest) := MatchArgs(s).value;
            && s == (if parens then "(" + args + ")" else "") + rest
            && Every(args, NotClosing) && (!parens ==> args == "")
  {
    if s != "" && s[0] == '(' {
      var k := Run(s[1..], NotClosing);
      assert s[1..k + 1] == s[1..][..k] && s[1..][k] == s[k + 1];
      assert s == "(" + s[1..k + 1] + ")" + s[k + 2..];
    }
  }

  lemma MatchLimitIsRaw(s: string)
    requires MatchLimit(s).Some?
    ensures var (limit, rest) := MatchLimit(s).value;
            s == (if limit != "" then ":" + limit else "") + rest && Decimal.AllDigits(limit)
  {
    if s != "" && s[0] == ':' {
      var k := Run(s[1..], Decimal.IsDigit);
      assert s[1..k + 1] == s[1..][..k];
      assert s == ":" + s[1..k + 1] + s[k + 1..];
    }
  }

  lemma Pieces(s: string, a: string, b: string, rest: string, c: string, rest': string)
    requires |a| <= |s| && s[..|a|] == a && s[|a|..] == b + rest && rest == c + rest'
    requires rest' != "" && rest'[0] == '%'
    ensures a + b + c + "%" <= s
  {
    assert s == a + (b + (c + rest'));
    assert rest' == "%" + rest'[1..];
    assert s == (a + b + c + "%") + rest'[1..];
  }

  /** What the matcher accepts is a well-formed token that stands at the start of the input. */
  lemma MatchIsRaw(s: string)
    requires MatchToken(s).Some?
    ensures MatchToken(s).value.WellFormed() && MatchToken(s).value.Raw() <= s
    ensures |MatchToken(s).value.Raw()| >= 3
  {
    var tok := MatchToken(s).value;
    var n := Run(s[1..], IsCommandChar);
    assert s[1..][..n] == s[1..n + 1];
    var (parens, args, rest) := MatchArgs(s[n + 1..]).value;
    MatchArgsIsRaw(s[n + 1..]);
    var (limit, rest') := MatchLimit(rest).value;
    MatchLimitIsRaw(rest);
    Pieces(s, "%" + tok.command, if parens then "(" + args + ")" else "", rest, if limit != "" then ":" + limit else "", rest');
    hide MatchToken;
  }
}
