/** Rendering a format never makes it longer: of all ways to write an operator, the printer chooses a shortest. */
module AccessLogShortest {
  import opened Basics
  import opened Strings
  import opened AccessLogSyntax
  import opened AccessLogRoundTrip
  import opened AccessLogOperators
  import Decimal

  lemma {:induction false} NoLeadingZeros(s: string)
    requires Decimal.AllDigits(s) && s != ""
    ensures |Decimal.Format(Decimal.Value(s))| <= |s|
  {
    var init := s[..|s| - 1];
    if init != "" {
      NoLeadingZeros(init);
      var d := (s[|s| - 1] - '0') as nat;
      assert (10 * Decimal.Value(init) + d) / 10 == Decimal.Value(init);
    } else {
      assert Decimal.Value(init) == 0;
    }
  }

  lemma LimitIsShort(limit: string)
    requires Decimal.AllDigits(limit)
    ensures |PrintLimit(Decimal.Value(limit))| <= if limit != "" then |limit| + 1 else 0
  {
    if limit != "" {
      NoLeadingZeros(limit);
    }
    hide Decimal.Format;
  }

  lemma HeaderIsShort(h: Header, tok: Token)
    requires tok.WellFormed() && IsHeader(h, tok)
    ensures |HeaderArgs(h)| <= |tok.args|
  {
    var main, alt :|
      && tok.args == main + (if '?' in tok.args then "?" + alt else "") && ('?' !in tok.args ==> alt == "")
      && IsFolded(h.header, main) && IsFolded(h.altHeader, alt) && '?' !in main && '?' !in alt;
  }

  lemma {:induction false} PathIsShort(namespace: string, path: seq<string>)
    ensures |namespace + PrintPath(path)| == |Join([namespace] + path, ':')|
    decreases |path|
  {
    if path != [] {
      PathIsShort(path[0], path[1..]);
      assert [path[0]] + path[1..] == path;
      assert ([namespace] + path)[1..] == path;
    }
  }

  lemma CallLength(command: string, args: string, maxLength: nat)
    ensures |PrintCall(command, args, maxLength)| == 4 + |command| + |args| + |PrintLimit(maxLength)|
  {
    hide PrintLimit;
  }

  /** An accepted token is at least as long as what the printer makes of it. */
  lemma TokenIsNotShorter(tok: Token)
    requires tok.WellFormed() && ParseOperator(tok).Ok?
    ensures |Print(ParseOperator(tok).value)| <= |tok.Raw()|
  {
    var f := ParseOperator(tok).value;
    AcceptedTokens(tok);
    RejectedTokens(tok);
    RawLength(tok);
    LimitIsShort(tok.limit);
    hide ParseOperator, PrintLimit, IsHeader, HeaderArgs, PrintPath, Join, PrintCall, Occurrences, HasControl, HasNewlineDirective, TooLong;
    match f
    case RequestHeader(h) =>
      HeaderIsShort(h, tok);
      CallLength(CMD_REQ, HeaderArgs(h), h.maxLength);
    case ResponseHeader(h) =>
      HeaderIsShort(h, tok);
      CallLength(CMD_RESP, HeaderArgs(h), h.maxLength);
    case ResponseTrailer(h) =>
      HeaderIsShort(h, tok);
      CallLength(CMD_TRAILER, HeaderArgs(h), h.maxLength);
    case DynamicMetadata(namespace, path, maxLength) =>
      PathIsShort(namespace, path);
      CallLength(CMD_DYNAMIC_METADATA, namespace + PrintPath(path), maxLength);
    case FilterState(key, maxLength) => CallLength(CMD_FILTER_STATE, key, maxLength);
    case StartTime(format) =>
      CallLength(CMD_START_TIME, format, 0);
      NoLimit();
    case _ =>
  }

  lemma NoLimit()
    ensures PrintLimit(0) == ""
  {}

  /** Rendering an accepted format string gives a string that is not longer. As every rendering parses back
      to the same format, it is a shortest way to write that format. */
  lemma {:induction false} RenderingIsShortest(s: string)
    requires ParseFormat(s).Ok?
    ensures |PrintFormat(ParseFormat(s).value)| <= |s|
    decreases |s|
  {
    if s == "" {
    } else if s[0] != '%' {
      var n := Run(s, NotPercent);
      ParseFromText(s, n);
      hide ParseFormat, Print;
      RenderingIsShortest(s[n..]);
      PrintsFirst(TextSpan(s[..n]), ParseFormat(s[n..]).value);
      TextPrints(s[..n]);
    } else {
      hide ParseOperator, MatchToken, Print;
      MatchIsRaw(s);
      var tok := MatchToken(s).value;
      ParseFromToken(s, tok);
      TokenIsNotShorter(tok);
      var rest := s[|tok.Raw()|..];
      RenderingIsShortest(rest);
      PrintsFirst(ParseOperator(tok).value, ParseFormat(rest).value);
    }
  }

  lemma PrintsFirst(f: Fragment, fs: seq<Fragment>)
    ensures |PrintFormat([f] + fs)| == |Print(f)| + |PrintFormat(fs)|
  {
    hide Print;
    assert ([f] + fs)[1..] == fs;
  }

  lemma TextPrints(text: string)
    ensures Print(TextSpan(text)) == text
  {}
}
