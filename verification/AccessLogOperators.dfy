/** Which format strings are accepted and what they stand for, in terms of the text itself. */
module AccessLogOperators {
  import opened Basics
  import opened Strings
  import opened AccessLogSyntax
  import opened AccessLogRoundTrip
  import Decimal

  // ---------- the string as a whole ----------

  /** Text up to the next `%` is one span; a token is one operator; the first token that is not a valid
      operator decides about the error. */
  lemma ParsesPieceByPiece(text: string, tok: Token, rest: string)
    requires text != "" && '%' !in text && tok.WellFormed()
    ensures ParseFormat("") == Ok([])
    ensures rest == "" || rest[0] == '%' ==> ParseFormat(text + rest) == Prepend([TextSpan(text)], ParseFormat(rest))
    ensures ParseFormat(tok.Raw() + rest) ==
            if ParseOperator(tok).Err? then Err(ParseOperator(tok).error) else Prepend([ParseOperator(tok).value], ParseFormat(rest))
  {
    hide ParseOperator, MatchToken;
    if rest == "" || rest[0] == '%' {
      assert Every(text, NotPercent);
      RunStops(text, rest, NotPercent);
      assert (text + rest)[..|text|] == text && (text + rest)[|text|..] == rest;
    }
    MatchFinds(tok, rest);
    assert (tok.Raw() + rest)[|tok.Raw()|..] == rest;
  }

  /** What the regular expression of tokens asks of their parts. */
  lemma TokensAre(tok: Token)
    ensures tok.WellFormed() <==>
            && |tok.command| > 0
            && (forall i :: 0 <= i < |tok.command| ==> var c := tok.command[i]; 'A' <= c <= 'Z' || c == '_' || '0' <= c <= '9')
            && (forall i :: 0 <= i < |tok.args| ==> tok.args[i] != ')') && (!tok.parens ==> tok.args == "")
            && (forall i :: 0 <= i < |tok.limit| ==> '0' <= tok.limit[i] <= '9')
  {}

  /** The token at the start of a string is found, and there is only one. */
  lemma TokenIsFound(s: string, tok: Token)
    requires tok.WellFormed() && tok.Raw() <= s
    ensures MatchToken(s) == Some(tok)
  {
    var raw, rest := tok.Raw(), s[|tok.Raw()|..];
    MatchFinds(tok, rest);
    hide MatchToken;
    assert s == raw + rest;
  }

  /** A `%` at which no token stands is an error. */
  lemma NoTokenIsAnError(s: string)
    requires s != "" && s[0] == '%' && forall tok: Token :: tok.WellFormed() ==> !(tok.Raw() <= s)
    ensures ParseFormat(s) == Err(NotAnOperator)
  {
    hide ParseOperator, MatchToken;
    if MatchToken(s).Some? {
      MatchIsRaw(s);
    }
  }

  // ---------- the operators ----------

  predicate IsHeaderCommand(command: string) {
    command == "REQ" || command == "RESP" || command == "TRAILER"
  }

  predicate TooLong(limit: string)
    requires Decimal.AllDigits(limit)
  {
    Decimal.Value(limit) > 0x7FFF_FFFF_FFFF_FFFF
  }

  /** How often a character occurs. */
  function Occurrences(s: string, c: char): nat {
    if s == "" then 0 else (if s[0] == c then 1 else 0) + Occurrences(s[1..], c)
  }

  ghost predicate HasControl(s: string) {
    exists c :: c in s && c in {'\0', '\r', '\n'}
  }

  /** The token is not a valid operator. */
  ghost predicate IsRejected(tok: Token)
    requires tok.WellFormed()
  {
    if IsHeaderCommand(tok.command) then
      !tok.parens || TooLong(tok.limit) || Occurrences(tok.args, '?') > 1 || HasControl(tok.args)
    else if tok.command == "DYNAMIC_METADATA" then !tok.parens || TooLong(tok.limit)
    else if tok.command == "FILTER_STATE" then tok.args == "" || TooLong(tok.limit)
    else if tok.command == "START_TIME" then HasNewlineDirective(tok.args)
    else tok.parens || tok.limit != ""
  }

  lemma {:induction false} SplitCounts(s: string, sep: char)
    ensures |Split(s, sep)| == Occurrences(s, sep) + 1
  {
    if s != "" {
      SplitCounts(s[1..], sep);
    }
  }

  /** Nothing is lost by splitting. */
  lemma {:induction false} JoinOfSplit(s: string, sep: char)
    ensures Join(Split(s, sep), sep) == s
  {
    if s != "" {
      var rest := Split(s[1..], sep);
      JoinOfSplit(s[1..], sep);
      if s[0] == sep {
        assert ([""] + rest)[1..] == rest;
        assert "" + [sep] + s[1..] == s;
      } else {
        var parts := [[s[0]] + rest[0]] + rest[1..];
        assert parts[1..] == rest[1..];
        assert s == [s[0]] + s[1..];
        if |rest| > 1 {
          assert [s[0]] + rest[0] + [sep] + Join(rest[1..], sep) == [s[0]] + (rest[0] + [sep] + Join(rest[1..], sep));
        }
      }
    }
  }

  lemma {:induction false} SplitKeeps(s: string, sep: char, c: char)
    requires c != sep
    ensures c in s <==> exists i :: 0 <= i < |Split(s, sep)| && c in Split(s, sep)[i]
  {
    if s != "" {
      SplitKeeps(s[1..], sep, c);
      assert s == [s[0]] + s[1..];
      var rest, parts := Split(s[1..], sep), Split(s, sep);
      if s[0] == sep {
        assert parts == [""] + rest && forall i :: 0 <= i < |rest| ==> parts[i + 1] == rest[i];
      } else {
        assert parts[0] == [s[0]] + rest[0] && forall i :: 1 <= i < |rest| ==> parts[i] == rest[i];
      }
      if i :| 0 <= i < |rest| && c in rest[i] {
        assert c in parts[if s[0] == sep then i + 1 else i];
      }
      if i :| 0 <= i < |parts| && c in parts[i] {
        assert s[0] == c || c in rest[if s[0] == sep then i - 1 else i];
      }
      if s[0] == c {
        assert c in parts[0];
      }
    }
  }

  /** `ParseHeader` on the parts of the arguments. */
  lemma HeaderByParts(tok: Token, parts: seq<string>)
    requires tok.WellFormed() && parts == Split(tok.args, '?')
    ensures var alt := if |parts| == 2 then parts[1] else "";
            && (ParseHeader(tok).Err? <==> !tok.parens || TooLong(tok.limit) || |parts| > 2 || HasNewline(parts[0]) || HasNewline(alt))
            && (ParseHeader(tok).Ok? ==> ParseHeader(tok).value == Header(ToLower(parts[0]), ToLower(alt), Decimal.Value(tok.limit)))
  {
    NoArgumentsMeansNoParens(tok);
    hide HasNoArguments, Split, HasNewline;
  }

  lemma ControlInParts(s: string, parts: seq<string>)
    requires parts == Split(s, '?')
    ensures HasControl(s) <==> exists i :: 0 <= i < |parts| && HasNewline(parts[i])
  {
    SplitKeeps(s, '?', '\0');
    SplitKeeps(s, '?', '\r');
    SplitKeeps(s, '?', '\n');
    hide Split;
  }

  lemma HeaderRejected(tok: Token)
    requires tok.WellFormed()
    ensures ParseHeader(tok).Err? <==>
            !tok.parens || TooLong(tok.limit) || Occurrences(tok.args, '?') > 1 || HasControl(tok.args)
  {
    var parts := Split(tok.args, '?');
    SplitCounts(tok.args, '?');
    HeaderByParts(tok, parts);
    ControlInParts(tok.args, parts);
    hide ParseHeader, Split, Occurrences, HasNewline, HasControl;
  }

  /** Which tokens are not valid operators. */
  lemma RejectedTokens(tok: Token)
    requires tok.WellFormed()
    ensures ParseOperator(tok).Err? <==> IsRejected(tok)
  {
    HeaderRejected(tok);
    NoArgumentsMeansNoParens(tok);
    hide ParseHeader, HasNoArguments, HasNewlineDirective, Split, Occurrences, IsPlaceholder;
  }

  /** Letters from A to Z become small, everything else stays. */
  predicate IsFolded(folded: string, s: string) {
    && |folded| == |s|
    && forall i :: 0 <= i < |s| ==>
         if 'A' <= s[i] <= 'Z' then folded[i] as int == s[i] as int + 32 else folded[i] == s[i]
  }

  /** The names of a header operator are what stands before and after the question mark, in small letters. */
  ghost predicate IsHeader(h: Header, tok: Token)
    requires tok.WellFormed()
  {
    && h.maxLength == Decimal.Value(tok.limit)
    && exists main, alt ::
         && tok.args == main + (if '?' in tok.args then "?" + alt else "") && ('?' !in tok.args ==> alt == "")
         && IsFolded(h.header, main) && IsFolded(h.altHeader, alt) && '?' !in main && '?' !in alt
  }

  lemma {:induction false} NoneOccurs(s: string, c: char)
    ensures c in s <==> Occurrences(s, c) > 0
  {
    if s != "" {
      NoneOccurs(s[1..], c);
      assert s == [s[0]] + s[1..];
    }
  }

  lemma SplitInTwo(s: string, parts: seq<string>)
    requires parts == Split(s, '?') && |parts| <= 2
    ensures '?' in s <==> |parts| == 2
    ensures s == parts[0] + (if |parts| == 2 then "?" + parts[1] else "")
    ensures '?' !in parts[0] && (|parts| == 2 ==> '?' !in parts[1])
  {
    JoinOfSplit(s, '?');
    SplitCounts(s, '?');
    NoneOccurs(s, '?');
    hide Split, Occurrences;
    if |parts| == 2 {
      assert Join(parts[1..], '?') == parts[1];
      assert parts[0] + ['?'] + parts[1] == parts[0] + ("?" + parts[1]);
    } else {
      assert parts[0] + "" == parts[0];
    }
  }

  lemma LowerIsFolded(s: string)
    ensures IsFolded(ToLower(s), s)
  {}

  lemma HeaderMeans(tok: Token)
    requires tok.WellFormed() && ParseHeader(tok).Ok?
    ensures IsHeader(ParseHeader(tok).value, tok)
  {
    var parts := Split(tok.args, '?');
    HeaderByParts(tok, parts);
    hide ParseHeader, Split, ToLower, IsFolded, HasNewline;
    SplitInTwo(tok.args, parts);
    var main, alt := parts[0], if |parts| == 2 then parts[1] else "";
    LowerIsFolded(main);
    LowerIsFolded(alt);
    assert tok.args == main + (if '?' in tok.args then "?" + alt else "");
  }

  /** What a valid operator stands for. */
  ghost predicate Means(f: Fragment, tok: Token)
    requires tok.WellFormed()
  {
    match f
    case TextSpan(_) => false
    case RequestHeader(h) => tok.command == "REQ" && IsHeader(h, tok)
    case ResponseHeader(h) => tok.command == "RESP" && IsHeader(h, tok)
    case ResponseTrailer(h) => tok.command == "TRAILER" && IsHeader(h, tok)
    case DynamicMetadata(namespace, path, maxLength) =>
      && tok.command == "DYNAMIC_METADATA" && maxLength == Decimal.Value(tok.limit)
      && Join([namespace] + path, ':') == tok.args && ':' !in namespace && forall i :: 0 <= i < |path| ==> ':' !in path[i]
    case FilterState(key, maxLength) => tok.command == "FILTER_STATE" && key == tok.args && maxLength == Decimal.Value(tok.limit)
    case StartTime(format) => tok.command == "START_TIME" && format == tok.args
    case Field(command) => command == tok.command && !("KUMA_" <= command)
    case Placeholder(command) => command == tok.command && "KUMA_" <= command
  }

  /** What the accepted tokens stand for. */
  lemma AcceptedTokens(tok: Token)
    requires tok.WellFormed() && ParseOperator(tok).Ok?
    ensures Means(ParseOperator(tok).value, tok)
  {
    hide ParseHeader, ParseDynamicMetadata, ParseFilterState, ParseField, HasNewlineDirective, IsHeader, Join;
    if IsHeaderCommand(tok.command) {
      HeaderMeans(tok);
    } else if tok.command == CMD_DYNAMIC_METADATA {
      MetadataMeans(tok);
    } else if tok.command == CMD_FILTER_STATE {
      FilterStateMeans(tok);
    } else if tok.command != CMD_START_TIME {
      FieldMeans(tok);
    }
  }

  lemma FilterStateMeans(tok: Token)
    requires tok.WellFormed() && ParseFilterState(tok).Ok?
    ensures ParseFilterState(tok).value == FilterState(tok.args, Decimal.Value(tok.limit))
  {
    hide HasNoArguments;
  }

  lemma FieldMeans(tok: Token)
    requires tok.WellFormed() && ParseField(tok).Ok?
    ensures ParseField(tok).value == if "KUMA_" <= tok.command then Placeholder(tok.command) else Field(tok.command)
  {}

  lemma MetadataMeans(tok: Token)
    requires tok.WellFormed() && ParseDynamicMetadata(tok).Ok?
    ensures var f := ParseDynamicMetadata(tok).value;
            && f.DynamicMetadata? && f.maxLength == Decimal.Value(tok.limit)
            && Join([f.namespace] + f.path, ':') == tok.args && ':' !in f.namespace && forall i :: 0 <= i < |f.path| ==> ':' !in f.path[i]
  {
    var parts := Split(tok.args, ':');
    JoinOfSplit(tok.args, ':');
    assert [parts[0]] + parts[1..] == parts;
    hide Split, Join, HasNoArguments;
  }

  // ---------- time formats ----------

  /** The regular expression `%[-_0^#]*[1-9]*n`, anywhere in the text. */
  ghost predicate MatchesNewline(s: string, i: nat, j: nat, k: nat) {
    && i < j <= k < |s| && s[i] == '%' && s[k] == 'n'
    && (forall m :: i < m < j ==> s[m] in {'-', '_', '0', '^', '#'})
    && (forall m :: j <= m < k ==> '1' <= s[m] <= '9')
  }

  lemma RunEnds(s: string, from: nat, to: nat, p: char -> bool)
    requires from <= to <= |s| && (forall m :: from <= m < to ==> p(s[m])) && (to < |s| ==> !p(s[to]))
    ensures Run(s[from..], p) == to - from
  {
    assert s[from..] == s[from..to] + s[to..];
    RunStops(s[from..to], s[to..], p);
  }

  lemma DirectiveMatches(s: string, i: nat) returns (j: nat, k: nat)
    requires i < |s| && NewlineDirectiveAt(s, i)
    ensures MatchesNewline(s, i, j, k)
  {
    var flags := Run(s[i + 1..], IsTimeFlag);
    j := i + 1 + flags;
    var width := Run(s[j..], IsTimeWidth);
    k := j + width;
    assert forall m :: i < m < j ==> s[m] == s[i + 1..][..flags][m - (i + 1)];
    assert forall m :: j <= m < k ==> s[m] == s[j..][..width][m - j];
  }

  lemma MatchIsDirective(s: string, i: nat, j: nat, k: nat)
    requires MatchesNewline(s, i, j, k)
    ensures NewlineDirectiveAt(s, i)
  {
    hide Run, Every, IsTimeFlag;
    assert '1' <= s[j] <= '9' || s[j] == 'n';
    NoFlag(s[j]);
    forall m | i < m < j
      ensures IsTimeFlag(s[m])
    {
      Flag(s[m]);
    }
    RunEnds(s, i + 1, j, IsTimeFlag);
    RunEnds(s, j, k, IsTimeWidth);
    assert s[i] == '%' && s[k] == 'n';
    hide MatchesNewline;
  }

  lemma Flag(c: char)
    requires c in {'-', '_', '0', '^', '#'}
    ensures IsTimeFlag(c)
  {
    assert "-_0^#"[0] == '-' && "-_0^#"[1] == '_' && "-_0^#"[2] == '0' && "-_0^#"[3] == '^' && "-_0^#"[4] == '#';
  }

  lemma NoFlag(c: char)
    requires '1' <= c <= '9' || c == 'n'
    ensures !IsTimeFlag(c)
  {}

  /** The newline check of time formats is the search for that regular expression. */
  lemma NewlineDirectives(s: string)
    ensures HasNewlineDirective(s) <==> exists i: nat, j: nat, k: nat :: MatchesNewline(s, i, j, k)
  {
    hide NewlineDirectiveAt;
    if HasNewlineDirective(s) {
      var i :| 0 <= i < |s| && NewlineDirectiveAt(s, i);
      hide MatchesNewline;
      var j, k := DirectiveMatches(s, i);
    }
    if i: nat, j: nat, k: nat :| MatchesNewline(s, i, j, k) {
      MatchIsDirective(s, i, j, k);
    }
  }
}
