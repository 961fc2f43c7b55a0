/** `formatParser.Parse`: one pass over the string, collecting text spans and operators. */
module AccessLogParser {
  import opened Basics
  import opened Strings
  import opened AccessLogSyntax
  import opened AccessLogRoundTrip

  /** The text span that the loop is inside of ends at `pos`. */
  lemma TextEnds(s: string, start: nat, pos: nat)
    requires start < pos <= |s| && Every(s[start..pos], NotPercent) && (pos < |s| ==> s[pos] == '%')
    ensures ParseFormat(s[start..]) == Prepend([TextSpan(s[start..pos])], ParseFormat(s[pos..]))
  {
    var tail := s[start..];
    assert tail == s[start..pos] + s[pos..];
    assert tail[0] == s[start..pos][0];
    RunStops(s[start..pos], s[pos..], NotPercent);
    ParseFromText(tail, pos - start);
    assert tail[..pos - start] == s[start..pos] && tail[pos - start..] == s[pos..];
  }

  lemma PrependTwice(a: seq<Fragment>, b: seq<Fragment>, r: Result<seq<Fragment>, ParseError>)
    ensures Prepend(a, Prepend(b, r)) == Prepend(a + b, r)
  {
    if r.Ok? {
      assert a + (b + r.value) == a + b + r.value;
    }
  }

  lemma NotAToken(s: string)
    requires s != "" && s[0] == '%' && MatchToken(s).None?
    ensures ParseFormat(s) == Err(NotAnOperator)
  {}

  /** The loop of the source, proved to compute `ParseFormat`. It always terminates. */
  method Parse(format: string) returns (r: Result<seq<Fragment>, ParseError>)
    ensures r == ParseFormat(format)
  {
    hide ParseFormat, MatchToken, ParseOperator;
    var textStart := -1;
    var fragments: seq<Fragment> := [];
    var pos := 0;
    assert format[0..] == format;
    PrependNothing(format);
    while pos < |format|
      invariant 0 <= pos <= |format| && -1 <= textStart && (textStart >= 0 ==> textStart < pos)
      invariant textStart >= 0 ==> Every(format[textStart..pos], NotPercent)
      invariant ParseFormat(format) == Prepend(fragments, ParseFormat(format[if textStart >= 0 then textStart else pos..]))
    {
      if format[pos] == '%' {
        if textStart > -1 {
          TextEnds(format, textStart, pos);
          PrependTwice(fragments, [TextSpan(format[textStart..pos])], ParseFormat(format[pos..]));
          fragments := fragments + [TextSpan(format[textStart..pos])];
          textStart := -1;
        }
        var tail := format[pos..];
        var matched := MatchToken(tail);
        if matched.None? {
          NotAToken(tail);
          return Err(NotAnOperator);
        }
        var token := matched.value;
        ParseFromToken(tail, token);
        var operator := ParseOperator(token);
        if operator.Err? {
          return Err(operator.error);
        }
        PrependTwice(fragments, [operator.value], ParseFormat(tail[|token.Raw()|..]));
        fragments := fragments + [operator.value];
        assert tail[|token.Raw()|..] == format[pos + |token.Raw()|..];
        pos := pos + |token.Raw()| - 1;
      } else if textStart < 0 {
        textStart := pos;
        assert format[pos..pos + 1] == [format[pos]];
      } else {
        assert format[textStart..pos + 1] == format[textStart..pos] + [format[pos]];
      }
      pos := pos + 1;
    }
    EmptyParses();
    if textStart >= 0 {
      TextEnds(format, textStart, |format|);
      assert format[textStart..] == format[textStart..|format|];
      PrependTwice(fragments, [TextSpan(format[textStart..])], ParseFormat(format[|format|..]));
      fragments := fragments + [TextSpan(format[textStart..])];
    }
    assert format[|format|..] == "" && fragments + [] == fragments;
    return Ok(fragments);
  }

  lemma EmptyParses()
    ensures ParseFormat("") == Ok([])
  {}

  lemma PrependNothing(s: string)
    ensures Prepend([], ParseFormat(s)) == ParseFormat(s)
  {
    if ParseFormat(s).Ok? {
      assert [] + ParseFormat(s).value == ParseFormat(s).value;
    }
  }
}
