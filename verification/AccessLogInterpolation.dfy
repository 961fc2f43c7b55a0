/** Binding placeholders and rendering the result back into a format string. */
module AccessLogInterpolation {
  import opened Basics
  import opened AccessLogSyntax
  import opened AccessLogRoundTrip
  import opened AccessLogFormat

  /** Interpolation leaves no placeholder: each becomes the text it is bound to, or nothing if it is not
      bound. Everything else stays as and where it is. */
  lemma NoPlaceholderLeft(fs: seq<Fragment>, variables: map<string, string>, i: nat)
    requires i < |fs|
    ensures |Interpolated(fs, variables)| == |fs| && !Interpolated(fs, variables)[i].Placeholder?
    ensures fs[i].Placeholder? && fs[i].command in variables ==> Interpolated(fs, variables)[i] == TextSpan(variables[fs[i].command])
    ensures fs[i].Placeholder? && fs[i].command !in variables ==> Interpolated(fs, variables)[i] == TextSpan("")
    ensures !fs[i].Placeholder? ==> Interpolated(fs, variables)[i] == fs[i]
  {}

  /** The rendered string parses back to the interpolated format (with neighbouring text merged and
      empty text gone) exactly when no placeholder is bound to text with a `%` in it. */
  lemma ReparsesToItself(s: string, variables: map<string, string>)
    requires ParseFormat(s).Ok?
    ensures var g := Interpolated(ParseFormat(s).value, variables);
            ParseFormat(PrintFormat(g)) == Ok(Merge(g)) <==> !BindsTo(ParseFormat(s).value, variables, HasPercent)
  {
    var fs := ParseFormat(s).value;
    var g := Interpolated(fs, variables);
    ParsedIsCanonical(s);
    if BindsTo(fs, variables, HasPercent) {
      var i :| 0 <= i < |fs| && fs[i].Placeholder? && HasPercent(Variable(variables, fs[i].command));
      var j := MergeKeepsPercent(g, i);
      assert !Canonical(Merge(g)[j]);
      if ParseFormat(PrintFormat(g)) == Ok(Merge(g)) {
        ParsedIsCanonical(PrintFormat(g));
      }
    } else {
      forall i | 0 <= i < |g|
        ensures NearlyCanonical(g[i])
      {
        assert fs[i].Placeholder? ==> !HasPercent(Variable(variables, fs[i].command));
      }
      hide ParseFormat, PrintFormat, CanonicalFormat;
      MergeIsCanonical(g);
      MergePrintsAlike(g);
      PrintedParses(Merge(g));
    }
  }

  lemma {:induction false} NoEmptySpans(fs: seq<Fragment>)
    ensures EmptySpans(fs) == 0 <==> forall i :: 0 <= i < |fs| ==> fs[i] != TextSpan("")
  {
    if fs != [] {
      NoEmptySpans(fs[1..]);
      if EmptySpans(fs) == 0 {
        forall i | 0 <= i < |fs| ensures fs[i] != TextSpan("") {
          if i > 0 {
            assert fs[1..][i - 1] == fs[i];
          }
        }
      } else if fs[0] != TextSpan("") {
        var i :| 0 <= i < |fs[1..]| && fs[1..][i] == TextSpan("");
        assert fs[i + 1] == TextSpan("");
      }
    }
  }

  /** A placeholder of a parsed format is bound to nothing exactly when interpolation leaves an empty span. */
  lemma EmptySpansComeFromVariables(fs: seq<Fragment>, variables: map<string, string>)
    requires CanonicalFormat(fs)
    ensures EmptySpans(Interpolated(fs, variables)) == 0 <==> !BindsTo(fs, variables, IsEmpty)
  {
    var g := Interpolated(fs, variables);
    NoEmptySpans(g);
    forall i | 0 <= i < |fs|
      ensures g[i] == TextSpan("") <==> fs[i].Placeholder? && IsEmpty(Variable(variables, fs[i].command))
    {
      assert Canonical(fs[i]);
    }
    hide Canonical;
  }

  /** Interpolation preserves meaning. If no placeholder is bound to text with a `%`, the rendered
      string is accepted, and for every HTTP or TCP entry: formatting it with the re-parsed format
      fails exactly when the interpolated one fails, and gives the same line exactly when no
      placeholder is bound to the empty string. */
  lemma InterpolationPreservesMeaning(s: string, variables: map<string, string>, e: Entry)
    requires ParseFormat(s).Ok? && !BindsTo(ParseFormat(s).value, variables, HasPercent)
    ensures var g := Interpolated(ParseFormat(s).value, variables);
            var again := ParseFormat(PrintFormat(g));
            && again.Ok?
            && (FormatLine(again.value, e).Ok? <==> FormatLine(g, e).Ok?)
            && (FormatLine(g, e).Err? ==> FormatLine(again.value, e) == FormatLine(g, e))
            && (FormatLine(g, e).Ok? ==>
                  (FormatLine(again.value, e) == FormatLine(g, e) <==> !BindsTo(ParseFormat(s).value, variables, IsEmpty)))
  {
    var fs := ParseFormat(s).value;
    var g := Interpolated(fs, variables);
    ParsedIsCanonical(s);
    ReparsesToItself(s, variables);
    hide ParseFormat, PrintFormat, FormatLine, CanonicalFormat, BindsTo, Merge;
    MergeFormatsAlike(g, e);
    EmptySpansComeFromVariables(fs, variables);
  }

  /** What goes wrong with the empty string: a placeholder bound to it is formatted as a dash, but
      leaves nothing behind in the rendered string. */
  lemma EmptyBindingLosesDash(e: Entry)
    ensures var g := Interpolated([Placeholder("KUMA_MESH")], map["KUMA_MESH" := ""]);
            && FormatLine(g, e) == Ok("-")
            && ParseFormat(PrintFormat(g)).Ok? && FormatLine(ParseFormat(PrintFormat(g)).value, e) == Ok("")
  {
    var g := Interpolated([Placeholder("KUMA_MESH")], map["KUMA_MESH" := ""]);
    assert g == [TextSpan("")] && g[1..] == [];
    assert PrintFormat(g) == "" + PrintFormat([]);
    assert FormatLine([], e) == Ok("") && "-" + "" == "-";
  }

  /** What goes wrong with a `%`: one placeholder bound to "%" renders as a string that is rejected. */
  lemma PercentBreaksRendering()
    ensures var fs := [Placeholder("KUMA_MESH")];
            ParseFormat(PrintFormat(Interpolated(fs, map["KUMA_MESH" := "%"]))).Err?
  {
    var g := Interpolated([Placeholder("KUMA_MESH")], map["KUMA_MESH" := "%"]);
    assert g == [TextSpan("%")] && g[1..] == [];
    assert PrintFormat(g) == "%" + PrintFormat([]);
    assert MatchToken("%").None?;
  }
}
