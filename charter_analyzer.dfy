/** The response-shaping part of the charter analysis: input guards, removal of the
    Markdown fences the language model wraps around its JSON, the parse fallback that
    slices `{...}` out of the reply, range and shape checks, completion of the section list
    to the eight required names, and validation of the recommendations. The model call
    and `JSON.parse` are parameters. */
module CharterAnalyzer {
  import opened Wrappers
  import opened Levels
  import opened Text

  datatype ProjectType = Strategic | Operational
  datatype ProjectStage = Shaping | Draft | Ready

  /** A JSON value seen from the fields the code tests: its kind, and its content where
      the code looks at it (`Composite` is an object or an array). `Absent` is a missing
      property, which JavaScript reads as `undefined`. */
  datatype Scalar = Absent | Null | Bool(b: bool) | Number(x: real) | Str(s: string) | Composite

  /** JavaScript truthiness. */
  predicate Truthy(v: Scalar)
  {
    match v
    case Absent => false
    case Null => false
    case Bool(b) => b
    case Number(x) => x != 0.0
    case Str(s) => s != ""
    case Composite => true
  }

  /** An element of the parsed `sections` array: `null`, or anything else, whose
      properties (possibly absent) are read. */
  datatype RawSection =
    | NullSection
    | SectionObject(name: Scalar, found: Scalar, confidence: Scalar, completeness: Scalar)

  /** An element of the parsed `recommendations` array: `null`, whose properties cannot
      be read, or an object whose absent properties are the empty string, which the checks
      treat alike. */
  datatype RawRecommendation =
    | NullRecommendation
    | RawRecommendation(priority: string, section: string, issue: string, suggestion: string)

  /** What `JSON.parse` returns, seen through the properties the code reads; `None` for a
      property that is not an array. */
  datatype RawAnalysis = RawAnalysis(
    overallScore: Scalar,
    overallCompleteness: Scalar,
    sections: Option<seq<RawSection>>,
    strengths: Option<seq<string>>,
    weaknesses: Option<seq<string>>,
    recommendations: Option<seq<RawRecommendation>>,
    redFlags: Option<seq<string>>)

  datatype SectionAnalysis = SectionAnalysis(name: string, found: bool, confidence: Level, completeness: Scalar)

  datatype Recommendation = Recommendation(priority: Level, section: string, issue: string, suggestion: string)

  datatype ClaudeAnalysis = ClaudeAnalysis(
    overallScore: real,
    overallCompleteness: real,
    sections: seq<SectionAnalysis>,
    strengths: seq<string>,
    weaknesses: seq<string>,
    recommendations: seq<Recommendation>,
    redFlags: seq<string>,
    projectType: ProjectType,
    projectStage: ProjectStage)

  /** The errors thrown before the final catch block rewrites their messages. */
  datatype AnalysisError =
    | MissingApiKey | EmptyCharter | MissingContext | UnexpectedReply
    | TruncatedReply | NoJsonFound | UnparsableJson
    | InvalidScore | InvalidCompleteness | SectionsNotArray | MalformedSection | InvalidStructure
    | MalformedRecommendation | InvalidPriority | IncompleteRecommendation

  const RequiredSections: seq<string> := [
    "Información Básica del Proyecto",
    "Propósito y Justificación",
    "Objetivos y Criterios de Éxito",
    "Requisitos de Alto Nivel",
    "Supuestos y Riesgos",
    "Presupuesto y Recursos",
    "Interesados",
    "Autorización"
  ]

  const Fence: string := "```"

  // ---------------------------------------------------------------------------
  // Fence stripping

  /** Length of the prefix the opening-fence pattern removes: the fence, the tag `json`
      when it follows, and all the white space after (a newline included). */
  function OpeningFenceLength(s: string): (n: nat)
    requires StartsWith(s, Fence)
    ensures 3 <= n <= |s|
    ensures StartsWith(s[3..], "json") ==> 7 <= n && AllWhite(s[7..n])
    ensures !StartsWith(s[3..], "json") ==> AllWhite(s[3..n])
    ensures n < |s| ==> !IsWhitespace(s[n])
  {
    var k := if StartsWith(s[3..], "json") then 7 else 3;
    assert s[k..][..LeadingWhite(s[k..])] == s[k..k + LeadingWhite(s[k..])];
    k + LeadingWhite(s[k..])
  }

  /** The reply with its opening fence removed. */
  function StripOpeningFence(s: string): (r: string)
    requires StartsWith(s, Fence)
    ensures r == s[OpeningFenceLength(s)..]
  {
    s[OpeningFenceLength(s)..]
  }

  /** The closing-fence pattern matches from `p`: an optional newline, the fence, and only
      white space up to the end. */
  predicate ClosingFenceAt(s: string, p: nat)
  {
    || (p + 4 <= |s| && s[p] == '\n' && s[p + 1..p + 4] == Fence && AllWhite(s[p + 4..]))
    || (p + 3 <= |s| && s[p..p + 3] == Fence && AllWhite(s[p + 3..]))
  }

  /** The closing-fence removal, for a string ending with the fence: everything before
      the leftmost match. */
  function StripClosingFence(s: string): (r: string)
    requires EndsWith(s, Fence)
    ensures |r| <= |s| && r == s[..|r|]
    ensures ClosingFenceAt(s, |r|)
    ensures forall p: nat :: p < |r| ==> !ClosingFenceAt(s, p)
  {
    var q := |s| - 3;
    var r := if q > 0 && s[q - 1] == '\n' then s[..q - 1] else s[..q];
    assert s[q..] == Fence;
    forall p: nat | p < |r| ensures !ClosingFenceAt(s, p) {
      assert p + 4 < |s| ==> s[p + 4..][|s| - 1 - (p + 4)] == s[|s| - 1];
      assert p + 3 < |s| ==> s[p + 3..][|s| - 1 - (p + 3)] == s[|s| - 1];
    }
    r
  }

  /** Lines 321-333: the reply with its fences removed and trimmed. */
  function CleanReply(responseText: string): string
  {
    var headless := if StartsWith(responseText, "```json") || StartsWith(responseText, Fence)
                  then StripOpeningFence(responseText) else responseText;
    var closed := if EndsWith(headless, Fence) then StripClosingFence(headless) else headless;
    Trim(closed)
  }

  /** A reply without fences is only trimmed. */
  lemma UnfencedReplyIsTrimmed(responseText: string)
    requires !StartsWith(responseText, Fence) && !EndsWith(responseText, Fence)
    ensures CleanReply(responseText) == Trim(responseText)
  {
    JsonFenceIsFence(responseText);
  }

  /** A reply opening with "```json" opens with the fence, so the first test of line 324
      is subsumed by the second. */
  lemma JsonFenceIsFence(s: string)
    ensures StartsWith(s, "```json") ==> StartsWith(s, Fence)
  {
    if StartsWith(s, "```json") {
      assert s[..3] == s[..7][..3];
    }
  }

  /** Wrapping a body in a fenced code block, tagged `json` or untagged, and cleaning the
      reply gives back the trimmed body. */
  lemma FencedReplyRoundTrip(lang: string, body: string)
    requires lang == "json" || lang == ""
    ensures CleanReply(Fence + lang + "\n" + body + "\n" + Fence) == Trim(body)
  {
    var s := Fence + lang + "\n" + body + "\n" + Fence;
    OpeningOfWrapped(lang, body);
    var headless := StripOpeningFence(s);
    assert StartsWith(s, Fence) by { assert s[..3] == Fence; }
    if AllWhite(body) {
      ClosingOfWrapped("");
      assert Trim(body) == [];
    } else {
      var lw := LeadingWhite(body);
      ClosingOfWrapped(body[lw..]);
      TrimAfterLeading(body);
    }
  }

  /** The opening-fence regex removes the fence, the tag and the white space up to the
      first visible character of the body (or up to the closing fence). */
  lemma OpeningOfWrapped(lang: string, body: string)
    requires lang == "json" || lang == ""
    ensures var s := Fence + lang + "\n" + body + "\n" + Fence;
      StartsWith(s, Fence) &&
      StripOpeningFence(s) == if AllWhite(body) then Fence else body[LeadingWhite(body)..] + "\n" + Fence
  {
    var t := "\n" + body + "\n" + Fence;
    var s := Fence + lang + "\n" + body + "\n" + Fence;
    assert s == Fence + (lang + t);
    OpeningOfTagged(lang, t);
    WrappedTail(body);
  }

  /** After the fence and an optional tag, the opening strip skips the white space. */
  lemma OpeningOfTagged(lang: string, t: string)
    requires lang == "json" || lang == ""
    requires |t| > 0 && t[0] == '\n'
    ensures StartsWith(Fence + (lang + t), Fence)
    ensures StripOpeningFence(Fence + (lang + t)) == t[LeadingWhite(t)..]
  {
    var u := lang + t;
    var s := Fence + u;
    var k := 3 + |lang|;
    var w := LeadingWhite(t);
    assert |Fence| == 3;
    assert s[..3] == Fence;
    assert s[3..] == u by {
      DropOfAppend(Fence, u, 0);
    }
    assert StartsWith(s[3..], "json") <==> lang == "json" by {
      TagDetected(lang, t);
    }
    assert s[k..] == t by {
      DropOfAppend(Fence, u, |lang|);
      DropOfAppend(lang, t, 0);
    }
    assert OpeningFenceLength(s) == k + w;
    assert s[k + w..] == t[w..] by {
      DropOfAppend(Fence, u, |lang| + w);
      DropOfAppend(lang, t, w);
    }
  }

  /** The `json` tag is recognised exactly when it is there. */
  lemma TagDetected(lang: string, t: string)
    requires lang == "json" || lang == ""
    requires |t| > 0 && t[0] == '\n'
    ensures StartsWith(lang + t, "json") <==> lang == "json"
  {
    if lang == "" {
      assert (lang + t)[0] == '\n';
    } else {
      assert (lang + t)[..4] == lang;
    }
  }

  /** Skipping the white space after the tag lands on the first visible character of the
      body, or on the closing fence when the body is blank. */
  lemma WrappedTail(body: string)
    ensures var t := "\n" + body + "\n" + Fence;
      t[LeadingWhite(t)..] == if AllWhite(body) then Fence else body[LeadingWhite(body)..] + "\n" + Fence
  {
    if AllWhite(body) {
      BlankWrappedTail(body);
    } else {
      VisibleWrappedTail(body);
    }
  }

  lemma BlankWrappedTail(body: string)
    requires AllWhite(body)
    ensures var t := "\n" + body + "\n" + Fence;
      t[LeadingWhite(t)..] == Fence
  {
    var x := "\n" + body + "\n";
    assert AllWhite(x) by {
      forall i | 0 <= i < |x| ensures IsWhitespace(x[i]) {
        if 0 < i < |x| - 1 { assert x[i] == body[i - 1]; }
      }
    }
    LeadingWhiteExact(x, Fence);
    assert (x + Fence)[|x|..] == Fence;
  }

  lemma VisibleWrappedTail(body: string)
    requires !AllWhite(body)
    ensures var t := "\n" + body + "\n" + Fence;
      t[LeadingWhite(t)..] == body[LeadingWhite(body)..] + "\n" + Fence
  {
    var t := "\n" + body + "\n" + Fence;
    var lw := LeadingWhite(body);
    var x := "\n" + body[..lw];
    var y := body[lw..] + "\n" + Fence;
    assert AllWhite(x) by {
      forall i | 0 <= i < |x| ensures IsWhitespace(x[i]) {
        if 0 < i { assert x[i] == body[..lw][i - 1]; }
      }
    }
    assert lw < |body|;
    assert y[0] == body[lw];
    assert t == x + y by {
      assert body == body[..lw] + body[lw..];
    }
    LeadingWhiteExact(x, y);
    assert (x + y)[|x|..] == y;
  }

  /** The closing-fence regex removes exactly the newline and fence appended to `x`. */
  lemma ClosingOfWrapped(x: string)
    ensures EndsWith(x + "\n" + Fence, Fence) && StripClosingFence(x + "\n" + Fence) == x
    ensures EndsWith(Fence, Fence) && StripClosingFence(Fence) == ""
  {
    var s := x + "\n" + Fence;
    assert s[|s| - 3..] == Fence;
    assert s[|s| - 4] == '\n';
    assert s[..|s| - 4] == x;
    assert Fence[0..] == Fence;
  }

  // ---------------------------------------------------------------------------
  // Parse fallback

  /** `i` is the position of the first `c` in `text`. */
  predicate FirstAt(text: string, c: char, i: int)
  {
    0 <= i < |text| && text[i] == c && forall k :: 0 <= k < i ==> text[k] != c
  }

  /** `j` is the position of the last `c` in `text`. */
  predicate LastAt(text: string, c: char, j: int)
  {
    0 <= j < |text| && text[j] == c && forall k :: j < k < |text| ==> text[k] != c
  }

  /** The fallback slice: from the first `{` to the last `}` inclusive, when both exist and
      the opening brace comes first; `None` exactly when no `{` precedes a `}`. */
  function JsonSlice(text: string): (r: Option<string>)
    ensures r.Some? ==>
      exists i, j :: FirstAt(text, '{', i) && LastAt(text, '}', j) && i < j && r.value == text[i..j + 1]
    ensures r.None? <==> forall i, j :: 0 <= i < j < |text| && text[i] == '{' ==> text[j] != '}'
  {
    var first := IndexOf(text, "{");
    var last := LastIndexOfChar(text, '}');
    assert forall i :: 0 <= i < |text| && text[i] == '{' ==> first != -1 && first <= i by {
      forall i | 0 <= i < |text| && text[i] == '{' ensures first != -1 && first <= i {
        assert OccursAt(text, "{", i);
      }
    }
    if first != -1 && last != -1 && last > first then
      assert text[first..first + 1] == "{";
      assert FirstAt(text, '{', first);
      assert LastAt(text, '}', last);
      Some(text[first..last + 1])
    else
      None
  }

  /** Lines 336-362: parse, or on failure report truncation when the text ends with
      neither `}` nor `]`, or parse the `{...}` slice. */
  function ParseReply(parse: string -> Option<RawAnalysis>, jsonText: string): (r: Result<RawAnalysis, AnalysisError>)
    ensures parse(jsonText).Some? ==> r == Success(parse(jsonText).value)
    ensures parse(jsonText).None? && !EndsWith(TrimEnd(jsonText), "}") && !EndsWith(TrimEnd(jsonText), "]")
      ==> r == Failure(TruncatedReply)
    ensures parse(jsonText).None? && (EndsWith(TrimEnd(jsonText), "}") || EndsWith(TrimEnd(jsonText), "]")) ==>
      r == match JsonSlice(jsonText)
           case None => Failure(NoJsonFound)
           case Some(slice) => if parse(slice).Some? then Success(parse(slice).value) else Failure(UnparsableJson)
    ensures r.Failure? && r.error == NoJsonFound ==>
      forall i, j :: 0 <= i < j < |jsonText| && jsonText[i] == '{' ==> jsonText[j] != '}'
    ensures r.Failure? ==> r.error in {TruncatedReply, NoJsonFound, UnparsableJson}
  {
    match parse(jsonText)
    case Some(a) => Success(a)
    case None =>
      var trimmedEnd := TrimEnd(jsonText);
      if !EndsWith(trimmedEnd, "}") && !EndsWith(trimmedEnd, "]") then Failure(TruncatedReply)
      else
        match JsonSlice(jsonText)
        case None => Failure(NoJsonFound)
        case Some(slice) =>
          match parse(slice)
          case Some(a) => Success(a)
          case None => Failure(UnparsableJson)
  }

  // ---------------------------------------------------------------------------
  // Section completion

  /** The entry a map keyed by section name keeps for `name`: the last entry so named. */
  function LastNamed(entries: seq<RawSection>, name: string): (r: Option<RawSection>)
    ensures r.Some? ==> r.value.SectionObject? && r.value.name == Str(name)
    ensures r.Some? ==>
      exists j :: 0 <= j < |entries| && entries[j] == r.value
        && forall k :: j < k < |entries| ==> !(entries[k].SectionObject? && entries[k].name == Str(name))
    ensures r.None? <==> forall k :: 0 <= k < |entries| ==> !(entries[k].SectionObject? && entries[k].name == Str(name))
  {
    if |entries| == 0 then None
    else
      var last := entries[|entries| - 1];
      if last.SectionObject? && last.name == Str(name) then Some(last)
      else
        var r := LastNamed(entries[..|entries| - 1], name);
        assert forall k :: 0 <= k < |entries| - 1 ==> entries[..|entries| - 1][k] == entries[k];
        r
  }

  /** `section.confidence || 'low'` as written: any truthy value is kept, whatever it is. */
  function NormalizeConfidenceAsWritten(raw: Scalar): Scalar
  {
    if Truthy(raw) then raw else Str("low")
  }

  /** The written default fails to keep the declared type: a confidence such as "alta"
      passes through unchanged and is none of 'high', 'medium', 'low'. */
  lemma AsWrittenConfidenceEscapesLevels()
    ensures NormalizeConfidenceAsWritten(Str("alta")) == Str("alta")
    ensures ParseLevel("alta").None?
  {
  }

  /** The confidence a section verdict is meant to carry: the level the reply names, and
      'low' when it names none. */
  function NormalizeConfidence(raw: Scalar): (l: Level)
    ensures raw.Str? && ParseLevel(raw.s).Some? ==> l == ParseLevel(raw.s).value
    ensures !Truthy(raw) ==> l == Low
    ensures l == Low || raw == Str(Label(l))
  {
    if raw.Str? && ParseLevel(raw.s).Some? then ParseLevel(raw.s).value else Low
  }

  /** Wherever the written code yields one of the three labels, the corrected one yields
      that level. */
  lemma CorrectedConfidenceAgrees(raw: Scalar, l: Level)
    requires NormalizeConfidenceAsWritten(raw) == Str(Label(l))
    ensures NormalizeConfidence(raw) == l
  {
  }

  /** One completed verdict: the last entry with the name, or a not-found default. */
  function NormalizeSection(name: string, entry: Option<RawSection>): SectionAnalysis
    requires entry.Some? ==> entry.value.SectionObject?
  {
    match entry
    case Some(s) => SectionAnalysis(name, s.found == Bool(true), NormalizeConfidence(s.confidence), s.completeness)
    case None => SectionAnalysis(name, false, Low, Absent)
  }

  /** The verdict list forced to exactly the eight required names, in canonical order:
      found only when the last entry of that name says literally `true`, confidence 'low'
      unless it names a level, a default for a missing name, and other names dropped. */
  function NormalizeSections(entries: seq<RawSection>): (r: seq<SectionAnalysis>)
    ensures |r| == |RequiredSections|
    ensures forall i :: 0 <= i < |r| ==> r[i].name == RequiredSections[i]
    ensures forall i :: 0 <= i < |r| ==>
      && (r[i].found <==> LastNamed(entries, RequiredSections[i]).Some? && LastNamed(entries, RequiredSections[i]).value.found == Bool(true))
      && (LastNamed(entries, RequiredSections[i]).None? ==> r[i].confidence == Low && r[i].completeness == Absent)
      && (LastNamed(entries, RequiredSections[i]).Some? ==>
            r[i].confidence == NormalizeConfidence(LastNamed(entries, RequiredSections[i]).value.confidence)
            && r[i].completeness == LastNamed(entries, RequiredSections[i]).value.completeness)
  {
    seq(|RequiredSections|, i requires 0 <= i < |RequiredSections| =>
      NormalizeSection(RequiredSections[i], LastNamed(entries, RequiredSections[i])))
  }

  // ---------------------------------------------------------------------------
  // Recommendation checks and assembly

  /** The error the check loop throws for one recommendation, if any: reading a property
      of `null` fails, then the priority is checked, then that section, issue and suggestion
      are non-empty. */
  function RecommendationError(rec: RawRecommendation): Option<AnalysisError>
  {
    if rec.NullRecommendation? then Some(MalformedRecommendation)
    else if ParseLevel(rec.priority).None? then Some(InvalidPriority)
    else if rec.section == "" || rec.issue == "" || rec.suggestion == "" then Some(IncompleteRecommendation)
    else None
  }

  function ToRecommendation(rec: RawRecommendation): (r: Recommendation)
    requires RecommendationError(rec).None?
    ensures rec.RawRecommendation? && Label(r.priority) == rec.priority
    ensures r.section == rec.section && r.issue == rec.issue && r.suggestion == rec.suggestion
  {
    Recommendation(ParseLevel(rec.priority).value, rec.section, rec.issue, rec.suggestion)
  }

  /** All recommendations are kept, unchanged, when every one passes; otherwise the error
      of the first one that fails. */
  function CheckRecommendations(recs: seq<RawRecommendation>): (r: Result<seq<Recommendation>, AnalysisError>)
    ensures r.Success? <==> forall i :: 0 <= i < |recs| ==> RecommendationError(recs[i]).None?
    ensures r.Success? ==> |r.value| == |recs|
    ensures r.Success? ==> forall i :: 0 <= i < |recs| ==> r.value[i] == ToRecommendation(recs[i])
    ensures r.Failure? ==>
      exists i :: 0 <= i < |recs| && RecommendationError(recs[i]) == Some(r.error)
        && forall j :: 0 <= j < i ==> RecommendationError(recs[j]).None?
  {
    if |recs| == 0 then Success([])
    else match RecommendationError(recs[0])
      case Some(e) => Failure(e)
      case None =>
        match CheckRecommendations(recs[1..])
        case Failure(e) =>
          ghost var i :| 0 <= i < |recs[1..]| && RecommendationError(recs[1..][i]) == Some(e)
            && forall j :: 0 <= j < i ==> RecommendationError(recs[1..][j]).None?;
          assert RecommendationError(recs[i + 1]) == Some(e);
          Failure(e)
        case Success(rest) =>
          assert forall i :: 1 <= i < |recs| ==> recs[1..][i - 1] == recs[i];
          Success([ToRecommendation(recs[0])] + rest)
  }

  /** `i` is the first recommendation the check loop rejects. */
  predicate FirstFailing(recs: seq<RawRecommendation>, i: int)
  {
    0 <= i < |recs| && RecommendationError(recs[i]).Some?
    && forall j :: 0 <= j < i ==> RecommendationError(recs[j]).None?
  }

  /** A number between 0 and 100 inclusive. */
  predicate InPercentRange(v: Scalar)
  {
    v.Number? && 0.0 <= v.x <= 100.0
  }

  /** Both scores are numbers between 0 and 100. */
  predicate ScoresInRange(raw: RawAnalysis)
  {
    InPercentRange(raw.overallScore) && InPercentRange(raw.overallCompleteness)
  }

  /** `sections` is an array none of whose elements is `null`. */
  predicate SectionsReadable(raw: RawAnalysis)
  {
    raw.sections.Some? && forall k :: 0 <= k < |raw.sections.value| ==> raw.sections.value[k].SectionObject?
  }

  /** The four list properties are arrays. */
  predicate ListsPresent(raw: RawAnalysis)
  {
    raw.strengths.Some? && raw.weaknesses.Some? && raw.recommendations.Some? && raw.redFlags.Some?
  }

  /** Lines 364-434: the checks, in order, and the assembled analysis. */
  function ShapeAnalysis(raw: RawAnalysis, projectType: ProjectType, projectStage: ProjectStage): (r: Result<ClaudeAnalysis, AnalysisError>)
    ensures r.Success? <==>
      ScoresInRange(raw) && SectionsReadable(raw) && ListsPresent(raw)
      && forall i :: 0 <= i < |raw.recommendations.value| ==> RecommendationError(raw.recommendations.value[i]).None?
    ensures !InPercentRange(raw.overallScore) ==> r == Failure(InvalidScore)
    ensures InPercentRange(raw.overallScore) && !InPercentRange(raw.overallCompleteness) ==>
      r == Failure(InvalidCompleteness)
    ensures ScoresInRange(raw) && raw.sections.None? ==> r == Failure(SectionsNotArray)
    ensures ScoresInRange(raw) && raw.sections.Some? && !SectionsReadable(raw) ==> r == Failure(MalformedSection)
    ensures ScoresInRange(raw) && SectionsReadable(raw) && !ListsPresent(raw) ==> r == Failure(InvalidStructure)
    ensures ScoresInRange(raw) && SectionsReadable(raw) && ListsPresent(raw) ==>
      forall i :: FirstFailing(raw.recommendations.value, i) ==>
        r == Failure(RecommendationError(raw.recommendations.value[i]).value)
    ensures r.Success? ==>
      && InPercentRange(raw.overallScore) && r.value.overallScore == raw.overallScore.x
      && InPercentRange(raw.overallCompleteness) && r.value.overallCompleteness == raw.overallCompleteness.x
      && raw.sections.Some? && r.value.sections == NormalizeSections(raw.sections.value)
      && (forall k :: 0 <= k < |raw.sections.value| ==> raw.sections.value[k].SectionObject?)
      && raw.strengths == Some(r.value.strengths) && raw.weaknesses == Some(r.value.weaknesses)
      && raw.redFlags == Some(r.value.redFlags)
      && raw.recommendations.Some? && |r.value.recommendations| == |raw.recommendations.value|
      && (forall i :: 0 <= i < |raw.recommendations.value| ==>
            RecommendationError(raw.recommendations.value[i]).None?
            && r.value.recommendations[i] == ToRecommendation(raw.recommendations.value[i]))
      && r.value.projectType == projectType && r.value.projectStage == projectStage
  {
    if !InPercentRange(raw.overallScore) then Failure(InvalidScore)
    else if !InPercentRange(raw.overallCompleteness) then Failure(InvalidCompleteness)
    else if raw.sections.None? then Failure(SectionsNotArray)
    else if exists k :: 0 <= k < |raw.sections.value| && raw.sections.value[k].NullSection? then Failure(MalformedSection)
    else
      var sections := NormalizeSections(raw.sections.value);
      if raw.strengths.None? || raw.weaknesses.None? || raw.recommendations.None? || raw.redFlags.None? then
        Failure(InvalidStructure)
      else match CheckRecommendations(raw.recommendations.value)
        case Failure(e) => Failure(e)
        case Success(recs) =>
          Success(ClaudeAnalysis(raw.overallScore.x, raw.overallCompleteness.x, sections,
            raw.strengths.value, raw.weaknesses.value, recs, raw.redFlags.value, projectType, projectStage))
  }

  /** What a reply that passed the input guards turns into: fences removed, parsed with the
      fallback, then checked and assembled. */
  function AnalyzeReply(parse: string -> Option<RawAnalysis>, responseText: string,
                        projectType: ProjectType, projectStage: ProjectStage): Result<ClaudeAnalysis, AnalysisError>
  {
    match ParseReply(parse, CleanReply(Trim(responseText)))
    case Failure(e) => Failure(e)
    case Success(raw) => ShapeAnalysis(raw, projectType, projectStage)
  }

  /** A bare or fenced reply whose body the parser accepts is analysed as that body. */
  lemma FencedReplyAnalysed(parse: string -> Option<RawAnalysis>, lang: string, body: string,
                            raw: RawAnalysis, projectType: ProjectType, projectStage: ProjectStage)
    requires lang == "json" || lang == ""
    requires parse(Trim(body)) == Some(raw)
    ensures AnalyzeReply(parse, Fence + lang + "\n" + body + "\n" + Fence, projectType, projectStage)
      == ShapeAnalysis(raw, projectType, projectStage)
  {
    var s := Fence + lang + "\n" + body + "\n" + Fence;
    assert Trim(s) == s by {
      assert s[0] == '`' && s[|s| - 1] == '`';
      assert LeadingWhite(s) == 0;
      assert TrailingEnd(s) == |s|;
      assert s[0..][..|s|] == s;
    }
    FencedReplyRoundTrip(lang, body);
  }

  /** `analyzeCharterWithClaude`, lines 276-286 and 319-434, with the model call replaced
      by its reply (`None` when the first content block is not text) and `JSON.parse` by
      `parse`. The checks throw, in this order: missing key, blank charter, missing
      context, then whatever the reply handling rejects. */
  method AnalyzeCharter(apiKeyConfigured: bool, extractedText: string,
                        projectType: Option<ProjectType>, projectStage: Option<ProjectStage>,
                        reply: Option<string>, parse: string -> Option<RawAnalysis>)
    returns (r: Result<ClaudeAnalysis, AnalysisError>)
    ensures !apiKeyConfigured ==> r == Failure(MissingApiKey)
    ensures apiKeyConfigured && IsBlank(extractedText) ==> r == Failure(EmptyCharter)
    ensures apiKeyConfigured && !IsBlank(extractedText) && (projectType.None? || projectStage.None?) ==>
      r == Failure(MissingContext)
    ensures apiKeyConfigured && !IsBlank(extractedText) && projectType.Some? && projectStage.Some? ==>
      r == if reply.None? then Failure(UnexpectedReply)
           else AnalyzeReply(parse, reply.value, projectType.value, projectStage.value)
  {
    if !apiKeyConfigured { return Failure(MissingApiKey); }
    if Trim(extractedText) == [] { return Failure(EmptyCharter); }
    if projectType.None? || projectStage.None? { return Failure(MissingContext); }
    if reply.None? { return Failure(UnexpectedReply); }

    var responseText := Trim(reply.value);
    var jsonText := responseText;
    if StartsWith(jsonText, "```json") || StartsWith(jsonText, Fence) {
      jsonText := StripOpeningFence(jsonText);
    }
    if EndsWith(jsonText, Fence) {
      jsonText := StripClosingFence(jsonText);
    }
    jsonText := Trim(jsonText);

    var parsed := ParseReply(parse, jsonText);
    if parsed.Failure? { return Failure(parsed.error); }
    r := ValidateAnalysis(parsed.value, projectType.value, projectStage.value);
  }

  /** Lines 364-434 on the parsed reply: the range and shape checks in source order, the
      completed section list and the assembled analysis. */
  method ValidateAnalysis(analysis: RawAnalysis, projectType: ProjectType, projectStage: ProjectStage)
    returns (r: Result<ClaudeAnalysis, AnalysisError>)
    ensures r == ShapeAnalysis(analysis, projectType, projectStage)
  {
    if !InPercentRange(analysis.overallScore) { return Failure(InvalidScore); }
    if !InPercentRange(analysis.overallCompleteness) { return Failure(InvalidCompleteness); }
    if analysis.sections.None? { return Failure(SectionsNotArray); }
    if exists k :: 0 <= k < |analysis.sections.value| && analysis.sections.value[k].NullSection? {
      return Failure(MalformedSection);
    }
    var completeSections := NormalizeSections(analysis.sections.value);
    if analysis.strengths.None? || analysis.weaknesses.None? || analysis.recommendations.None? || analysis.redFlags.None? {
      return Failure(InvalidStructure);
    }
    var checked := ValidateRecommendations(analysis.recommendations.value);
    if checked.Failure? { return Failure(checked.error); }
    r := Success(ClaudeAnalysis(analysis.overallScore.x, analysis.overallCompleteness.x, completeSections,
      analysis.strengths.value, analysis.weaknesses.value, checked.value, analysis.redFlags.value,
      projectType, projectStage));
  }

  /** The loop of lines 414-421: stop at the first recommendation whose priority is not a
      level or whose section, issue or suggestion is empty. */
  method ValidateRecommendations(recs: seq<RawRecommendation>) returns (r: Result<seq<Recommendation>, AnalysisError>)
    ensures r == CheckRecommendations(recs)
  {
    var checked: seq<Recommendation> := [];
    for i := 0 to |recs|
      invariant forall j :: 0 <= j < i ==> RecommendationError(recs[j]).None?
      invariant |checked| == i
      invariant forall j :: 0 <= j < i ==> checked[j] == ToRecommendation(recs[j])
    {
      var e := RecommendationError(recs[i]);
      if e.Some? {
        FirstFailureIsReported(recs, i);
        return Failure(e.value);
      }
      checked := checked + [ToRecommendation(recs[i])];
    }
    var expected := CheckRecommendations(recs);
    assert expected.Success? && expected.value == checked;
    r := Success(checked);
  }

  /** The error reported for a list of recommendations is that of the first one that fails. */
  lemma {:induction false} FirstFailureIsReported(recs: seq<RawRecommendation>, i: nat)
    requires i < |recs| && RecommendationError(recs[i]).Some?
    requires forall j :: 0 <= j < i ==> RecommendationError(recs[j]).None?
    ensures CheckRecommendations(recs) == Failure(RecommendationError(recs[i]).value)
  {
    if i > 0 {
      assert RecommendationError(recs[0]).None?;
      assert forall j :: 0 <= j < i - 1 ==> recs[1..][j] == recs[j + 1];
      FirstFailureIsReported(recs[1..], i - 1);
    }
  }
}
